/** What the parts of a node keep while the node as a whole goes on: its routing table, its cache of lookups and its
    store are only changed by their own operations, also when the node takes a new id. */
module NodeParts {
  import opened Bytes
  import opened Ids
  import opened Nodes
  import opened SortedLists
  import opened Closest
  import opened Routing
  import opened Messages
  import opened Sockets
  import opened Lrus
  import opened QueryCaches
  import opened Rpcs
  import opened RpcInvariants
  import L = Lookups
  import P = PutQueries
  import V = Servers

  ghost predicate SumsOk(stats: Stats) { exists findNodes: nat :: StatsOk(stats, findNodes) }

  ghost predicate PartsOk(st: State) { TableOk(st.own, st.table) && SumsOk(st.stats) && V.StoreOk(st.store) }

  /** Nothing but the socket, the queries and the address of the node changes. */
  ghost predicate SameParts(st: State, st': State)
  {
    st'.own == st.own && st'.table == st.table && st'.stats == st.stats && st'.store == st.store
  }

  // === get and put ===

  lemma {:induction false} ReadCacheKeeps(st: State, target: Id)
    requires PartsOk(st)
    ensures PartsOk(ReadCache(st, target))
  {
    var f: nat :| StatsOk(st.stats, f);
    ReadOk(st.stats, f, target);
  }

  lemma {:induction false} GetKeepsParts(cfg: Config, st: State, request: L.GetRequest, extra: seq<SocketAddr>,
      now: nat)
    requires PartsOk(st)
    ensures PartsOk(GetStep(cfg, st, request, extra, now))
  {
    ReadCacheKeeps(st, request.target);
  }

  lemma {:induction false} PutKeepsParts(cfg: Config, st: State, request: PutRequestSpecific, extra: seq<Node>,
      now: nat)
    requires PartsOk(st)
    ensures PartsOk(PutStep(cfg, st, request, extra, now).0)
  {
    var target := PutTarget(request);
    match ConflictOf(st, request) {
      case Override => PutFreshKeepsParts(cfg, st.(puts := st.puts - {target}), request, extra, now);
      case NoConflict => PutFreshKeepsParts(cfg, st, request, extra, now);
      case _ =>
    }
  }

  lemma {:induction false} AtCachedSameParts(st: State, p: P.Put, nodes: seq<Node>, now: nat)
    ensures SameParts(st, PutAtCached(st, p, nodes, now).0)
  {
  }

  lemma {:induction false} PutFreshKeepsParts(cfg: Config, st: State, request: PutRequestSpecific, extra: seq<Node>,
      now: nat)
    requires PartsOk(st)
    ensures PartsOk(PutFresh(cfg, st, request, extra, now).0)
  {
    var target := PutTarget(request);
    var p := P.NewPut(target, request, extra);
    ReadCacheKeeps(st, target);
    if UsesCache(st, target, now) {
      AtCachedSameParts(ReadCache(st, target), p, CachedNodes(st, target), now);
    } else {
      GetKeepsParts(cfg, ReadCache(st, target), L.GetValue(target, None, SaltOf(request)), [], now);
    }
  }

  // === tick ===

  lemma {:induction false} TickGetsSameParts(cfg: Config, st: State, order: seq<Id>, now: nat, later: nat)
    ensures SameParts(st, TickGets(cfg, st, order, now, later).0)
  {
    if order != [] {
      TickGetsSameParts(cfg, st, order[..|order| - 1], now, later);
    }
  }

  lemma {:induction false} LookupLeavesKeepsParts(cfg: Config, st: State, id: Id, nodes: seq<Node>,
      order: seq<SocketAddr>, now: nat)
    requires PartsOk(st) && id in st.queries
    ensures PartsOk(LookupLeaves(cfg, st, id, nodes, order, now))
  {
    var f: nat :| StatsOk(st.stats, f);
    CacheQueryOk(st.stats, f, st.queries[id].target, CacheEntry(cfg, st.queries[id], nodes));
    UpdateAddressSameParts(st.(queries := st.queries - {id}), BestAddress(st.queries[id].votes, order), now);
  }

  lemma {:induction false} UpdateAddressSameParts(st: State, best: Option<SocketAddr>, now: nat)
    ensures SameParts(st, UpdateAddress(st, best, now))
  {
  }

  lemma {:induction false} WaitingSameParts(st: State, id: Id, nodes: seq<Node>, now: nat)
    requires id in st.puts
    ensures SameParts(st, WaitingPutStarts(st, id, nodes, now).0)
  {
  }

  lemma {:induction false} CleanOneKeepsParts(cfg: Config, st: State, id: Id, nodes: seq<Node>, order: seq<SocketAddr>,
      now: nat)
    requires PartsOk(st)
    ensures PartsOk(CleanOne(cfg, st, id, nodes, order, now).0)
  {
    if id in st.queries {
      LookupLeavesKeepsParts(cfg, st, id, nodes, order, now);
      var st1 := LookupLeaves(cfg, st, id, nodes, order, now);
      if id in st1.puts {
        WaitingSameParts(st1, id, nodes, now);
      }
    }
  }

  lemma {:induction false} CleanGetsKeepsParts(cfg: Config, st: State, done: DoneGets, votes: Id -> seq<SocketAddr>,
      now: nat)
    requires PartsOk(st)
    ensures PartsOk(CleanGets(cfg, st, done, votes, now).0)
  {
    if done != [] {
      var n := |done| - 1;
      CleanGetsKeepsParts(cfg, st, done[..n], votes, now);
      CleanOneKeepsParts(cfg, CleanGets(cfg, st, done[..n], votes, now).0, done[n].0, done[n].1, votes(done[n].0), now);
    }
  }

  lemma {:induction false} PurgeKeepsParts(st: State, nodes: seq<Node>, now: nat)
    requires PartsOk(st)
    ensures PartsOk(PingAndPurge(st, nodes, now)) && PingAndPurge(st, nodes, now).own == st.own
  {
    if nodes != [] {
      var st1, n := PingAndPurge(st, nodes[..|nodes| - 1], now), nodes[|nodes| - 1];
      PurgeKeepsParts(st, nodes[..|nodes| - 1], now);
      TableRemoveOk(st1.own, st1.table, n.id);
    }
  }

  lemma {:induction false} MaintainKeepsParts(cfg: Config, st: State, now: nat)
    requires PartsOk(st)
    ensures PartsOk(Maintain(cfg, st, now))
  {
    var refresh := Elapsed(st.lastRefresh, now) >= REFRESH_TABLE_INTERVAL;
    var st1 := if refresh && !st.firewalled then st.(socket := st.socket.(serverMode := true)) else st;
    var st2 := if Elapsed(st.lastPing, now) >= PING_TABLE_INTERVAL
        then PingAndPurge(st1.(lastPing := now), AllNodes(st1.table), now) else st1;
    assert PartsOk(st1) && PartsOk(st1.(lastPing := now));
    PurgeKeepsParts(st1.(lastPing := now), AllNodes(st1.table), now);
    assert PartsOk(st2.(lastRefresh := now));
    GetKeepsParts(cfg, st2.(lastRefresh := now), L.FindNode(st2.own), [], now);
  }

  lemma {:induction false} OnRequestKeepsParts(cfg: Config, st: State, from: SocketAddr, r: RequestSpecific, now: nat,
      secret: seq<byte>, newId: Id)
    requires PartsOk(st)
    ensures PartsOk(OnRequest(cfg, st, from, r, now, secret, newId))
  {
    var st1 := Seeded(cfg, st, from, r, now);
    var id := if r.requestType.FindNodeRequest? then r.requestType.target else st.own;
    TableAddOk(st.own, st.table, Node(id, from, None, now), now);
    assert PartsOk(st1);
    V.StepFinds(st1.store, cfg.env, V.Call(DirectoryOf(st1), from, r, now, secret), st.own);
    var st2 := Served(cfg, st1, from, r, now, secret);
    assert PartsOk(st2);
    SelfPingedKeepsParts(cfg, st2, from, r, now, newId);
  }

  /** A new id starts an empty table, for which the old distances do not matter. */
  lemma {:induction false} SelfPingedKeepsParts(cfg: Config, st: State, from: SocketAddr, r: RequestSpecific, now: nat,
      newId: Id)
    requires PartsOk(st)
    ensures PartsOk(SelfPinged(cfg, st, from, r, now, newId))
  {
    GetKeepsParts(cfg, st.(firewalled := false), L.FindNode(newId), [], now);
  }

  lemma {:induction false} OnResponseKeepsParts(cfg: Config, st: State, from: SocketAddr, m: Message,
      putOrder: seq<Id>, getOrder: seq<Id>, now: nat)
    requires PartsOk(st)
    ensures PartsOk(OnResponse(cfg, st, from, m, putOrder, getOrder, now).0)
  {
    var put, owner := OwnerOf(PutIds(st), putOrder, m.transactionId), OwnerOf(QueryIds(st), getOrder, m.transactionId);
    if !m.readOnly && put.None? && owner.Some? {
      QueryTakesKeepsParts(cfg, st, owner.value, from, m, now);
    }
  }

  lemma {:induction false} QueryTakesKeepsParts(cfg: Config, st: State, id: Id, from: SocketAddr, m: Message, now: nat)
    requires PartsOk(st) && id in st.queries
    ensures PartsOk(QueryTakes(cfg, st, id, from, m, now).0)
  {
    QueryTakesIs(cfg, st, id, from, m, now);
    if AuthorId(m).Some? {
      TableAddOk(st.own, st.table, Node(AuthorId(m).value, from, None, now), now);
    }
  }

  lemma {:induction false} HandleMessageKeepsParts(cfg: Config, st: State, i: Input)
    requires PartsOk(st)
    ensures PartsOk(HandleMessage(cfg, st, i).0)
  {
    var st1 := st.(socket := Received(st.socket, i.packet, i.later));
    assert PartsOk(st1);
    if HandsOn(st.socket, i.packet, i.later) {
      var p := i.packet.value;
      if p.message.messageType.Request? {
        OnRequestKeepsParts(cfg, st1, p.from, p.message.messageType.request, i.later, i.secret, i.newId);
      } else {
        OnResponseKeepsParts(cfg, st1, p.from, p.message, i.putOrder, i.getOrder, i.later);
      }
    }
  }

  lemma {:induction false} TickKeepsParts(cfg: Config, st: State, i: Input)
    requires PartsOk(st)
    ensures PartsOk(Tick(cfg, st, i).0)
  {
    var (st1, doneGets) := TickGets(cfg, st, i.getOrder, i.now, i.later);
    var st2 := Cleanup(cfg, st1, doneGets, TickPuts(st, i.putOrder, i.now), i.votes, i.later).0;
    TickGetsSameParts(cfg, st, i.getOrder, i.now, i.later);
    CleanGetsKeepsParts(cfg, st1, doneGets, i.votes, i.later);
    assert PartsOk(st2);
    MaintainKeepsParts(cfg, st2, i.later);
    HandleMessageKeepsParts(cfg, Maintain(cfg, st2, i.later), i);
  }

  // === Whole runs ===

  lemma {:induction false} SeedKeepsParts(st: State, nodes: seq<Node>, now: nat)
    requires PartsOk(st)
    ensures PartsOk(SeedAll(st, nodes, now)) && SeedAll(st, nodes, now).own == st.own
  {
    if nodes != [] {
      var n := |nodes| - 1;
      SeedKeepsParts(st, nodes[..n], now);
      TableAddOk(st.own, SeedAll(st, nodes[..n], now).table, nodes[n], now);
    }
  }

  lemma {:induction false} RunKeepsParts(cfg: Config, st: State, ops: seq<Op>)
    requires PartsOk(st)
    ensures PartsOk(RunNode(cfg, st, ops))
  {
    if ops != [] {
      RunKeepsParts(cfg, st, ops[..|ops| - 1]);
      StepKeepsParts(cfg, RunNode(cfg, st, ops[..|ops| - 1]), ops[|ops| - 1]);
    }
  }

  lemma {:induction false} StepKeepsParts(cfg: Config, st: State, op: Op)
    requires PartsOk(st)
    ensures PartsOk(StepNode(cfg, st, op))
  {
    match op {
      case DoPut(request, extra, at) => PutKeepsParts(cfg, st, request, extra, at);
      case DoGet(get, at) => GetKeepsParts(cfg, st, get, [], at);
      case DoSeed(nodes, at) => SeedKeepsParts(st, nodes, at);
      case DoTick(input) => TickKeepsParts(cfg, st, input);
    }
  }

  lemma {:induction false} NewNodeParts(own: Id, timeout: nat, random: nat -> Id, serverMode: bool, store: V.Store,
      now: nat)
    requires V.StoreOk(store)
    ensures PartsOk(NewNode(own, timeout, random, serverMode, store, now))
  {
    assert StatsOk(NewStats(), 0);
  }

  /** The own id is not in the table, ids are unique, each node is in the bucket of its distance from the present id,
      no bucket exceeds 20, the quota of each address holds, the cache and the store are within their bounds, and no
      counter of the cache has gone below its start. */
  ghost predicate InOrder(v: State)
  {
    var all := AllNodes(v.table);
    && UniqueIds(all)
    && (forall n :: n in all ==> n.id != v.own && var d := Distance(v.own, n.id); d in v.table && n in v.table[d])
    && (forall d :: d in v.table ==> |v.table[d]| <= MAX_BUCKET_SIZE_K)
    && (forall ip :: CountAt(all, ip, false) <= 1 && (!IsLocal(ip) ==> CountAt(all, ip, true) <= 8))
    && |v.stats.items| <= MAX_CACHED_ITERATIVE_QUERIES && v.stats.subnetsSum >= 20 && v.stats.respondersCount >= 0
    && |v.store.mutables| <= v.store.caps.mutables
  }

  lemma {:induction false} PartsInOrder(v: State)
    requires PartsOk(v)
    ensures InOrder(v)
  {
    TableOkLists(v.own, v.table);
    forall ip ensures CountAt(AllNodes(v.table), ip, false) <= 1
        && (!IsLocal(ip) ==> CountAt(AllNodes(v.table), ip, true) <= 8) {
      QuotaPerAddress(AllNodes(v.table), ip);
    }
    forall n | n in AllNodes(v.table) ensures n.id != v.own {
      DistanceIsBitLength(v.own, n.id, 0);
    }
    CountersNonNegative(v.stats);
  }

  /** Whatever a new node is asked, told and seeded with, and whichever id it has by then, all is in order. */
  lemma {:induction false} NodeRunInOrder(cfg: Config, own: Id, timeout: nat, random: nat -> Id, serverMode: bool,
      store: V.Store, now: nat, ops: seq<Op>)
    requires V.StoreOk(store)
    ensures InOrder(RunNode(cfg, NewNode(own, timeout, random, serverMode, store, now), ops))
  {
    var st := NewNode(own, timeout, random, serverMode, store, now);
    NewNodeParts(own, timeout, random, serverMode, store, now);
    RunKeepsParts(cfg, st, ops);
    PartsInOrder(RunNode(cfg, st, ops));
  }

  lemma {:induction false} CountersNonNegative(stats: Stats)
    requires SumsOk(stats)
    ensures stats.subnetsSum >= 20 && stats.respondersCount >= 0
  {
    var f: nat :| StatsOk(stats, f);
    NonNegativeSum(SubnetsOf(), stats.items);
    NonNegativeSum(ValueQueries(), stats.items);
  }

  // === What maintenance does to the table ===

  lemma {:induction false} RemoveMembers(own: Id, b: Buckets, id: Id)
    requires TableOk(own, b)
    ensures TableOk(own, TableRemove(own, b, id))
    ensures forall n :: n in AllNodes(TableRemove(own, b, id)) <==> n in AllNodes(b) && n.id != id
  {
    var b' := TableRemove(own, b, id);
    TableRemoveOk(own, b, id);
    BetweenMembers(b, 1, MAX_DISTANCE + 1);
    BetweenMembers(b', 1, MAX_DISTANCE + 1);
    forall n ensures n in AllNodes(b') <==> n in AllNodes(b) && n.id != id {
      assert forall d :: d in b && n in b[d] ==> (n in b'[d] <==> n.id != id);
      if n in AllNodes(b') {
        var d :| d in b' && 1 <= d < MAX_DISTANCE + 1 && n in b'[d];
        assert n in b[d] by { BucketRemoveOk(DistanceFrom(own), d, b[d], id); }
      }
    }
  }

  /** The stale nodes among those looked at are gone, and no others. */
  ghost predicate Purged(before: seq<Node>, after: seq<Node>, seen: seq<Node>, now: nat)
  {
    forall n :: n in after <==> n in before && !(n in seen && IsStale(n, now))
  }

  lemma {:induction false} PurgeStep(own: Id, b0: Buckets, b: Buckets, seen: seq<Node>, last: Node, now: nat)
    requires TableOk(own, b0) && TableOk(own, b) && last in AllNodes(b0)
    requires Purged(AllNodes(b0), AllNodes(b), seen, now)
    ensures IsStale(last, now) ==> Purged(AllNodes(b0), AllNodes(TableRemove(own, b, last.id)), seen + [last], now)
    ensures !IsStale(last, now) ==> Purged(AllNodes(b0), AllNodes(b), seen + [last], now)
  {
    RemoveMembers(own, b, last.id);
    SameIdSameNode(own, b0, last);
  }

  lemma {:induction false} PurgeMembers(st: State, nodes: seq<Node>, now: nat)
    requires TableOk(st.own, st.table) && forall n :: n in nodes ==> n in AllNodes(st.table)
    ensures var v := PingAndPurge(st, nodes, now);
      v.own == st.own && TableOk(v.own, v.table) && Purged(AllNodes(st.table), AllNodes(v.table), nodes, now)
  {
    if nodes != [] {
      var k := |nodes| - 1;
      PurgeMembers(st, nodes[..k], now);
      assert nodes[..k] + [nodes[k]] == nodes;
      PurgeOneMore(st, PingAndPurge(st, nodes[..k], now), nodes[..k], nodes[k], PingAndPurge(st, nodes, now), now);
    }
  }

  lemma {:induction false} PurgeOneMore(st: State, v: State, seen: seq<Node>, last: Node, w: State, now: nat)
    requires TableOk(st.own, st.table) && last in AllNodes(st.table) && v.own == st.own && TableOk(v.own, v.table)
    requires Purged(AllNodes(st.table), AllNodes(v.table), seen, now) && w.own == v.own
    requires w.table == if IsStale(last, now) then TableRemove(v.own, v.table, last.id) else v.table
    ensures TableOk(w.own, w.table) && Purged(AllNodes(st.table), AllNodes(w.table), seen + [last], now)
  {
    PurgeStep(st.own, st.table, v.table, seen, last, now);
    TableRemoveOk(v.own, v.table, last.id);
  }

  lemma {:induction false} SameIdSameNode(own: Id, b: Buckets, node: Node)
    requires TableOk(own, b) && node in AllNodes(b)
    ensures forall n :: n in AllNodes(b) && n.id == node.id ==> n == node
  {
    TableOkLists(own, b);
  }

  /** When a ping is due, maintenance takes exactly the stale nodes out of the table; otherwise it leaves it alone. */
  lemma {:induction false} MaintenancePurges(cfg: Config, st: State, now: nat)
    requires TableOk(st.own, st.table)
    ensures var kept := AllNodes(Maintain(cfg, st, now).table);
      forall n :: n in kept <==>
        (n in AllNodes(st.table) && !(Elapsed(st.lastPing, now) >= PING_TABLE_INTERVAL && IsStale(n, now)))
  {
    MaintainedTable(cfg, st, now);
    PurgeMembers(st, AllNodes(st.table), now);
  }

  /** Only a ping that is due changes the table. */
  lemma {:induction false} MaintainedTable(cfg: Config, st: State, now: nat)
    ensures Maintain(cfg, st, now).table == if Elapsed(st.lastPing, now) >= PING_TABLE_INTERVAL
        then PingAndPurge(st, AllNodes(st.table), now).table else st.table
  {
    var refresh := Elapsed(st.lastRefresh, now) >= REFRESH_TABLE_INTERVAL;
    var st1 := if refresh && !st.firewalled then st.(socket := st.socket.(serverMode := true)) else st;
    PurgedTable(st, st1.(lastPing := now), AllNodes(st.table), now);
  }

  lemma {:induction false} PurgedTable(st: State, st': State, nodes: seq<Node>, now: nat)
    requires st'.table == st.table && st'.own == st.own
    ensures PingAndPurge(st', nodes, now).table == PingAndPurge(st, nodes, now).table
    ensures PingAndPurge(st', nodes, now).own == PingAndPurge(st, nodes, now).own
  {
    if nodes != [] {
      PurgedTable(st, st', nodes[..|nodes| - 1], now);
    }
  }

  /** Since request number n an address was sent to. */
  ghost predicate SentTo(s: Socket, n: nat, a: SocketAddr) { exists i :: n <= i < |s.sent| && s.sent[i].to == a }

  ghost predicate ToPing(nodes: seq<Node>, a: SocketAddr, now: nat)
  {
    exists n :: n in nodes && n.address == a && !IsStale(n, now) && ShouldPing(n, now)
  }

  /** The round pings exactly the addresses of nodes that are not stale and were not seen for ten seconds. */
  lemma {:induction false} PurgePings(st: State, nodes: seq<Node>, now: nat, a: SocketAddr)
    ensures st.socket.sent <= PingAndPurge(st, nodes, now).socket.sent
    ensures SentTo(PingAndPurge(st, nodes, now).socket, |st.socket.sent|, a) <==> ToPing(nodes, a, now)
  {
    if nodes != [] {
      var k := |nodes| - 1;
      var v, last, w := PingAndPurge(st, nodes[..k], now), nodes[k], PingAndPurge(st, nodes, now);
      PurgePings(st, nodes[..k], now, a);
      assert nodes == nodes[..k] + [last];
      assert ToPing(nodes, a, now)
        == (ToPing(nodes[..k], a, now) || (last.address == a && !IsStale(last, now) && ShouldPing(last, now)));
      if SentTo(v.socket, |st.socket.sent|, a) {
        var i :| |st.socket.sent| <= i < |v.socket.sent| && v.socket.sent[i].to == a;
        assert w.socket.sent[i].to == a;
      }
      if !IsStale(last, now) && ShouldPing(last, now) {
        assert w.socket.sent[|w.socket.sent| - 1].to == last.address;
      }
    }
  }

  // === The order in which maps are walked ===

  /** With no id owned twice, a walk over all keys finds the owner, whatever its order. */
  lemma {:induction false} OwnerIsUnique(ids: map<Id, seq<u32>>, order: seq<Id>, tid: u32, id: Id)
    requires forall i, j :: i in ids && j in ids && i != j ==> Disjoint(ids[i], ids[j])
    ensures OwnerOf(ids, order, tid) == Some(id) <==> id in order && id in ids && tid in ids[id]
    decreases |order|
  {
    if order != [] {
      OwnerIsUnique(ids, order[1..], tid, id);
      assert order == [order[0]] + order[1..];
    }
  }

  lemma {:induction false} SameOwner(ids: map<Id, seq<u32>>, a: seq<Id>, b: seq<Id>, tid: u32)
    requires forall i, j :: i in ids && j in ids && i != j ==> Disjoint(ids[i], ids[j])
    requires forall id :: id in ids ==> id in a && id in b
    ensures OwnerOf(ids, a, tid) == OwnerOf(ids, b, tid)
  {
    var x, y := OwnerOf(ids, a, tid), OwnerOf(ids, b, tid);
    if x.Some? {
      OwnerIsUnique(ids, b, tid, x.value);
    }
    if y.Some? {
      OwnerIsUnique(ids, a, tid, y.value);
    }
  }

  /** What a response does to a node does not depend on the order in which the hash maps are walked. */
  lemma {:induction false} ResponseIgnoresOrder(cfg: Config, st: State, from: SocketAddr, m: Message, now: nat, at: nat,
      putOrder: seq<Id>, getOrder: seq<Id>, putOrder': seq<Id>, getOrder': seq<Id>)
    requires Owned(st, now)
    requires forall id :: id in st.puts ==> id in putOrder && id in putOrder'
    requires forall id :: id in st.queries ==> id in getOrder && id in getOrder'
    ensures OnResponse(cfg, st, from, m, putOrder, getOrder, at)
         == OnResponse(cfg, st, from, m, putOrder', getOrder', at)
  {
    SameOwner(PutIds(st), putOrder, putOrder', m.transactionId);
    SameOwner(QueryIds(st), getOrder, getOrder', m.transactionId);
  }

  lemma {:induction false} QueryTakesFrame(cfg: Config, st: State, id: Id, from: SocketAddr, m: Message, now: nat)
    requires id in st.queries
    ensures var v := QueryTakes(cfg, st, id, from, m, now).0;
      && v.puts == st.puts && v.queries.Keys == st.queries.Keys && v.socket == st.socket
      && forall j :: j in st.queries && j != id ==> v.queries[j] == st.queries[j]
  {
    QueryTakesIs(cfg, st, id, from, m, now);
  }

  /** A response changes the puts and lookups at most at its owner, and one from a read-only node changes nothing. */
  lemma {:induction false} OnlyOwnerChanges(cfg: Config, st: State, from: SocketAddr, m: Message, putOrder: seq<Id>,
      getOrder: seq<Id>, now: nat)
    ensures var v := OnResponse(cfg, st, from, m, putOrder, getOrder, now).0;
      && v.puts.Keys == st.puts.Keys && v.queries.Keys == st.queries.Keys && v.socket == st.socket
      && (forall id :: id in st.puts && m.transactionId !in st.puts[id].inflight ==> v.puts[id] == st.puts[id])
      && (forall id :: id in st.queries && m.transactionId !in st.queries[id].inflight ==>
        v.queries[id] == st.queries[id])
      && (m.readOnly ==> v == st)
  {
    var put, owner := OwnerOf(PutIds(st), putOrder, m.transactionId), OwnerOf(QueryIds(st), getOrder, m.transactionId);
    if m.readOnly {
    } else if put.Some? {
      assert OnResponse(cfg, st, from, m, putOrder, getOrder, now).0 == PutTakes(st, put.value, m.messageType);
    } else if owner.Some? {
      QueryTakesFrame(cfg, st, owner.value, from, m, now);
    }
  }

  // === The address votes ===

  /** The address taken has the most votes of all in the walk; there is none exactly when nothing was voted for. */
  lemma {:induction false} BestAddressHasMostVotes(votes: map<SocketAddr, u16>, order: seq<SocketAddr>)
    ensures var best := BestAddress(votes, order);
      && (best.None? <==> forall a :: a in order && a in votes ==> votes[a] == 0)
      && (best.Some? ==>
        && best.value in order && best.value in votes && votes[best.value] > 0
        && forall a :: a in order && a in votes ==> votes[a] <= votes[best.value])
  {
    if order != [] {
      var k := |order| - 1;
      BestAddressHasMostVotes(votes, order[..k]);
      assert order == order[..k] + [order[k]];
    }
  }
}
