/** Short runs of a new node (rust/mainline/src/rpc.rs) that end where its callers would not expect. */
module NodeCounterexamples {
  import opened Bytes
  import opened Ids
  import opened Nodes
  import opened SortedLists
  import opened Closest
  import opened Routing
  import opened Messages
  import opened Sockets
  import opened Lrus
  import opened QueryCaches
  import opened Rpcs
  import opened RpcInvariants
  import opened PutProgress
  import opened Counterexamples
  import L = Lookups
  import P = PutQueries
  import V = Servers

  function Announcement(t: Id): PutRequestSpecific { AnnouncePeer(t, 0, Some(true)) }

  lemma {:induction false} RunOfTwo(cfg: Config, st: State, a: Op, b: Op)
    ensures RunNode(cfg, st, [a, b]) == StepNode(cfg, StepNode(cfg, st, a), b)
  {
    assert [a][..0] == [] && RunNode(cfg, st, []) == st;
    assert RunNode(cfg, st, [a]) == StepNode(cfg, st, a);
    assert [a, b][..1] == [a];
  }

  lemma {:induction false} NewNodeHasNoCache(own: Id, timeout: nat, random: nat -> Id, server: bool, store: V.Store,
      t: Id)
    ensures var st := NewNode(own, timeout, random, server, store, 0);
            CachedNodes(st, t) == [] && !UsesCache(st, t, 0) && st.puts == map[] && st.queries == map[]
  {
  }

  /** Find the nodes near a hash and, while that lookup goes on, announce a peer for it: the put is accepted, and is
      neither started nor reported however long the node runs, until someone puts or gets values for the hash. */
  lemma {:induction false} AnnounceDuringFindNode(cfg: Config, own: Id, timeout: nat, random: nat -> Id, server: bool,
      store: V.Store, t: Id, ops: seq<Op>)
    requires forall k :: 0 <= k < |ops| ==> Spares(ops[k], t)
    ensures var st := RunNode(cfg, NewNode(own, timeout, random, server, store, 0),
        [DoGet(L.FindNode(t), 0), DoPut(Announcement(t), [], 0)]);
      Stranded(st, t) && Stranded(RunNode(cfg, st, ops), t)
  {
    var st0 := NewNode(own, timeout, random, server, store, 0);
    var st1 := GetStep(cfg, st0, L.FindNode(t), [], 0);
    RunOfTwo(cfg, st0, DoGet(L.FindNode(t), 0), DoPut(Announcement(t), [], 0));
    NewNodeHasNoCache(own, timeout, random, server, store, t);
    GetEffect(cfg, st0, L.FindNode(t), [], 0);
    GetCache(cfg, st0, L.FindNode(t), 0, t);
    PutStrandsIff(cfg, st1, Announcement(t), [], 0);
    StrandedForever(cfg, PutStep(cfg, st1, Announcement(t), [], 0).0, ops, t);
  }

  /** A get changes nothing that is cached. */
  lemma {:induction false} GetCache(cfg: Config, st: State, request: L.GetRequest, now: nat, t: Id)
    requires st.stats == NewStats()
    ensures var v := GetStep(cfg, st, request, [], now); CachedNodes(v, t) == [] && !UsesCache(v, t, now)
  {
    assert Touched(NewStats().items, request.target) == [];
  }

  // === Cached nodes without tokens ===

  /** One neighbour is known, and a lookup for nodes has asked it at time 0. */
  ghost predicate Asked(st: State, t: Id, n: Node)
  {
    && st.queries.Keys == {t} && st.puts == map[] && st.table != map[] && !TableIsEmpty(st.table)
    && st.lastRefresh == 0 && st.lastPing == 0 && st.stats == NewStats() && st.socket.timeout == 1
    && st.queries[t].closest == [n] && n.address in st.queries[t].visited && IsFindNode(st.queries[t])
    && st.queries[t].target == t && st.queries[t].votes == map[]
    && forall tid :: tid in st.socket.inflight ==> st.socket.inflight[tid].sentAt == 0
  }

  lemma {:induction false} OneIsTaken(target: Id, n: Node, expectedDk: nat, averageSubnets: nat)
    ensures AddedAll(KeyOf(target), Excludes, [], [n]) == [n]
    ensures UntilSecure(target, [n], expectedDk, averageSubnets) == [n]
  {
    assert [n][1..] == [];
    assert Added(KeyOf(target), Excludes, [], n) == [n];
  }

  lemma {:induction false} OneToVisit(q: L.Lookup, n: Node)
    requires q.closest == [n]
    ensures L.ToVisit(q) == if n.address in q.visited then [] else [n.address]
  {
    assert L.FirstNodes(q.closest) == [n] && [n][..0] == [];
    assert L.Unvisited([], q.visited) == [];
  }

  lemma {:induction false} VisitsOne(w: L.World, a: SocketAddr)
    requires w.s.inflight == map[]
    ensures var w' := L.VisitAll(w, [a], 0);
      && a in w'.q.visited && w'.s.timeout == w.s.timeout
      && w'.q == w.q.(inflight := w'.q.inflight, visited := w'.q.visited)
      && forall tid :: tid in w'.s.inflight ==> w'.s.inflight[tid].sentAt == 0
  {
    assert [a][..0] == [] && L.VisitAll(w, [], 0) == w;
  }

  lemma {:induction false} SeedsOne(own: Id, store: V.Store, random: nat -> Id, n: Node, d: nat)
    requires d == DistanceFrom(own)(n) && d > 0
    ensures var st := NewNode(own, 1, random, false, store, 0);
            SeedAll(st, [n], 0) == st.(table := map[d := [n]]) && AllNodes(map[d := [n]]) == [n]
  {
    var st := NewNode(own, 1, random, false, store, 0);
    assert [n][..0] == [] && SeedAll(st, [], 0) == st;
    AddsToNewBucket(own, map[], n, d);
    EmptyUpTo(map[d := [n]], 1, d, MAX_DISTANCE + 1);
    EmptyUpTo(map[d := [n]], d + 1, MAX_DISTANCE + 1, MAX_DISTANCE + 1);
    assert Between(map[d := [n]], d, MAX_DISTANCE + 1)
        == BucketAt(map[d := [n]], d) + Between(map[d := [n]], d + 1, MAX_DISTANCE + 1);
  }

  lemma {:induction false} StartAsksOne(cfg: Config, st: State, t: Id, n: Node)
    requires cfg.bootstrap == [] && AllNodes(st.table) == [n] && st.stats == NewStats() && st.socket.inflight == map[]
    ensures var w := StartLookup(cfg, st, L.FindNode(t), [], 0);
      && w.q.closest == [n] && n.address in w.q.visited && IsFindNode(w.q) && w.q.target == t && w.q.votes == map[]
      && w.s.timeout == st.socket.timeout && forall tid :: tid in w.s.inflight ==> w.s.inflight[tid].sentAt == 0
  {
    var near := ClosestSecure(cfg, st, t);
    OneIsTaken(t, n, (cfg.expectedDk)(RespondersEstimate(st.stats)), AverageSubnets(st.stats));
    assert near == [n] && CachedNodes(st, t) == [] && near + [] == [n];
    var w0 := L.World(L.NewLookup(st.own, t, L.FindNode(t)), st.socket);
    var calls: seq<SocketAddr> := [];
    assert calls + [] == [] && L.VisitAll(w0, [], 0) == w0;
    var q := L.WithCandidates(w0.q, [n]);
    assert q.closest == [n] && q.visited == {};
    OneToVisit(q, n);
    VisitsOne(L.World(q, w0.s), n.address);
  }

  lemma {:induction false} GetAsks(cfg: Config, st: State, t: Id, n: Node)
    requires cfg.bootstrap == [] && AllNodes(st.table) == [n] && !TableIsEmpty(st.table) && st.stats == NewStats()
    requires st.queries == map[] && st.puts == map[] && st.lastRefresh == 0 && st.lastPing == 0
    requires st.socket.inflight == map[] && st.socket.timeout == 1
    ensures Asked(GetStep(cfg, st, L.FindNode(t), [], 0), t, n)
  {
    StartAsksOne(cfg, st, t, n);
    GetStarts(cfg, st, t);
  }

  /** After seeding and asking. */
  lemma {:induction false} SeededAndAsked(cfg: Config, own: Id, store: V.Store, random: nat -> Id, t: Id, n: Node)
    requires cfg.bootstrap == [] && DistanceFrom(own)(n) > 0
    ensures var st := NewNode(own, 1, random, false, store, 0);
            Asked(RunNode(cfg, st, [DoSeed([n], 0), DoGet(L.FindNode(t), 0)]), t, n)
  {
    var st, d := NewNode(own, 1, random, false, store, 0), DistanceFrom(own)(n);
    RunOfTwo(cfg, st, DoSeed([n], 0), DoGet(L.FindNode(t), 0));
    SeedsOne(own, store, random, n, d);
    assert SeedAll(st, [n], 0).table[d] == [n];
    GetAsks(cfg, SeedAll(st, [n], 0), t, n);
  }

  lemma {:induction false} GetStarts(cfg: Config, st: State, t: Id)
    requires st.queries == map[] && st.stats == NewStats()
    ensures var w := StartLookup(cfg, st, L.FindNode(t), [], 0);
            GetStep(cfg, st, L.FindNode(t), [], 0) == st.(queries := map[t := w.q], socket := w.s)
  {
    assert Touched(NewStats().items, t) == [];
    assert ReadCache(st, t) == st;
  }

  /** A tick at time 1, when all requests have timed out and nothing has arrived. */
  function LateTick(t: Id): Input { Input(1, 1, [], [t], id => [], None, [], t) }

  /** The lookup is reported and cached with the neighbour, which has no token. */
  lemma {:induction false} TickCaches(cfg: Config, st: State, t: Id, n: Node)
    requires Asked(st, t, n)
    ensures var v := Tick(cfg, st, LateTick(t)).0; CachedNodes(v, t) == [n] && v.queries == map[] && v.puts == map[]
  {
    WalkReports(cfg, st, t, n);
    var st1 := TickGets(cfg, st, [t], 1, 1).0;
    CleanCaches(cfg, st1, t, n);
    var st2 := Cleanup(cfg, st1, [(t, [n])], [], LateTick(t).votes, 1).0;
    MaintainIdle(cfg, st2);
    assert HandleMessage(cfg, st2, LateTick(t)).0 == st2.(socket := Received(st2.socket, None, 1));
  }

  lemma {:induction false} WalkReports(cfg: Config, st: State, t: Id, n: Node)
    requires Asked(st, t, n)
    ensures TickGets(cfg, st, [t], 1, 1) == (st, [(t, [n])])
  {
    var w := L.World(st.queries[t], st.socket);
    OneToVisit(w.q, n);
    assert L.ToVisit(w.q) == [] && L.ClosestVisited(w, 1) == w;
    assert L.NoneAwaited(w.q, w.s, 1);
    assert L.FirstNodes(w.q.closest) == [n];
    assert st.queries[t := w.q] == st.queries && st.(queries := st.queries, socket := w.s) == st;
    assert TickOneGet(cfg, st, t, 1, 1) == (st, [(t, [n])]);
    assert [t][..0] == [] && TickGets(cfg, st, [], 1, 1) == (st, []);
    assert [] + [(t, [n])] == [(t, [n])];
  }

  lemma {:induction false} CleanCaches(cfg: Config, st: State, t: Id, n: Node)
    requires Asked(st, t, n)
    ensures var v := Cleanup(cfg, st, [(t, [n])], [], LateTick(t).votes, 1).0;
      && CachedNodes(v, t) == [n] && v.queries == map[] && v.puts == map[] && v.table == st.table
      && v.lastRefresh == 0 && v.lastPing == 0
  {
    var done := [(t, [n])];
    assert done[..0] == [] && CleanGets(cfg, st, [], LateTick(t).votes, 1) == (st, []);
    var q := st.queries[t];
    var entry := CacheEntry(cfg, q, [n]);
    assert entry.Some? && MadeRoom(NewStats()) == NewStats() && Find(NewStats().items, t) == None;
    FindOne(t, entry.value, t);
    assert Stored(NewStats().items, MAX_CACHED_ITERATIVE_QUERIES, t, entry.value) == [(t, entry.value)];
    assert st.queries - {t} == map[];
  }

  lemma {:induction false} MaintainIdle(cfg: Config, st: State)
    requires st.lastRefresh == 0 && st.lastPing == 0 && !TableIsEmpty(st.table)
    ensures Maintain(cfg, st, 1) == st
  {
  }

  lemma {:induction false} TokenlessStrands(cfg: Config, st: State, t: Id, n: Node)
    requires CachedNodes(st, t) == [n] && n.token.None? && n.lastSeen == 0 && st.queries == map[] && st.puts == map[]
    ensures Stranded(PutStep(cfg, st, Announcement(t), [], 1).0, t)
  {
    assert ValidToken(CachedNodes(st, t)[0], 1);
    assert CachedNodes(st, t) + [] == [n];
    PutStrandsIff(cfg, st, Announcement(t), [], 1);
  }

  /** Seed one neighbour, find the nodes near a hash, let the lookup time out, and announce a peer within five minutes:
      the cached neighbour has no token, so the put is accepted, sends nothing, and is never reported. */
  lemma {:induction false} AnnounceAtTokenless(cfg: Config, own: Id, store: V.Store, random: nat -> Id, t: Id, n: Node,
      ops: seq<Op>)
    requires cfg.bootstrap == [] && DistanceFrom(own)(n) > 0 && n.token.None? && n.lastSeen == 0
    requires forall k :: 0 <= k < |ops| ==> Spares(ops[k], t)
    ensures var st := RunNode(cfg, NewNode(own, 1, random, false, store, 0), [DoSeed([n], 0), DoGet(L.FindNode(t), 0)]);
      var v := RunNode(cfg, st, [DoTick(LateTick(t)), DoPut(Announcement(t), [], 1)]);
      Stranded(v, t) && Stranded(RunNode(cfg, v, ops), t)
  {
    var st := RunNode(cfg, NewNode(own, 1, random, false, store, 0), [DoSeed([n], 0), DoGet(L.FindNode(t), 0)]);
    var st1 := Tick(cfg, st, LateTick(t)).0;
    SeededAndAsked(cfg, own, store, random, t, n);
    TickCaches(cfg, st, t, n);
    RunOfTwo(cfg, st, DoTick(LateTick(t)), DoPut(Announcement(t), [], 1));
    TokenlessStrands(cfg, st1, t, n);
    StrandedForever(cfg, PutStep(cfg, st1, Announcement(t), [], 1).0, ops, t);
  }

  // === A put of another kind ===

  /** A mutable put is in flight; a peer is announced for the same target, and the mutable put is gone. */
  lemma {:induction false} AnnounceReplacesMutable(cfg: Config, own: Id, timeout: nat, random: nat -> Id, server: bool,
      store: V.Store, t: Id, v: seq<byte>, k: Key32, seqNo: i64, sig: Sig64)
    ensures var st0, m := NewNode(own, timeout, random, server, store, 0), PutMutable(t, v, k, seqNo, sig, None, None);
      var st1 := StepNode(cfg, st0, DoPut(m, [], 0));
      var st2 := StepNode(cfg, st1, DoPut(Announcement(t), [], 0));
      t in st1.puts && st1.puts[t].request == m && t in st2.puts && st2.puts[t].request == Announcement(t)
  {
    var st0, m := NewNode(own, timeout, random, server, store, 0), PutMutable(t, v, k, seqNo, sig, None, None);
    NewNodeHasNoCache(own, timeout, random, server, store, t);
    FreshEffect(cfg, st0, m, [], 0);
    var st1 := PutStep(cfg, st0, m, [], 0).0;
    assert Touched(NewStats().items, t) == [];
    assert !UsesCache(st1, t, 0);
    OtherPutReplaces(cfg, st1, Announcement(t), [], 0);
  }

  // === The responders count ===

  /** One find_node lookup is cached: the count is one, and no entry is anything else. */
  lemma {:induction false} FindNodeIsCounted(t: Id, nodes: seq<Node>, subnets: byte)
    ensures var st := RunCache([Cache(t, Some(Cached(nodes, 0.0, 0.0, subnets, true)))]);
            Sum(ValueQueries(), st.items) == 0.0 && st.respondersCount == 1
  {
    var ops := [Cache(t, Some(Cached(nodes, 0.0, 0.0, subnets, true)))];
    assert ops[..0] == [] && RunCache([]) == NewStats();
    SumsAreSums(ops);
    assert FindNodesCached([]) == 0;
    assert RunCache(ops).respondersCount == 1;
  }
}
