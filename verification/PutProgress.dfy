/** Which puts and lookups a step adds, ends or leaves alone, and when a put is left waiting for nothing. */
module PutProgress {
  import opened Bytes
  import opened Ids
  import opened Nodes
  import opened SortedLists
  import opened Closest
  import opened Routing
  import opened Messages
  import opened Sockets
  import opened Rpcs
  import opened RpcInvariants
  import L = Lookups
  import P = PutQueries

  // === Effects on the two maps ===

  ghost predicate ValueLookup(st: State, id: Id) { id in st.queries && !IsFindNode(st.queries[id]) }

  /** The step leaves the puts alone and starts no value lookup; lookups keep their kind. */
  ghost predicate Quiet(st: State, st': State)
  {
    && st'.puts == st.puts
    && (forall id :: ValueLookup(st', id) <==> ValueLookup(st, id))
    && (forall id :: id in st.queries ==> id in st'.queries)
    && (st.crashed ==> st'.crashed)
  }

  /** The kind of lookup a get starts. */
  lemma {:induction false} StartLookupKind(cfg: Config, st: State, request: L.GetRequest, extra: seq<SocketAddr>,
      now: nat)
    ensures IsFindNode(StartLookup(cfg, st, request, extra, now).q) <==> request.FindNode?
  {
    var near := ClosestSecure(cfg, st, request.target);
    var calls := (if near == [] || |near| < |cfg.bootstrap| then cfg.bootstrap else []) + extra;
    var w0 := L.World(L.NewLookup(st.own, request.target, request), st.socket);
    VisitKeepsRest(w0, calls, now);
    var w1 := L.VisitAll(w0, calls, now);
    var q := L.WithCandidates(w1.q, near + CachedNodes(st, request.target));
    VisitKeepsRest(L.World(q, w1.s), L.ToVisit(q), now);
  }

  lemma {:induction false} GetEffect(cfg: Config, st: State, request: L.GetRequest, extra: seq<SocketAddr>, now: nat)
    ensures var st' := GetStep(cfg, st, request, extra, now);
      && st'.puts == st.puts && st'.queries.Keys == st.queries.Keys + {request.target} && st'.crashed == st.crashed
      && (forall id :: id in st.queries ==> st'.queries[id] == st.queries[id])
      && (request.target !in st.queries ==> (IsFindNode(st'.queries[request.target]) <==> request.FindNode?))
  {
    StartLookupKind(cfg, st, request, extra, now);
  }

  lemma {:induction false} FindNodeIsQuiet(cfg: Config, st: State, target: Id, now: nat)
    ensures Quiet(st, GetStep(cfg, st, L.FindNode(target), [], now))
  {
    GetEffect(cfg, st, L.FindNode(target), [], now);
  }

  // === The parts of a tick ===

  lemma {:induction false} IdsAppend<X>(a: seq<(Id, X)>, b: seq<(Id, X)>)
    ensures IdsOf(a + b) == IdsOf(a) + IdsOf(b)
  {
    var c := a + b;
    forall id | id in IdsOf(a) ensures id in IdsOf(c) {
      var i :| 0 <= i < |a| && a[i].0 == id;
      assert c[i] == a[i];
    }
    forall id | id in IdsOf(b) ensures id in IdsOf(c) {
      var i :| 0 <= i < |b| && b[i].0 == id;
      assert c[|a| + i] == b[i];
    }
  }

  lemma {:induction false} IdsOne<X>(id: Id, x: X)
    ensures IdsOf([(id, x)]) == {id}
  {
    assert [(id, x)][0].0 == id;
  }

  /** A put is reported by its own tick only. */
  lemma {:induction false} TickPutsIds(st: State, order: seq<Id>, now: nat)
    ensures forall id :: id in IdsOf(TickPuts(st, order, now)) ==> id in st.puts && P.HasStarted(st.puts[id])
  {
    if order == [] {
      assert IdsOf(TickPuts(st, order, now)) == {};
    } else {
      var n := |order| - 1;
      TickPutsIds(st, order[..n], now);
      IdsAppend(TickPuts(st, order[..n], now), TickOnePut(st, order[n], now));
      var one := TickOnePut(st, order[n], now);
      if one != [] {
        IdsOne(order[n], one[0].1);
        assert one == [(order[n], one[0].1)];
      } else {
        assert IdsOf(one) == {};
      }
    }
  }

  /** Value lookups that are done report nodes with tokens. */
  ghost predicate DoneOk(st: State, done: DoneGets)
  {
    forall k :: 0 <= k < |done| ==> done[k].0 in st.queries && DoneAt(st, done, k)
  }

  ghost predicate DoneAt(st: State, done: DoneGets, k: nat)
    requires k < |done|
  {
    ValueLookup(st, done[k].0) ==> AllTokens(done[k].1)
  }

  lemma {:induction false} TickOneGetQuiet(cfg: Config, st: State, id: Id, now: nat, later: nat)
    ensures Quiet(st, TickOneGet(cfg, st, id, now, later).0)
    ensures TickOneGet(cfg, st, id, now, later).0.queries.Keys == st.queries.Keys
    ensures (forall j :: j in st.queries ==> AllTokens(st.queries[j].responders)) ==>
      && DoneOk(st, TickOneGet(cfg, st, id, now, later).1)
      && (forall j :: j in st.queries ==> AllTokens(TickOneGet(cfg, st, id, now, later).0.queries[j].responders))
  {
    if id in st.queries {
      var w := L.World(st.queries[id], st.socket);
      VisitKeepsRest(w, L.ToVisit(w.q), now);
    }
  }

  lemma {:induction false} TickGetsQuiet(cfg: Config, st: State, order: seq<Id>, now: nat, later: nat)
    ensures Quiet(st, TickGets(cfg, st, order, now, later).0)
    ensures TickGets(cfg, st, order, now, later).0.queries.Keys == st.queries.Keys
    ensures (forall j :: j in st.queries ==> AllTokens(st.queries[j].responders)) ==>
      && DoneOk(st, TickGets(cfg, st, order, now, later).1)
      && (forall j :: j in st.queries ==> AllTokens(TickGets(cfg, st, order, now, later).0.queries[j].responders))
  {
    if order != [] {
      var n := |order| - 1;
      TickGetsQuiet(cfg, st, order[..n], now, later);
      var v := TickGets(cfg, st, order[..n], now, later);
      TickOneGetQuiet(cfg, v.0, order[n], now, later);
      if forall j :: j in st.queries ==> AllTokens(st.queries[j].responders) {
        DoneConcat(st, v.0, v.1, TickOneGet(cfg, v.0, order[n], now, later).1);
      }
    }
  }

  lemma {:induction false} DoneConcat(st: State, v: State, a: DoneGets, b: DoneGets)
    requires Quiet(st, v) && v.queries.Keys == st.queries.Keys && DoneOk(st, a) && DoneOk(v, b)
    ensures DoneOk(st, a + b)
  {
    var c := a + b;
    forall k | 0 <= k < |c| ensures c[k].0 in st.queries && DoneAt(st, c, k) {
      if k < |a| {
        assert DoneAt(st, a, k) && c[k] == a[k];
      } else {
        assert DoneAt(v, b, k - |a|) && c[k] == b[k - |a|];
      }
    }
  }

  /** What it means for the puts that the lookup of one target leaves. */
  ghost predicate LookupLeft(st: State, st': State, id: Id, nodes: seq<Node>, failed: DonePuts)
  {
    && st'.queries == st.queries - {id} && st'.puts.Keys == st.puts.Keys && (st.crashed ==> st'.crashed)
    && (forall j :: j in st.puts && (j != id || !ValueLookup(st, id) || P.HasStarted(st.puts[id])) ==>
      st'.puts[j] == st.puts[j] && j !in IdsOf(failed))
    && IdsOf(failed) <= st.puts.Keys
    && (ValueLookup(st, id) && id in st.puts && AllTokens(nodes) && !st'.crashed ==>
      P.HasStarted(st'.puts[id]) || id in IdsOf(failed))
  }

  lemma {:induction false} CleanOneEffect(cfg: Config, st: State, id: Id, nodes: seq<Node>, order: seq<SocketAddr>,
      now: nat)
    ensures var (st', failed) := CleanOne(cfg, st, id, nodes, order, now); LookupLeft(st, st', id, nodes, failed)
  {
    assert IdsOf<Option<P.PutError>>([]) == {};
    if id in st.queries {
      var v := LookupLeaves(cfg, st, id, nodes, order, now);
      LeavesFrame(cfg, st, id, nodes, order, now);
      if id in v.puts && !IsFindNode(st.queries[id]) && !P.HasStarted(v.puts[id]) {
        WaitingLeft(st, v, id, nodes, now);
      }
    }
  }

  lemma {:induction false} LeavesFrame(cfg: Config, st: State, id: Id, nodes: seq<Node>, order: seq<SocketAddr>,
      now: nat)
    requires id in st.queries
    ensures var v := LookupLeaves(cfg, st, id, nodes, order, now);
            v.queries == st.queries - {id} && v.puts == st.puts && v.crashed == st.crashed
  {
  }

  lemma {:induction false} WaitingLeft(st: State, v: State, id: Id, nodes: seq<Node>, now: nat)
    requires ValueLookup(st, id) && v.queries == st.queries - {id} && v.puts == st.puts && v.crashed == st.crashed
    requires id in v.puts && !P.HasStarted(v.puts[id])
    ensures var (st', failed) := WaitingPutStarts(v, id, nodes, now); LookupLeft(st, st', id, nodes, failed)
  {
    WaitingEffect(v, id, nodes, now);
  }

  lemma {:induction false} WaitingEffect(st: State, id: Id, nodes: seq<Node>, now: nat)
    requires id in st.puts && !P.HasStarted(st.puts[id])
    ensures var (st', failed) := WaitingPutStarts(st, id, nodes, now);
      && st'.queries == st.queries && st'.puts.Keys == st.puts.Keys && (st.crashed ==> st'.crashed)
      && (forall j :: j in st.puts && j != id ==> st'.puts[j] == st.puts[j])
      && (failed == [] || (|failed| == 1 && failed[0].0 == id))
      && (AllTokens(nodes) && !st'.crashed ==> P.HasStarted(st'.puts[id]) || id in IdsOf(failed))
  {
    var (st', failed) := WaitingPutStarts(st, id, nodes, now);
    var w := P.World(st.puts[id], st.socket);
    if failed != [] {
      assert failed[0].0 == id;
    }
    if P.StartResultOf(st.puts[id], nodes).Started? {
      P.StartsIff(w, nodes, now, now);
      if AllTokens(nodes) {
        assert nodes[0] in nodes && nodes[0] in nodes + w.p.extraNodes;
      }
    }
  }

  lemma {:induction false} CleanGetsEffect(cfg: Config, st: State, done: DoneGets, votes: Id -> seq<SocketAddr>,
      now: nat)
    ensures var (st', failed) := CleanGets(cfg, st, done, votes, now);
      && st'.queries == st.queries - IdsOf(done) && st'.puts.Keys == st.puts.Keys && (st.crashed ==> st'.crashed)
      && (forall j :: j in st.puts && (j !in IdsOf(done) || !ValueLookup(st, j) || P.HasStarted(st.puts[j])) ==>
        st'.puts[j] == st.puts[j] && j !in IdsOf(failed))
      && IdsOf(failed) <= st.puts.Keys
  {
    if done == [] {
      assert IdsOf(done) == {};
      assert IdsOf<Option<P.PutError>>([]) == {};
    } else {
      var n := |done| - 1;
      var (v, f) := CleanGets(cfg, st, done[..n], votes, now);
      CleanGetsEffect(cfg, st, done[..n], votes, now);
      CleanOneEffect(cfg, v, done[n].0, done[n].1, votes(done[n].0), now);
      IdsAppend(f, CleanOne(cfg, v, done[n].0, done[n].1, votes(done[n].0), now).1);
      IdsLast(done);
    }
  }

  lemma {:induction false} IdsLast<X>(done: seq<(Id, X)>)
    requires done != []
    ensures IdsOf(done) == IdsOf(done[..|done| - 1]) + {done[|done| - 1].0}
  {
    var n := |done| - 1;
    assert done == done[..n] + [done[n]];
    IdsAppend(done[..n], [done[n]]);
    IdsOne(done[n].0, done[n].1);
    assert [done[n]] == [(done[n].0, done[n].1)];
  }

  lemma {:induction false} EmptyIds<X>(done: seq<(Id, X)>, id: Id)
    ensures id in IdsOf(done) ==> done != []
  {
  }

  /** A put whose value lookup is among the finished ones has started or failed once the node is cleaned up. */
  lemma {:induction false} WaitingPutResolves(cfg: Config, st: State, done: DoneGets, votes: Id -> seq<SocketAddr>,
      now: nat, id: Id)
    requires id in st.puts && !P.HasStarted(st.puts[id]) && ValueLookup(st, id) && id in IdsOf(done)
    requires forall k :: 0 <= k < |done| ==> DoneAt(st, done, k)
    ensures var (st', failed) := CleanGets(cfg, st, done, votes, now);
            !st'.crashed ==> (id in st'.puts && P.HasStarted(st'.puts[id])) || id in IdsOf(failed)
  {
    var n := |done| - 1;
    EmptyIds(done, id);
    var (v, f) := CleanGets(cfg, st, done[..n], votes, now);
    var (st', g) := CleanOne(cfg, v, done[n].0, done[n].1, votes(done[n].0), now);
    IdsLast(done);
    IdsAppend(f, g);
    CleanGetsEffect(cfg, st, done[..n], votes, now);
    CleanOneEffect(cfg, v, done[n].0, done[n].1, votes(done[n].0), now);
    if id in IdsOf(done[..n]) {
      forall k | 0 <= k < n ensures DoneAt(st, done[..n], k) {
        assert DoneAt(st, done, k);
      }
      WaitingPutResolves(cfg, st, done[..n], votes, now, id);
    } else {
      assert DoneAt(st, done, n);
    }
  }

  lemma {:induction false} MaintainQuiet(cfg: Config, st: State, now: nat)
    ensures Quiet(st, Maintain(cfg, st, now))
  {
    var refresh := Elapsed(st.lastRefresh, now) >= REFRESH_TABLE_INTERVAL;
    var st1 := if refresh && !st.firewalled then st.(socket := st.socket.(serverMode := true)) else st;
    var nodes := AllNodes(st1.table);
    var st2 := if Elapsed(st.lastPing, now) >= PING_TABLE_INTERVAL
        then PingAndPurge(st1.(lastPing := now), nodes, now) else st1;
    PurgeSame(st1.(lastPing := now), nodes, now);
    PopulateQuiet(cfg, st2, now);
  }

  lemma {:induction false} PopulateQuiet(cfg: Config, st: State, now: nat)
    ensures Quiet(st, Populate(cfg, st, now))
  {
    FindNodeIsQuiet(cfg, st.(lastRefresh := now), st.own, now);
  }

  lemma {:induction false} PurgeSame(st: State, nodes: seq<Node>, now: nat)
    ensures var v := PingAndPurge(st, nodes, now);
            v.queries == st.queries && v.puts == st.puts && v.crashed == st.crashed && v.own == st.own
  {
    if nodes != [] {
      PurgeSame(st, nodes[..|nodes| - 1], now);
    }
  }

  /** The step neither ends nor starts a put: at most it changes counters. */
  ghost predicate Steady(st: State, st': State)
  {
    && st'.puts.Keys == st.puts.Keys && (st.crashed ==> st'.crashed)
    && (forall id :: id in st.puts ==> SamePut(st.puts[id], st'.puts[id]))
    && (forall id :: ValueLookup(st', id) <==> ValueLookup(st, id))
    && (forall id :: id in st.queries ==> id in st'.queries)
  }

  ghost predicate SamePut(p: P.Put, p': P.Put) { p'.inflight == p.inflight && p'.request == p.request }

  lemma {:induction false} QuietIsSteady(st: State, st': State)
    requires Quiet(st, st')
    ensures Steady(st, st')
  {
  }

  lemma {:induction false} OnRequestSteady(cfg: Config, st: State, from: SocketAddr, r: RequestSpecific, now: nat,
      secret: seq<byte>, newId: Id)
    ensures Steady(st, OnRequest(cfg, st, from, r, now, secret, newId))
  {
    ServedSame(cfg, st, from, r, now, secret);
    SelfPingedSteady(cfg, Served(cfg, Seeded(cfg, st, from, r, now), from, r, now, secret), from, r, now, newId);
  }

  /** Only the two maps and the crash flag matter. */
  lemma {:induction false} SameMapsSteady(a: State, b: State, a': State, b': State)
    requires Steady(a, b)
    requires a'.puts == a.puts && a'.queries == a.queries && a'.crashed == a.crashed
    requires b'.puts == b.puts && b'.queries == b.queries && b'.crashed == b.crashed
    ensures Steady(a', b')
  {
    forall id ensures ValueLookup(b', id) <==> ValueLookup(a', id) {
      assert ValueLookup(b, id) <==> ValueLookup(a, id);
    }
  }

  lemma {:induction false} SelfPingedSteady(cfg: Config, st: State, from: SocketAddr, r: RequestSpecific, now: nat,
      newId: Id)
    ensures Steady(st, SelfPinged(cfg, st, from, r, now, newId))
  {
    if st.publicAddress == Some(from) && r.requestType.PingRequest? && !IsValidForIp(st.own, from.ip) {
      var st1 := st.(firewalled := false);
      var v := GetStep(cfg, st1, L.FindNode(newId), [], now);
      FindNodeIsQuiet(cfg, st1, newId, now);
      QuietIsSteady(st1, v);
      SameMapsSteady(st1, v, st, SelfPinged(cfg, st, from, r, now, newId));
    }
  }

  lemma {:induction false} PutTakesSteady(st: State, id: Id, t: MessageType)
    requires id in st.puts
    ensures Steady(st, PutTakes(st, id, t))
  {
  }

  lemma {:induction false} NotedKind(q: L.Lookup, m: Message, from: SocketAddr, now: nat)
    ensures Noted(q, m, from, now).request == q.request
  {
  }

  lemma {:induction false} QueryTakesSteady(cfg: Config, st: State, id: Id, from: SocketAddr, m: Message, now: nat)
    requires id in st.queries
    ensures Steady(st, QueryTakes(cfg, st, id, from, m, now).0)
  {
    NotedKind(st.queries[id], m, from, now);
  }

  lemma {:induction false} OnResponseSteady(cfg: Config, st: State, from: SocketAddr, m: Message, putOrder: seq<Id>,
      getOrder: seq<Id>, now: nat)
    ensures Steady(st, OnResponse(cfg, st, from, m, putOrder, getOrder, now).0)
  {
    if !m.readOnly {
      var put := OwnerOf(PutIds(st), putOrder, m.transactionId);
      var query := OwnerOf(QueryIds(st), getOrder, m.transactionId);
      if put.Some? {
        PutTakesSteady(st, put.value, m.messageType);
      } else if query.Some? {
        QueryTakesSteady(cfg, st, query.value, from, m, now);
      }
    }
  }

  lemma {:induction false} HandleMessageSteady(cfg: Config, st: State, i: Input)
    ensures Steady(st, HandleMessage(cfg, st, i).0)
  {
    if HandsOn(st.socket, i.packet, i.later) {
      var p, st1 := i.packet.value, st.(socket := Received(st.socket, i.packet, i.later));
      if p.message.messageType.Request? {
        OnRequestSteady(cfg, st1, p.from, p.message.messageType.request, i.later, i.secret, i.newId);
      } else {
        OnResponseSteady(cfg, st1, p.from, p.message, i.putOrder, i.getOrder, i.later);
      }
    }
  }

  // === Whole ticks ===

  /** The node after its done queries are cleaned up. */
  function CleanedUp(cfg: Config, st: State, i: Input): State
  {
    var (st1, doneGets) := TickGets(cfg, st, i.getOrder, i.now, i.later);
    Cleanup(cfg, st1, doneGets, TickPuts(st, i.putOrder, i.now), i.votes, i.later).0
  }

  lemma {:induction false} AfterCleanup(cfg: Config, st: State, i: Input)
    ensures Steady(CleanedUp(cfg, st, i), Tick(cfg, st, i).0)
  {
    var v := CleanedUp(cfg, st, i);
    MaintainQuiet(cfg, v, i.later);
    QuietIsSteady(v, Maintain(cfg, v, i.later));
    HandleMessageSteady(cfg, Maintain(cfg, v, i.later), i);
  }

  /** Exactly the puts and at most the lookups that a tick reports leave the node. */
  lemma {:induction false} TickKeys(cfg: Config, st: State, i: Input)
    ensures var (st', report) := Tick(cfg, st, i);
      && st'.puts.Keys == st.puts.Keys - IdsOf(report.donePuts) && IdsOf(report.donePuts) <= st.puts.Keys
      && st.queries.Keys - IdsOf(report.doneGets) <= st'.queries.Keys
      && (forall id :: id in st'.puts ==> st'.puts[id].request == st.puts[id].request)
  {
    var (st1, doneGets) := TickGets(cfg, st, i.getOrder, i.now, i.later);
    var (st2, failed) := CleanGets(cfg, st1, doneGets, i.votes, i.later);
    var donePuts := TickPuts(st, i.putOrder, i.now);
    TickGetsQuiet(cfg, st, i.getOrder, i.now, i.later);
    TickPutsIds(st, i.putOrder, i.now);
    CleanGetsEffect(cfg, st1, doneGets, i.votes, i.later);
    CleanGetsRequests(cfg, st1, doneGets, i.votes, i.later);
    IdsAppend(donePuts, failed);
    AfterCleanup(cfg, st, i);
  }

  lemma {:induction false} CleanOneRequest(cfg: Config, st: State, id: Id, nodes: seq<Node>, order: seq<SocketAddr>,
      now: nat)
    ensures var st' := CleanOne(cfg, st, id, nodes, order, now).0;
            st'.puts.Keys == st.puts.Keys && forall j :: j in st.puts ==> st'.puts[j].request == st.puts[j].request
  {
    if id in st.queries {
      LeavesFrame(cfg, st, id, nodes, order, now);
      if id in st.puts {
        WaitingRequest(LookupLeaves(cfg, st, id, nodes, order, now), id, nodes, now);
      }
    }
  }

  lemma {:induction false} WaitingRequest(st: State, id: Id, nodes: seq<Node>, now: nat)
    requires id in st.puts
    ensures var st' := WaitingPutStarts(st, id, nodes, now).0;
            st'.puts.Keys == st.puts.Keys && forall j :: j in st.puts ==> st'.puts[j].request == st.puts[j].request
  {
    SendAllReplies(P.World(st.puts[id], st.socket), nodes + st.puts[id].extraNodes, now);
  }

  lemma {:induction false} CleanGetsRequests(cfg: Config, st: State, done: DoneGets, votes: Id -> seq<SocketAddr>,
      now: nat)
    ensures var st' := CleanGets(cfg, st, done, votes, now).0;
            st'.puts.Keys == st.puts.Keys && forall j :: j in st.puts ==> st'.puts[j].request == st.puts[j].request
  {
    if done != [] {
      var n := |done| - 1;
      CleanGetsRequests(cfg, st, done[..n], votes, now);
      CleanOneRequest(cfg, CleanGets(cfg, st, done[..n], votes, now).0, done[n].0, done[n].1, votes(done[n].0), now);
    }
  }

  // === Waiting for nothing ===

  /** The put has sent nothing, and no value lookup of its target is active: what it waits for will not come. */
  ghost predicate Stranded(st: State, id: Id)
  {
    id in st.puts && !P.HasStarted(st.puts[id]) && !ValueLookup(st, id)
  }

  ghost predicate Waiting(st: State, id: Id)
  {
    id in st.puts && !P.HasStarted(st.puts[id]) && ValueLookup(st, id)
  }

  lemma {:induction false} SteadyKeeps(st: State, st': State, id: Id)
    requires Steady(st, st')
    ensures Stranded(st, id) <==> Stranded(st', id)
    ensures Waiting(st, id) <==> Waiting(st', id)
  {
    assert id in st.puts ==> SamePut(st.puts[id], st'.puts[id]);
  }

  /** No tick starts a stranded put, reports it, or brings the lookup it waits for. */
  lemma {:induction false} TickKeepsStranded(cfg: Config, st: State, i: Input, id: Id)
    requires Stranded(st, id)
    ensures Stranded(Tick(cfg, st, i).0, id) && id !in IdsOf(Tick(cfg, st, i).1.donePuts)
  {
    var (st1, doneGets) := TickGets(cfg, st, i.getOrder, i.now, i.later);
    var failed := CleanGets(cfg, st1, doneGets, i.votes, i.later).1;
    var donePuts := TickPuts(st, i.putOrder, i.now);
    TickGetsQuiet(cfg, st, i.getOrder, i.now, i.later);
    TickPutsIds(st, i.putOrder, i.now);
    CleanGetsEffect(cfg, st1, doneGets, i.votes, i.later);
    IdsAppend(donePuts, failed);
    AfterCleanup(cfg, st, i);
    SteadyKeeps(CleanedUp(cfg, st, i), Tick(cfg, st, i).0, id);
  }

  /** After the done lookups are cleaned up, a waiting put goes on waiting, has started, or has failed. */
  lemma {:induction false} CleanupResolves(cfg: Config, st: State, done: DoneGets, votes: Id -> seq<SocketAddr>,
      now: nat, id: Id)
    requires Waiting(st, id) && forall k :: 0 <= k < |done| ==> DoneAt(st, done, k)
    ensures var (st', failed) := CleanGets(cfg, st, done, votes, now);
      id in st'.puts && (st'.crashed || !Stranded(st', id) || id in IdsOf(failed))
  {
    CleanGetsEffect(cfg, st, done, votes, now);
    if id in IdsOf(done) {
      WaitingPutResolves(cfg, st, done, votes, now, id);
    }
  }

  lemma {:induction false} AllHaveTokens(st: State, now: nat)
    requires Owned(st, now)
    ensures forall j :: j in st.queries ==> AllTokens(st.queries[j].responders)
  {
    forall j | j in st.queries ensures AllTokens(st.queries[j].responders) {
      assert QueryOk(st.queries[j], j, st.socket, now);
    }
  }

  /** A put that waits for its value lookup is never stranded by a tick: it goes on waiting, has started, or is
      reported. */
  lemma {:induction false} TickKeepsWaiting(cfg: Config, st: State, i: Input, id: Id)
    requires Waiting(st, id) && Owned(st, i.now)
    ensures var (st', report) := Tick(cfg, st, i);
            !st'.crashed ==> !Stranded(st', id) && (id in st'.puts || id in IdsOf(report.donePuts))
  {
    var (st1, doneGets) := TickGets(cfg, st, i.getOrder, i.now, i.later);
    AllHaveTokens(st, i.now);
    TickGetsQuiet(cfg, st, i.getOrder, i.now, i.later);
    DoneIsDoneAfter(st, st1, doneGets);
    CleanupResolves(cfg, st1, doneGets, i.votes, i.later, id);
    IdsAppend(TickPuts(st, i.putOrder, i.now), CleanGets(cfg, st1, doneGets, i.votes, i.later).1);
    AfterCleanup(cfg, st, i);
    TickKeys(cfg, st, i);
    SteadyKeeps(CleanedUp(cfg, st, i), Tick(cfg, st, i).0, id);
  }

  lemma {:induction false} DoneIsDoneAfter(st: State, st1: State, done: DoneGets)
    requires Quiet(st, st1) && DoneOk(st, done)
    ensures forall k :: 0 <= k < |done| ==> DoneAt(st1, done, k)
  {
    forall k | 0 <= k < |done| ensures DoneAt(st1, done, k) {
      assert DoneAt(st, done, k);
    }
  }

  // === What an accepted put changes ===

  /** The put sits at its target, the others are as they were. */
  ghost predicate PutSets(st: State, st': State, target: Id, request: PutRequestSpecific, ok: bool)
  {
    && st'.puts.Keys == st.puts.Keys + (if ok then {target} else {})
    && (forall j :: j in st.puts && (j != target || !ok) ==> st'.puts[j] == st.puts[j])
    && (ok ==> st'.puts[target].request == request)
  }

  lemma {:induction false} AtCachedEffect(st: State, p: P.Put, nodes: seq<Node>, now: nat)
    requires nodes != [] && p.inflight == []
    ensures var (st', r) := PutAtCached(st, p, nodes, now);
      && !r.PutErr? && st'.queries == st.queries && PutSets(st, st', p.target, p.request, r.PutOk?)
      && (st'.crashed <==> st.crashed || r.PutCrash?)
      && (r.PutOk? ==> (P.HasStarted(st'.puts[p.target]) <==> exists n :: n in nodes + p.extraNodes && n.token.Some?))
  {
    if P.StartResultOf(p, nodes).Started? {
      P.StartsIff(P.World(p, st.socket), nodes, now, now);
      SendAllReplies(P.World(p, st.socket), nodes + p.extraNodes, now);
    }
  }

  lemma {:induction false} AfterLookupEffect(cfg: Config, st: State, p: P.Put, now: nat)
    ensures var st' := PutAfterLookup(cfg, st, p, now);
      && PutSets(st, st', p.target, p.request, true) && st'.puts[p.target] == p && st'.crashed == st.crashed
      && (forall id :: id in st.queries ==> id in st'.queries && st'.queries[id] == st.queries[id])
      && (forall id :: id in st'.queries ==> id in st.queries || id == p.target)
      && p.target in st'.queries && (p.target !in st.queries ==> !IsFindNode(st'.queries[p.target]))
  {
    GetEffect(cfg, st, L.GetValue(p.target, None, SaltOf(p.request)), [], now);
  }

  lemma {:induction false} FreshEffect(cfg: Config, st: State, request: PutRequestSpecific, extra: seq<Node>, now: nat)
    ensures var (st', r) := PutFresh(cfg, st, request, extra, now);
      && !r.PutErr? && PutSets(st, st', PutTarget(request), request, r.PutOk?)
      && (st'.crashed <==> st.crashed || r.PutCrash?)
      && (forall id :: id in st.queries ==> id in st'.queries && st'.queries[id] == st.queries[id])
      && (forall id :: id in st'.queries ==> id in st.queries || id == PutTarget(request))
  {
    var p, st1 := P.NewPut(PutTarget(request), request, extra), ReadCache(st, PutTarget(request));
    if UsesCache(st, PutTarget(request), now) {
      AtCachedEffect(st1, p, CachedNodes(st, PutTarget(request)), now);
    } else {
      AfterLookupEffect(cfg, st1, p, now);
    }
  }

  /** A put that is accepted is stranded from the start exactly when fresh cached nodes are used and no node has a
      token, or when they are not and the active lookup of the target is a find_node. */
  lemma {:induction false} PutStrandsIff(cfg: Config, st: State, request: PutRequestSpecific, extra: seq<Node>,
      now: nat)
    requires PutStep(cfg, st, request, extra, now).1.PutOk? && !ConflictOf(st, request).SameItem?
    ensures Stranded(PutStep(cfg, st, request, extra, now).0, PutTarget(request))
        <==> WillStrand(st, PutTarget(request), extra, now)
  {
    match ConflictOf(st, request) {
      case Override =>
        var v := st.(puts := st.puts - {PutTarget(request)});
        FreshStrandsIff(cfg, v, request, extra, now);
        WillStrandSame(st, v, PutTarget(request), extra, now);
      case NoConflict => FreshStrandsIff(cfg, st, request, extra, now);
      case _ =>
    }
  }

  lemma {:induction false} WillStrandSame(st: State, v: State, target: Id, extra: seq<Node>, now: nat)
    requires v.stats == st.stats && v.queries == st.queries
    ensures WillStrand(v, target, extra, now) <==> WillStrand(st, target, extra, now)
  {
    assert CachedNodes(v, target) == CachedNodes(st, target);
  }

  ghost predicate WillStrand(st: State, target: Id, extra: seq<Node>, now: nat)
  {
    if UsesCache(st, target, now)
    then !ValueLookup(st, target) && forall n :: n in CachedNodes(st, target) + extra ==> n.token.None?
    else target in st.queries && IsFindNode(st.queries[target])
  }

  lemma {:induction false} FreshStrandsIff(cfg: Config, st: State, request: PutRequestSpecific, extra: seq<Node>,
      now: nat)
    requires PutFresh(cfg, st, request, extra, now).1.PutOk?
    ensures Stranded(PutFresh(cfg, st, request, extra, now).0, PutTarget(request))
        <==> WillStrand(st, PutTarget(request), extra, now)
  {
    var target := PutTarget(request);
    var p, st1 := P.NewPut(target, request, extra), ReadCache(st, target);
    if UsesCache(st, target, now) {
      AtCachedEffect(st1, p, CachedNodes(st, target), now);
    } else {
      AfterLookupEffect(cfg, st1, p, now);
    }
  }

  /** The operation is no put on the target and no value get of it. */
  ghost predicate Spares(op: Op, id: Id)
  {
    match op
    case DoPut(request, _, _) => PutTarget(request) != id
    case DoGet(get, _) => get.target != id || get.FindNode?
    case _ => true
  }

  lemma {:induction false} PutSpares(cfg: Config, st: State, request: PutRequestSpecific, extra: seq<Node>, now: nat,
      id: Id)
    requires PutTarget(request) != id && Stranded(st, id)
    ensures Stranded(PutStep(cfg, st, request, extra, now).0, id)
  {
    match ConflictOf(st, request) {
      case Override => FreshEffect(cfg, st.(puts := st.puts - {PutTarget(request)}), request, extra, now);
      case NoConflict => FreshEffect(cfg, st, request, extra, now);
      case _ =>
    }
  }

  lemma {:induction false} OpKeepsStranded(cfg: Config, st: State, op: Op, id: Id)
    requires Stranded(st, id) && Spares(op, id)
    ensures Stranded(StepNode(cfg, st, op), id)
  {
    match op {
      case DoPut(request, extra, at) => PutSpares(cfg, st, request, extra, at, id);
      case DoGet(get, at) => GetEffect(cfg, st, get, [], at);
      case DoSeed(nodes, at) => SeedOnlyTable(st, nodes, at);
      case DoTick(input) => TickKeepsStranded(cfg, st, input, id);
    }
  }

  /** However long the node runs, a stranded put stays unstarted and unreported until someone puts or gets the same
      target again. */
  lemma {:induction false} StrandedForever(cfg: Config, st: State, ops: seq<Op>, id: Id)
    requires Stranded(st, id) && forall k :: 0 <= k < |ops| ==> Spares(ops[k], id)
    ensures Stranded(RunNode(cfg, st, ops), id)
  {
    if ops != [] {
      StrandedForever(cfg, st, ops[..|ops| - 1], id);
      OpKeepsStranded(cfg, RunNode(cfg, st, ops[..|ops| - 1]), ops[|ops| - 1], id);
    }
  }

  // === The sequence number in flight ===

  ghost predicate MutableAt(st: State, id: Id) { id in st.puts && st.puts[id].request.PutMutable? }

  /** A mutable put replaces another on its target only with a sequence number that is not lower. */
  lemma {:induction false} PutKeepsSeq(cfg: Config, st: State, request: PutRequestSpecific, extra: seq<Node>,
      now: nat, id: Id)
    requires MutableAt(st, id) && (PutTarget(request) == id ==> request.PutMutable?)
    requires MutableAt(PutStep(cfg, st, request, extra, now).0, id)
    ensures st.puts[id].request.seqNo <= PutStep(cfg, st, request, extra, now).0.puts[id].request.seqNo
  {
    match ConflictOf(st, request) {
      case Override => FreshEffect(cfg, st.(puts := st.puts - {PutTarget(request)}), request, extra, now);
      case NoConflict => FreshEffect(cfg, st, request, extra, now);
      case _ =>
    }
  }

  ghost predicate MutableThroughout(cfg: Config, st: State, ops: seq<Op>, id: Id)
  {
    && (forall k :: 0 <= k <= |ops| ==> MutableAt(RunNode(cfg, st, ops[..k]), id))
    && (forall k :: 0 <= k < |ops| ==>
      (ops[k].DoPut? && PutTarget(ops[k].request) == id ==> ops[k].request.PutMutable?))
  }

  /** In every run, as long as a target has a mutable put in flight and only mutable puts address it, the sequence
      number in flight never decreases. */
  lemma {:induction false} SeqInFlightNeverDecreases(cfg: Config, st: State, ops: seq<Op>, id: Id)
    requires MutableThroughout(cfg, st, ops, id)
    ensures MutableAt(st, id) && MutableAt(RunNode(cfg, st, ops), id)
    ensures st.puts[id].request.seqNo <= RunNode(cfg, st, ops).puts[id].request.seqNo
  {
    assert ops[..|ops|] == ops && ops[..0] == [];
    if ops != [] {
      var n := |ops| - 1;
      var before := ops[..n];
      forall k | 0 <= k <= n ensures MutableAt(RunNode(cfg, st, before[..k]), id) {
        assert before[..k] == ops[..k];
      }
      SeqInFlightNeverDecreases(cfg, st, before, id);
      OpKeepsSeq(cfg, RunNode(cfg, st, before), ops[n], id);
    }
  }

  lemma {:induction false} OpKeepsSeq(cfg: Config, st: State, op: Op, id: Id)
    requires MutableAt(st, id) && MutableAt(StepNode(cfg, st, op), id)
    requires op.DoPut? && PutTarget(op.request) == id ==> op.request.PutMutable?
    ensures st.puts[id].request.seqNo <= StepNode(cfg, st, op).puts[id].request.seqNo
  {
    match op {
      case DoPut(request, extra, at) => PutKeepsSeq(cfg, st, request, extra, at, id);
      case DoGet(get, at) => GetEffect(cfg, st, get, [], at);
      case DoSeed(nodes, at) => SeedOnlyTable(st, nodes, at);
      case DoTick(input) => TickKeys(cfg, st, input);
    }
  }

  /** A put that is no mutable put replaces a mutable put on the same target without any check. */
  lemma {:induction false} OtherPutReplaces(cfg: Config, st: State, request: PutRequestSpecific, extra: seq<Node>,
      now: nat)
    requires !request.PutMutable? && PutStep(cfg, st, request, extra, now).1.PutOk?
    ensures var st' := PutStep(cfg, st, request, extra, now).0;
            PutTarget(request) in st'.puts && st'.puts[PutTarget(request)].request == request
  {
    FreshEffect(cfg, st, request, extra, now);
  }

  /** What the caller may rely on: an accepted put is at its target; a refused one changes nothing, and after a
      crash nothing is promised. No override is refused after the old put is gone. */
  lemma {:induction false} PutKeys(cfg: Config, st: State, request: PutRequestSpecific, extra: seq<Node>, now: nat)
    ensures var (st', r) := PutStep(cfg, st, request, extra, now);
      && (r.PutOk? ==> st'.puts.Keys == st.puts.Keys + {PutTarget(request)})
      && (r.PutErr? ==> st' == st)
      && st.queries.Keys <= st'.queries.Keys
  {
    match ConflictOf(st, request) {
      case Override => FreshEffect(cfg, st.(puts := st.puts - {PutTarget(request)}), request, extra, now);
      case NoConflict => FreshEffect(cfg, st, request, extra, now);
      case _ =>
    }
  }
}
