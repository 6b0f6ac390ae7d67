/** What every step of the node keeps: each request in flight belongs to one lookup or put at most, and every
    lookup and put stays in step with the socket they share. */
module RpcInvariants {
  import opened Bytes
  import opened Ids
  import opened Nodes
  import opened SortedLists
  import opened Closest
  import opened Routing
  import opened Messages
  import opened Sockets
  import opened QueryCaches
  import opened Rpcs
  import L = Lookups
  import P = PutQueries
  import V = Servers

  // === The invariant ===

  /** The counters of the put are those of some history of replies (see PutQueries.PutOk). */
  ghost predicate Conserved(p: P.Put, s: Socket, now: nat)
  {
    exists acks: nat, errs: seq<ErrorSpecific> :: P.PutOk(P.PutRun(P.World(p, s), acks, errs), now)
  }

  ghost predicate AllTokens(ns: seq<Node>) { forall n :: n in ns ==> n.token.Some? }

  ghost predicate QueryOk(q: L.Lookup, id: Id, s: Socket, now: nat)
  {
    L.LookupOk(L.World(q, s), now) && q.target == id && AllTokens(q.responders)
  }

  ghost predicate PutQueryOk(p: P.Put, id: Id, s: Socket, now: nat)
  {
    Conserved(p, s, now) && p.target == id && PutTarget(p.request) == id
  }

  ghost predicate Disjoint(a: seq<u32>, b: seq<u32>) { forall t :: t in a ==> t !in b }

  /** No two owners share an id. */
  ghost predicate Apart(queries: map<Id, L.Lookup>, puts: map<Id, P.Put>)
  {
    && (forall i, j :: i in queries && j in queries && i != j ==> Disjoint(queries[i].inflight, queries[j].inflight))
    && (forall i, j :: i in queries && j in puts ==> Disjoint(queries[i].inflight, puts[j].inflight))
    && (forall i, j :: i in puts && j in puts && i != j ==> Disjoint(puts[i].inflight, puts[j].inflight))
  }

  ghost predicate Owned(st: State, now: nat)
  {
    && SocketOk(st.socket, now)
    && (forall id :: id in st.queries ==> QueryOk(st.queries[id], id, st.socket, now))
    && (forall id :: id in st.puts ==> PutQueryOk(st.puts[id], id, st.socket, now))
    && Apart(st.queries, st.puts)
  }

  /** The socket has only gone on. */
  ghost predicate Advances(s: Socket, s': Socket)
  {
    s.sent <= s'.sent && forall k: int :: HasReply(s, k) ==> HasReply(s', k)
  }

  /** Ids added to a list are new ids of the socket. */
  ghost predicate NewIds(ids: seq<u32>, ids': seq<u32>, n: nat) { forall t :: t in ids' ==> t in ids || t >= n }

  ghost predicate Below(ids: seq<u32>, n: nat) { forall t :: t in ids ==> t < n }

  // === One owner changes, or the socket goes on ===

  lemma {:induction false} QueryBelow(q: L.Lookup, id: Id, s: Socket, now: nat)
    requires QueryOk(q, id, s, now)
    ensures Below(q.inflight, |s.sent|)
  {
    L.OwnBelow(L.World(q, s), now);
  }

  lemma {:induction false} PutBelow(p: P.Put, s: Socket, now: nat)
    requires Conserved(p, s, now)
    ensures Below(p.inflight, |s.sent|)
  {
    var acks: nat, errs: seq<ErrorSpecific> :| P.PutOk(P.PutRun(P.World(p, s), acks, errs), now);
    forall t | t in p.inflight ensures t < |s.sent| {
      var i :| 0 <= i < |p.inflight| && p.inflight[i] == t;
      assert P.OwnId(P.World(p, s), i);
    }
  }

  lemma {:induction false} QueryAdvances(q: L.Lookup, id: Id, s: Socket, s': Socket, now: nat)
    requires QueryOk(q, id, s, now) && SocketOk(s', now) && Advances(s, s')
    ensures QueryOk(q, id, s', now)
  {
    L.OtherStepKeepsOk(L.World(q, s), s', now);
  }

  lemma {:induction false} ConservedAdvances(p: P.Put, s: Socket, s': Socket, now: nat)
    requires Conserved(p, s, now) && SocketOk(s', now) && Advances(s, s')
    ensures Conserved(p, s', now)
  {
    var acks: nat, errs: seq<ErrorSpecific> :| P.PutOk(P.PutRun(P.World(p, s), acks, errs), now);
    P.OtherSocketKeepsOk(P.PutRun(P.World(p, s), acks, errs), s', now);
    assert P.PutOk(P.PutRun(P.World(p, s'), acks, errs), now);
  }

  lemma {:induction false} SocketAdvances(st: State, s': Socket, now: nat)
    requires Owned(st, now) && SocketOk(s', now) && Advances(st.socket, s')
    ensures Owned(st.(socket := s'), now)
  {
    forall id | id in st.queries ensures QueryOk(st.queries[id], id, s', now) {
      QueryAdvances(st.queries[id], id, st.socket, s', now);
    }
    forall id | id in st.puts ensures PutQueryOk(st.puts[id], id, s', now) {
      ConservedAdvances(st.puts[id], st.socket, s', now);
    }
  }

  lemma {:induction false} NewIdsDisjoint(ids: seq<u32>, ids': seq<u32>, n: nat, other: seq<u32>)
    requires NewIds(ids, ids', n) && Disjoint(ids, other) && Below(other, n)
    ensures Disjoint(ids', other) && Disjoint(other, ids')
  {
  }

  function QueryIdsAt(st: State, id: Id): seq<u32> { if id in st.queries then st.queries[id].inflight else [] }

  function PutIdsAt(st: State, id: Id): seq<u32> { if id in st.puts then st.puts[id].inflight else [] }

  lemma {:induction false} NewQueryIdsDisjoint(st: State, id: Id, ids': seq<u32>, now: nat)
    requires Owned(st, now) && NewIds(QueryIdsAt(st, id), ids', |st.socket.sent|)
    ensures forall j :: j in st.queries && j != id ==>
      Disjoint(ids', st.queries[j].inflight) && Disjoint(st.queries[j].inflight, ids')
    ensures forall j :: j in st.puts ==> Disjoint(ids', st.puts[j].inflight)
  {
    var ids, n := QueryIdsAt(st, id), |st.socket.sent|;
    forall j | j in st.queries && j != id
      ensures Disjoint(ids', st.queries[j].inflight) && Disjoint(st.queries[j].inflight, ids')
    {
      QueryBelow(st.queries[j], j, st.socket, now);
      NewIdsDisjoint(ids, ids', n, st.queries[j].inflight);
    }
    forall j | j in st.puts ensures Disjoint(ids', st.puts[j].inflight) {
      PutBelow(st.puts[j], st.socket, now);
      NewIdsDisjoint(ids, ids', n, st.puts[j].inflight);
    }
  }

  lemma {:induction false} QueryChanges(st: State, id: Id, q': L.Lookup, s': Socket, now: nat)
    requires Owned(st, now) && SocketOk(s', now) && Advances(st.socket, s')
    requires QueryOk(q', id, s', now) && NewIds(QueryIdsAt(st, id), q'.inflight, |st.socket.sent|)
    ensures Owned(st.(queries := st.queries[id := q'], socket := s'), now)
  {
    SocketAdvances(st, s', now);
    NewQueryIdsDisjoint(st, id, q'.inflight, now);
  }

  lemma {:induction false} NewPutIdsDisjoint(st: State, id: Id, ids': seq<u32>, now: nat)
    requires Owned(st, now) && NewIds(PutIdsAt(st, id), ids', |st.socket.sent|)
    ensures forall j :: j in st.queries ==> Disjoint(st.queries[j].inflight, ids')
    ensures forall j :: j in st.puts && j != id ==>
      Disjoint(ids', st.puts[j].inflight) && Disjoint(st.puts[j].inflight, ids')
  {
    var ids, n := PutIdsAt(st, id), |st.socket.sent|;
    forall j | j in st.queries ensures Disjoint(st.queries[j].inflight, ids') {
      QueryBelow(st.queries[j], j, st.socket, now);
      NewIdsDisjoint(ids, ids', n, st.queries[j].inflight);
    }
    forall j | j in st.puts && j != id
      ensures Disjoint(ids', st.puts[j].inflight) && Disjoint(st.puts[j].inflight, ids')
    {
      PutBelow(st.puts[j], st.socket, now);
      NewIdsDisjoint(ids, ids', n, st.puts[j].inflight);
    }
  }

  lemma {:induction false} PutChanges(st: State, id: Id, p': P.Put, s': Socket, now: nat)
    requires Owned(st, now) && SocketOk(s', now) && Advances(st.socket, s')
    requires PutQueryOk(p', id, s', now) && NewIds(PutIdsAt(st, id), p'.inflight, |st.socket.sent|)
    ensures Owned(st.(puts := st.puts[id := p'], socket := s'), now)
  {
    SocketAdvances(st, s', now);
    NewPutIdsDisjoint(st, id, p'.inflight, now);
  }

  lemma {:induction false} OwnersLeave(st: State, st': State, now: nat)
    requires Owned(st, now) && st'.socket == st.socket
    requires forall id :: id in st'.queries ==> id in st.queries && st'.queries[id] == st.queries[id]
    requires forall id :: id in st'.puts ==> id in st.puts && st'.puts[id] == st.puts[id]
    ensures Owned(st', now)
  {
  }

  lemma {:induction false} LaterIsOwned(st: State, now: nat, later: nat)
    requires Owned(st, now) && now <= later
    ensures Owned(st, later)
  {
    LaterIsOk(st.socket, now, later);
    forall id | id in st.queries ensures QueryOk(st.queries[id], id, st.socket, later) {
      assert QueryOk(st.queries[id], id, st.socket, now);
    }
    forall id | id in st.puts ensures PutQueryOk(st.puts[id], id, st.socket, later) {
      var p := st.puts[id];
      assert PutQueryOk(p, id, st.socket, now);
      var acks: nat, errs: seq<ErrorSpecific> :| P.PutOk(P.PutRun(P.World(p, st.socket), acks, errs), now);
      P.LaterPutIsOk(P.PutRun(P.World(p, st.socket), acks, errs), now, later);
    }
  }

  // === Lookups ===

  lemma {:induction false} FollowsAdvances(w: L.World, w': L.World, more: set<SocketAddr>, now: nat)
    requires L.Follows(w, w', more, now)
    ensures Advances(w.s, w'.s) && NewIds(w.q.inflight, w'.q.inflight, |w.s.sent|)
  {
    forall t | t in w'.q.inflight ensures t in w.q.inflight || t >= |w.s.sent| {
      var i :| 0 <= i < |w'.q.inflight| && w'.q.inflight[i] == t;
      if i < |w.q.inflight| {
        assert w.q.inflight[i] == t;
      } else {
        assert L.SentSince(w', i, |w.s.sent|, now);
      }
    }
  }

  lemma {:induction false} TickOneGetKeeps(cfg: Config, st: State, id: Id, now: nat, later: nat)
    requires Owned(st, now) && |TickOneGet(cfg, st, id, now, later).0.socket.sent| <= TID_SPACE
    ensures Owned(TickOneGet(cfg, st, id, now, later).0, now)
  {
    if id in st.queries {
      var w := L.World(st.queries[id], st.socket);
      L.VisitAllCount(w, L.ToVisit(w.q), now);
      assert QueryOk(st.queries[id], id, st.socket, now);
      L.TickKeepsOk(w, now);
      FollowsAdvances(w, L.ClosestVisited(w, now), L.ToSet(L.ToVisit(w.q)), now);
      VisitKeepsRest(w, L.ToVisit(w.q), now);
      QueryChanges(st, id, L.ClosestVisited(w, now).q, L.ClosestVisited(w, now).s, now);
    }
  }

  /** Visiting changes only the ids and the visited set of a lookup. */
  lemma {:induction false} VisitKeepsRest(w: L.World, addresses: seq<SocketAddr>, now: nat)
    ensures var q, q' := w.q, L.VisitAll(w, addresses, now).q;
            q' == q.(inflight := q'.inflight, visited := q'.visited)
  {
    if addresses != [] {
      VisitKeepsRest(w, addresses[..|addresses| - 1], now);
    }
  }

  lemma {:induction false} TickGetsSent(cfg: Config, st: State, order: seq<Id>, now: nat, later: nat)
    ensures |st.socket.sent| <= |TickGets(cfg, st, order, now, later).0.socket.sent|
  {
    if order != [] {
      var n := |order| - 1;
      TickGetsSent(cfg, st, order[..n], now, later);
      TickOneGetSent(cfg, TickGets(cfg, st, order[..n], now, later).0, order[n], now, later);
    }
  }

  lemma {:induction false} TickOneGetSent(cfg: Config, st: State, id: Id, now: nat, later: nat)
    ensures |st.socket.sent| <= |TickOneGet(cfg, st, id, now, later).0.socket.sent|
  {
    if id in st.queries {
      var w := L.World(st.queries[id], st.socket);
      L.VisitAllCount(w, L.ToVisit(w.q), now);
    }
  }

  lemma {:induction false} TickGetsKeeps(cfg: Config, st: State, order: seq<Id>, now: nat, later: nat)
    requires Owned(st, now) && |TickGets(cfg, st, order, now, later).0.socket.sent| <= TID_SPACE
    ensures Owned(TickGets(cfg, st, order, now, later).0, now)
  {
    if order != [] {
      var n := |order| - 1;
      var v := TickGets(cfg, st, order[..n], now, later).0;
      TickOneGetSent(cfg, v, order[n], now, later);
      TickGetsKeeps(cfg, st, order[..n], now, later);
      TickOneGetKeeps(cfg, v, order[n], now, later);
    }
  }

  lemma {:induction false} StartLookupSent(cfg: Config, st: State, request: L.GetRequest, extra: seq<SocketAddr>,
      now: nat)
    ensures |st.socket.sent| <= |StartLookup(cfg, st, request, extra, now).s.sent|
  {
    var near := ClosestSecure(cfg, st, request.target);
    var calls := (if near == [] || |near| < |cfg.bootstrap| then cfg.bootstrap else []) + extra;
    var w0 := L.World(L.NewLookup(st.own, request.target, request), st.socket);
    var w := L.VisitAll(w0, calls, now);
    L.VisitAllCount(w0, calls, now);
    var q := L.WithCandidates(w.q, near + CachedNodes(st, request.target));
    L.VisitAllCount(L.World(q, w.s), L.ToVisit(q), now);
  }

  /** A lookup that has sent nothing yet is in step with any socket. */
  lemma {:induction false} NewLookupOk(q: L.Lookup, s: Socket, now: nat)
    requires SocketOk(s, now) && q.inflight == []
    ensures L.LookupOk(L.World(q, s), now)
  {
  }

  lemma {:induction false} CandidatesKeepOk(w: L.World, ns: seq<Node>, now: nat)
    requires L.LookupOk(w, now)
    ensures L.LookupOk(L.World(L.WithCandidates(w.q, ns), w.s), now)
  {
    var w' := L.World(L.WithCandidates(w.q, ns), w.s);
    forall i | 0 <= i < |w'.q.inflight| ensures L.OwnRequest(w', i) {
      assert L.OwnRequest(w, i);
    }
  }

  lemma {:induction false} StartLookupOk(cfg: Config, st: State, request: L.GetRequest, extra: seq<SocketAddr>,
      now: nat)
    requires Owned(st, now) && |StartLookup(cfg, st, request, extra, now).s.sent| <= TID_SPACE
    ensures var w := StartLookup(cfg, st, request, extra, now);
      && QueryOk(w.q, request.target, w.s, now) && SocketOk(w.s, now) && Advances(st.socket, w.s)
      && NewIds([], w.q.inflight, |st.socket.sent|)
  {
    var near := ClosestSecure(cfg, st, request.target);
    var calls := (if near == [] || |near| < |cfg.bootstrap| then cfg.bootstrap else []) + extra;
    var w0 := L.World(L.NewLookup(st.own, request.target, request), st.socket);
    var w1 := L.VisitAll(w0, calls, now);
    var w2 := L.World(L.WithCandidates(w1.q, near + CachedNodes(st, request.target)), w1.s);
    L.VisitAllCount(w0, calls, now);
    L.VisitAllCount(w2, L.ToVisit(w2.q), now);
    NewLookupOk(w0.q, w0.s, now);
    L.VisitAllKeepsOk(w0, calls, now);
    FollowsAdvances(w0, w1, L.ToSet(calls), now);
    CandidatesKeepOk(w1, near + CachedNodes(st, request.target), now);
    L.TickKeepsOk(w2, now);
    FollowsAdvances(w2, L.ClosestVisited(w2, now), L.ToSet(L.ToVisit(w2.q)), now);
    VisitKeepsRest(w0, calls, now);
    VisitKeepsRest(w2, L.ToVisit(w2.q), now);
  }

  lemma {:induction false} GetKeeps(cfg: Config, st: State, request: L.GetRequest, extra: seq<SocketAddr>, now: nat)
    requires Owned(st, now) && |GetStep(cfg, st, request, extra, now).socket.sent| <= TID_SPACE
    ensures Owned(GetStep(cfg, st, request, extra, now), now)
  {
    if request.target !in st.queries {
      var w := StartLookup(cfg, st, request, extra, now);
      StartLookupOk(cfg, st, request, extra, now);
      QueryChanges(st, request.target, w.q, w.s, now);
      OwnersLeave(st.(queries := st.queries[request.target := w.q], socket := w.s),
          GetStep(cfg, st, request, extra, now), now);
    }
  }

  lemma {:induction false} GetSent(cfg: Config, st: State, request: L.GetRequest, extra: seq<SocketAddr>, now: nat)
    ensures |st.socket.sent| <= |GetStep(cfg, st, request, extra, now).socket.sent|
  {
    StartLookupSent(cfg, st, request, extra, now);
  }

  // === Puts ===

  lemma {:induction false} SendAllReplies(w: P.World, nodes: seq<Node>, now: nat)
    ensures P.SendAll(w, nodes, now).s.replies == w.s.replies
    ensures |P.SendAll(w, nodes, now).s.sent| >= |w.s.sent| && w.s.sent <= P.SendAll(w, nodes, now).s.sent
    ensures P.SendAll(w, nodes, now).p == w.p.(inflight := P.SendAll(w, nodes, now).p.inflight)
  {
    if nodes != [] {
      SendAllReplies(w, nodes[..|nodes| - 1], now);
    }
  }

  lemma {:induction false} StartSent(w: P.World, closest: seq<Node>, now: nat)
    ensures |w.s.sent| <= |P.StartPut(w, closest, now).s.sent|
  {
    SendAllReplies(w, closest + w.p.extraNodes, now);
  }

  lemma {:induction false} StartKeeps(p: P.Put, s: Socket, closest: seq<Node>, now: nat)
    requires Conserved(p, s, now) && |P.StartPut(P.World(p, s), closest, now).s.sent| <= TID_SPACE
    ensures var w := P.StartPut(P.World(p, s), closest, now);
      && SocketOk(w.s, now) && Conserved(w.p, w.s, now) && Advances(s, w.s)
      && w.p == p.(inflight := w.p.inflight) && NewIds(p.inflight, w.p.inflight, |s.sent|)
  {
    var acks: nat, errs: seq<ErrorSpecific> :| P.PutOk(P.PutRun(P.World(p, s), acks, errs), now);
    var nodes := closest + p.extraNodes;
    if P.StartResultOf(p, closest).Started? {
      var w := P.SendAll(P.World(p, s), nodes, now);
      P.SendAllKeepsOk(P.PutRun(P.World(p, s), acks, errs), nodes, now);
      assert P.PutOk(P.PutRun(P.World(w.p, w.s), acks, errs), now);
      SendAllReplies(P.World(p, s), nodes, now);
      SentIdsAreNew(P.World(p, s), nodes, now);
    }
  }

  lemma {:induction false} SentIdsAreNew(w: P.World, nodes: seq<Node>, now: nat)
    requires SocketOk(w.s, now) && |P.SendAll(w, nodes, now).s.sent| <= TID_SPACE
    ensures NewIds(w.p.inflight, P.SendAll(w, nodes, now).p.inflight, |w.s.sent|)
    ensures P.SendAll(w, nodes, now).s.nextTid == |P.SendAll(w, nodes, now).s.sent| % TID_SPACE
  {
    if nodes != [] {
      var n := |nodes| - 1;
      SendAllReplies(w, nodes[..n], now);
      SentIdsAreNew(w, nodes[..n], now);
    }
  }

  lemma {:induction false} NewPutConserved(target: Id, request: PutRequestSpecific, extra: seq<Node>, s: Socket,
      now: nat)
    requires SocketOk(s, now)
    ensures Conserved(P.NewPut(target, request, extra), s, now)
  {
    var r := P.PutRun(P.World(P.NewPut(target, request, extra), s), 0, []);
    assert P.Replied(r.w) == {};
    assert P.PutOk(r, now);
  }

  lemma {:induction false} PutAtCachedKeeps(st: State, p: P.Put, nodes: seq<Node>, now: nat)
    requires Owned(st, now) && PutQueryOk(p, p.target, st.socket, now) && p.inflight == []
    requires |PutAtCached(st, p, nodes, now).0.socket.sent| <= TID_SPACE
    ensures Owned(PutAtCached(st, p, nodes, now).0, now)
  {
    if P.StartResultOf(p, nodes).Started? {
      var w := P.StartPut(P.World(p, st.socket), nodes, now);
      StartKeeps(p, st.socket, nodes, now);
      PutChanges(st, p.target, w.p, w.s, now);
    } else {
      OwnersLeave(st, PutAtCached(st, p, nodes, now).0, now);
    }
  }

  lemma {:induction false} PutAfterLookupKeeps(cfg: Config, st: State, p: P.Put, now: nat)
    requires Owned(st, now) && p == P.NewPut(p.target, p.request, p.extraNodes) && PutTarget(p.request) == p.target
    requires |PutAfterLookup(cfg, st, p, now).socket.sent| <= TID_SPACE
    ensures Owned(PutAfterLookup(cfg, st, p, now), now)
  {
    var g := L.GetValue(p.target, None, SaltOf(p.request));
    GetKeeps(cfg, st, g, [], now);
    var st1 := GetStep(cfg, st, g, [], now);
    NewPutConserved(p.target, p.request, p.extraNodes, st1.socket, now);
    PutChanges(st1, p.target, p, st1.socket, now);
  }

  lemma {:induction false} PutFreshKeeps(cfg: Config, st: State, request: PutRequestSpecific, extra: seq<Node>,
      now: nat)
    requires Owned(st, now) && |PutFresh(cfg, st, request, extra, now).0.socket.sent| <= TID_SPACE
    ensures Owned(PutFresh(cfg, st, request, extra, now).0, now)
  {
    var target := PutTarget(request);
    var p, st1 := P.NewPut(target, request, extra), ReadCache(st, target);
    OwnersLeave(st, st1, now);
    NewPutConserved(target, request, extra, st1.socket, now);
    if UsesCache(st, target, now) {
      PutAtCachedKeeps(st1, p, CachedNodes(st, target), now);
    } else {
      PutAfterLookupKeeps(cfg, st1, p, now);
    }
  }

  /** A put keeps the invariant, whatever it conflicts with. */
  lemma {:induction false} PutKeeps(cfg: Config, st: State, request: PutRequestSpecific, extra: seq<Node>, now: nat)
    requires Owned(st, now) && |PutStep(cfg, st, request, extra, now).0.socket.sent| <= TID_SPACE
    ensures Owned(PutStep(cfg, st, request, extra, now).0, now)
  {
    match ConflictOf(st, request) {
      case Override =>
        var st' := st.(puts := st.puts - {PutTarget(request)});
        OwnersLeave(st, st', now);
        PutFreshKeeps(cfg, st', request, extra, now);
      case NoConflict => PutFreshKeeps(cfg, st, request, extra, now);
      case _ =>
    }
  }

  lemma {:induction false} PutFreshSent(cfg: Config, st: State, request: PutRequestSpecific, extra: seq<Node>, now: nat)
    ensures |st.socket.sent| <= |PutFresh(cfg, st, request, extra, now).0.socket.sent|
  {
    var target := PutTarget(request);
    var p, st1 := P.NewPut(target, request, extra), ReadCache(st, target);
    if UsesCache(st, target, now) {
      StartSent(P.World(p, st1.socket), CachedNodes(st, target), now);
    } else {
      PutAfterLookupSent(cfg, st1, p, now);
    }
  }

  lemma {:induction false} PutAfterLookupSent(cfg: Config, st: State, p: P.Put, now: nat)
    ensures |st.socket.sent| <= |PutAfterLookup(cfg, st, p, now).socket.sent|
  {
    GetSent(cfg, st, L.GetValue(p.target, None, SaltOf(p.request)), [], now);
  }

  lemma {:induction false} PutSent(cfg: Config, st: State, request: PutRequestSpecific, extra: seq<Node>, now: nat)
    ensures |st.socket.sent| <= |PutStep(cfg, st, request, extra, now).0.socket.sent|
  {
    match ConflictOf(st, request) {
      case Override => PutFreshSent(cfg, st.(puts := st.puts - {PutTarget(request)}), request, extra, now);
      case NoConflict => PutFreshSent(cfg, st, request, extra, now);
      case _ =>
    }
  }

  // === Cleaning up ===

  lemma {:induction false} PingKeeps(st: State, to: SocketAddr, now: nat)
    requires Owned(st, now) && |PingTo(st, to, now).socket.sent| <= TID_SPACE
    ensures Owned(PingTo(st, to, now), now)
  {
    SentKeepsOk(st.socket, to, RequestSpecific(st.own, PingRequest), now);
    assert PingTo(st, to, now).socket.replies == st.socket.replies;
    SocketAdvances(st, PingTo(st, to, now).socket, now);
  }

  lemma {:induction false} UpdateAddressKeeps(st: State, best: Option<SocketAddr>, now: nat)
    requires Owned(st, now) && |UpdateAddress(st, best, now).socket.sent| <= TID_SPACE
    ensures Owned(UpdateAddress(st, best, now), now)
  {
    if best.Some? && st.publicAddress != best {
      var st1 := st.(firewalled := true);
      OwnersLeave(st, st1, now);
      PingKeeps(st1, best.value, now);
      OwnersLeave(PingTo(st1, best.value, now), UpdateAddress(st, best, now), now);
    } else {
      OwnersLeave(st, UpdateAddress(st, best, now), now);
    }
  }

  lemma {:induction false} LeavesKeeps(cfg: Config, st: State, id: Id, nodes: seq<Node>, order: seq<SocketAddr>,
      now: nat)
    requires id in st.queries && Owned(st, now)
        && |LookupLeaves(cfg, st, id, nodes, order, now).socket.sent| <= TID_SPACE
    ensures Owned(LookupLeaves(cfg, st, id, nodes, order, now), now)
  {
    var st0 := st.(queries := st.queries - {id});
    var best := BestAddress(st.queries[id].votes, order);
    OwnersLeave(st, st0, now);
    UpdateAddressKeeps(st0, best, now);
    OwnersLeave(UpdateAddress(st0, best, now), LookupLeaves(cfg, st, id, nodes, order, now), now);
  }

  lemma {:induction false} WaitingKeeps(st: State, id: Id, nodes: seq<Node>, now: nat)
    requires id in st.puts && Owned(st, now) && |WaitingPutStarts(st, id, nodes, now).0.socket.sent| <= TID_SPACE
    ensures Owned(WaitingPutStarts(st, id, nodes, now).0, now)
  {
    if P.StartResultOf(st.puts[id], nodes).Started? {
      var w := P.StartPut(P.World(st.puts[id], st.socket), nodes, now);
      assert PutQueryOk(st.puts[id], id, st.socket, now);
      StartKeeps(st.puts[id], st.socket, nodes, now);
      PutChanges(st, id, w.p, w.s, now);
    } else {
      OwnersLeave(st, WaitingPutStarts(st, id, nodes, now).0, now);
    }
  }

  lemma {:induction false} WaitingSent(st: State, id: Id, nodes: seq<Node>, now: nat)
    requires id in st.puts
    ensures |st.socket.sent| <= |WaitingPutStarts(st, id, nodes, now).0.socket.sent|
  {
    StartSent(P.World(st.puts[id], st.socket), nodes, now);
  }

  lemma {:induction false} LeavesSent(cfg: Config, st: State, id: Id, nodes: seq<Node>, order: seq<SocketAddr>,
      now: nat)
    requires id in st.queries
    ensures |st.socket.sent| <= |LookupLeaves(cfg, st, id, nodes, order, now).socket.sent|
  {
  }

  lemma {:induction false} CleanOneKeeps(cfg: Config, st: State, id: Id, nodes: seq<Node>, order: seq<SocketAddr>,
      now: nat)
    requires Owned(st, now) && |CleanOne(cfg, st, id, nodes, order, now).0.socket.sent| <= TID_SPACE
    ensures Owned(CleanOne(cfg, st, id, nodes, order, now).0, now)
  {
    if id in st.queries {
      var v := LookupLeaves(cfg, st, id, nodes, order, now);
      if IsFindNode(st.queries[id]) || id !in v.puts || P.HasStarted(v.puts[id]) {
        LeavesKeeps(cfg, st, id, nodes, order, now);
      } else {
        WaitingSent(v, id, nodes, now);
        LeavesKeeps(cfg, st, id, nodes, order, now);
        WaitingKeeps(v, id, nodes, now);
      }
    }
  }

  lemma {:induction false} CleanOneSent(cfg: Config, st: State, id: Id, nodes: seq<Node>, order: seq<SocketAddr>,
      now: nat)
    ensures |st.socket.sent| <= |CleanOne(cfg, st, id, nodes, order, now).0.socket.sent|
  {
    if id in st.queries {
      var v := LookupLeaves(cfg, st, id, nodes, order, now);
      LeavesSent(cfg, st, id, nodes, order, now);
      if id in v.puts {
        WaitingSent(v, id, nodes, now);
      }
    }
  }

  lemma {:induction false} CleanGetsSent(cfg: Config, st: State, done: DoneGets, votes: Id -> seq<SocketAddr>, now: nat)
    ensures |st.socket.sent| <= |CleanGets(cfg, st, done, votes, now).0.socket.sent|
  {
    if done != [] {
      var n := |done| - 1;
      CleanGetsSent(cfg, st, done[..n], votes, now);
      CleanOneSent(cfg, CleanGets(cfg, st, done[..n], votes, now).0, done[n].0, done[n].1, votes(done[n].0), now);
    }
  }

  lemma {:induction false} CleanGetsKeeps(cfg: Config, st: State, done: DoneGets, votes: Id -> seq<SocketAddr>,
      now: nat)
    requires Owned(st, now) && |CleanGets(cfg, st, done, votes, now).0.socket.sent| <= TID_SPACE
    ensures Owned(CleanGets(cfg, st, done, votes, now).0, now)
  {
    if done != [] {
      var n := |done| - 1;
      var v := CleanGets(cfg, st, done[..n], votes, now).0;
      CleanOneSent(cfg, v, done[n].0, done[n].1, votes(done[n].0), now);
      CleanGetsKeeps(cfg, st, done[..n], votes, now);
      CleanOneKeeps(cfg, v, done[n].0, done[n].1, votes(done[n].0), now);
    }
  }

  lemma {:induction false} CleanupKeeps(cfg: Config, st: State, doneGets: DoneGets, donePuts: DonePuts,
      votes: Id -> seq<SocketAddr>, now: nat)
    requires Owned(st, now) && |Cleanup(cfg, st, doneGets, donePuts, votes, now).0.socket.sent| <= TID_SPACE
    ensures Owned(Cleanup(cfg, st, doneGets, donePuts, votes, now).0, now)
    ensures |st.socket.sent| <= |Cleanup(cfg, st, doneGets, donePuts, votes, now).0.socket.sent|
  {
    CleanGetsSent(cfg, st, doneGets, votes, now);
    CleanGetsKeeps(cfg, st, doneGets, votes, now);
    OwnersLeave(CleanGets(cfg, st, doneGets, votes, now).0, Cleanup(cfg, st, doneGets, donePuts, votes, now).0, now);
  }

  // === Maintenance ===

  lemma {:induction false} PurgeSent(st: State, nodes: seq<Node>, now: nat)
    ensures |st.socket.sent| <= |PingAndPurge(st, nodes, now).socket.sent|
    ensures PingAndPurge(st, nodes, now).queries == st.queries && PingAndPurge(st, nodes, now).puts == st.puts
  {
    if nodes != [] {
      PurgeSent(st, nodes[..|nodes| - 1], now);
    }
  }

  lemma {:induction false} PurgeKeeps(st: State, nodes: seq<Node>, now: nat)
    requires Owned(st, now) && |PingAndPurge(st, nodes, now).socket.sent| <= TID_SPACE
    ensures Owned(PingAndPurge(st, nodes, now), now)
  {
    if nodes != [] {
      var n := |nodes| - 1;
      var v := PingAndPurge(st, nodes[..n], now);
      PurgeKeeps(st, nodes[..n], now);
      if IsStale(nodes[n], now) {
        OwnersLeave(v, PingAndPurge(st, nodes, now), now);
      } else if ShouldPing(nodes[n], now) {
        PingKeeps(v, nodes[n].address, now);
      }
    }
  }

  lemma {:induction false} PopulateKeeps(cfg: Config, st: State, now: nat)
    requires Owned(st, now) && |Populate(cfg, st, now).socket.sent| <= TID_SPACE
    ensures Owned(Populate(cfg, st, now), now)
  {
    var st1 := st.(lastRefresh := now);
    OwnersLeave(st, st1, now);
    if cfg.bootstrap != [] {
      GetKeeps(cfg, st1, L.FindNode(st.own), [], now);
    }
  }

  lemma {:induction false} PopulateSent(cfg: Config, st: State, now: nat)
    ensures |st.socket.sent| <= |Populate(cfg, st, now).socket.sent|
  {
    GetSent(cfg, st.(lastRefresh := now), L.FindNode(st.own), [], now);
  }

  lemma {:induction false} ServerModeKeeps(st: State, now: nat)
    requires Owned(st, now)
    ensures Owned(st.(socket := st.socket.(serverMode := true)), now)
  {
    var s' := st.socket.(serverMode := true);
    forall k | 0 <= k < |s'.sent| ensures SentAt(s', now, k) && Settled(s', now, k) {
      assert SentAt(st.socket, now, k) && Settled(st.socket, now, k);
      assert HasReply(s', k) <==> HasReply(st.socket, k);
    }
    forall t | t in s'.inflight ensures InflightIsSent(s', t) {
      assert InflightIsSent(st.socket, t);
      assert HasReply(s', t) <==> HasReply(st.socket, t);
    }
    forall i | 0 <= i < |s'.replies| ensures ReplyIsTimely(s', i) {
      assert ReplyIsTimely(st.socket, i);
    }
    SocketAdvances(st, s', now);
  }

  lemma {:induction false} MaintainKeeps(cfg: Config, st: State, now: nat)
    requires Owned(st, now) && |Maintain(cfg, st, now).socket.sent| <= TID_SPACE
    ensures Owned(Maintain(cfg, st, now), now)
  {
    var refresh := Elapsed(st.lastRefresh, now) >= REFRESH_TABLE_INTERVAL;
    var st1 := if refresh && !st.firewalled then st.(socket := st.socket.(serverMode := true)) else st;
    ServerModeKeeps(st, now);
    var st1' := st1.(lastPing := now);
    OwnersLeave(st1, st1', now);
    var st2 := if Elapsed(st.lastPing, now) >= PING_TABLE_INTERVAL then PingAndPurge(st1', AllNodes(st1.table), now)
        else st1;
    PopulateSent(cfg, st2, now);
    if Elapsed(st.lastPing, now) >= PING_TABLE_INTERVAL {
      PurgeKeeps(st1', AllNodes(st1.table), now);
    }
    if TableIsEmpty(st.table) || refresh {
      PopulateKeeps(cfg, st2, now);
    }
  }

  lemma {:induction false} MaintainSent(cfg: Config, st: State, now: nat)
    ensures |st.socket.sent| <= |Maintain(cfg, st, now).socket.sent|
  {
    var refresh := Elapsed(st.lastRefresh, now) >= REFRESH_TABLE_INTERVAL;
    var st1 := if refresh && !st.firewalled then st.(socket := st.socket.(serverMode := true)) else st;
    var st2 := if Elapsed(st.lastPing, now) >= PING_TABLE_INTERVAL
        then PingAndPurge(st1.(lastPing := now), AllNodes(st1.table), now) else st1;
    PurgeSent(st1.(lastPing := now), AllNodes(st1.table), now);
    PopulateSent(cfg, st2, now);
  }

  // === One packet ===

  /** A put takes a reply to one of its requests. */
  lemma {:induction false} PutTakesReply(st: State, id: Id, packet: Packet, now: nat)
    requires Owned(st, now) && id in st.puts && packet.message.transactionId in st.puts[id].inflight
    requires HandsOn(st.socket, Some(packet), now) && !packet.message.messageType.Request? && !packet.message.readOnly
    ensures Conserved(PutReply(st.puts[id], packet.message.messageType), Received(st.socket, Some(packet), now), now)
  {
    var p, s := st.puts[id], st.socket;
    assert PutQueryOk(p, id, s, now);
    var acks: nat, errs: seq<ErrorSpecific> :| P.PutOk(P.PutRun(P.World(p, s), acks, errs), now);
    var r := P.PutRun(P.World(p, s), acks, errs);
    P.ArriveKeepsOk(r, Some(packet), now);
    var r' := P.Step(r, P.Event(now, P.Arrive(Some(packet))));
    StepIsReply(r, packet, now);
    assert P.PutOk(P.PutRun(P.World(r'.w.p, r'.w.s), r'.acks, r'.errs), now);
  }

  lemma {:induction false} StepIsReply(r: P.PutRun, packet: Packet, now: nat)
    requires P.IsFor(r.w, Some(packet), now)
    ensures var r' := P.Step(r, P.Event(now, P.Arrive(Some(packet))));
            r'.w.p == PutReply(r.w.p, packet.message.messageType) && r'.w.s == Received(r.w.s, Some(packet), now)
  {
    match packet.message.messageType {
      case Response(PingResponse(_)) =>
      case Response(other) =>
      case Error(e) =>
      case Request(_) =>
    }
  }

  lemma {:induction false} ReceivedAdvances(s: Socket, p: Option<Packet>, now: nat)
    requires SocketOk(s, now)
    ensures SocketOk(Received(s, p, now), now) && Advances(s, Received(s, p, now))
  {
    ReceivedKeepsOk(s, p, now);
    if HandsOn(s, p, now) && !p.value.message.messageType.Request? {
      HandedOnIsNew(s, p.value, now);
    } else {
      NoNewReply(s, p, now);
    }
  }

  /** Noting a response leaves the requests of a lookup alone, and its responders have tokens. */
  lemma {:induction false} NotedKeeps(q: L.Lookup, m: Message, from: SocketAddr, now: nat)
    requires AllTokens(q.responders)
    ensures var q' := Noted(q, m, from, now);
      && q'.inflight == q.inflight && q'.visited == q.visited && q'.target == q.target && q'.request == q.request
      && AllTokens(q'.responders)
  {
    if TokenOf(m).Some? {
      L.AddedMembers(KeyOf(q.target), Excludes, q.responders,
          Node(TokenOf(m).value.0, from, Some(TokenOf(m).value.1), now));
    }
  }

  lemma {:induction false} SameRequestsOk(q: L.Lookup, q': L.Lookup, id: Id, s: Socket, now: nat)
    requires QueryOk(q, id, s, now) && q'.inflight == q.inflight && q'.visited == q.visited && q'.target == q.target
    requires AllTokens(q'.responders)
    ensures QueryOk(q', id, s, now)
  {
    forall i | 0 <= i < |q'.inflight| ensures L.OwnRequest(L.World(q', s), i) {
      assert L.OwnRequest(L.World(q, s), i);
    }
  }

  lemma {:induction false} SelfPingedKeeps(cfg: Config, st: State, from: SocketAddr, r: RequestSpecific, now: nat,
      newId: Id)
    requires Owned(st, now) && |SelfPinged(cfg, st, from, r, now, newId).socket.sent| <= TID_SPACE
    ensures Owned(SelfPinged(cfg, st, from, r, now, newId), now)
  {
    var st1 := st.(firewalled := false);
    OwnersLeave(st, st1, now);
    if st.publicAddress == Some(from) && r.requestType.PingRequest? && !IsValidForIp(st.own, from.ip) {
      GetKeeps(cfg, st1, L.FindNode(newId), [], now);
      OwnersLeave(GetStep(cfg, st1, L.FindNode(newId), [], now), SelfPinged(cfg, st, from, r, now, newId), now);
    }
  }

  lemma {:induction false} SelfPingedSent(cfg: Config, st: State, from: SocketAddr, r: RequestSpecific, now: nat,
      newId: Id)
    ensures |st.socket.sent| <= |SelfPinged(cfg, st, from, r, now, newId).socket.sent|
  {
    GetSent(cfg, st.(firewalled := false), L.FindNode(newId), [], now);
  }

  /** Serving a request touches neither the socket nor the queries. */
  lemma {:induction false} ServedSame(cfg: Config, st: State, from: SocketAddr, r: RequestSpecific, now: nat,
      secret: seq<byte>)
    ensures var v := Served(cfg, Seeded(cfg, st, from, r, now), from, r, now, secret);
            v.socket == st.socket && v.queries == st.queries && v.puts == st.puts && v.crashed == st.crashed
  {
  }

  lemma {:induction false} OnRequestKeeps(cfg: Config, st: State, from: SocketAddr, r: RequestSpecific, now: nat,
      secret: seq<byte>, newId: Id)
    requires Owned(st, now) && |OnRequest(cfg, st, from, r, now, secret, newId).socket.sent| <= TID_SPACE
    ensures Owned(OnRequest(cfg, st, from, r, now, secret, newId), now)
  {
    ServedSame(cfg, st, from, r, now, secret);
    var v := Served(cfg, Seeded(cfg, st, from, r, now), from, r, now, secret);
    OwnersLeave(st, v, now);
    SelfPingedKeeps(cfg, v, from, r, now, newId);
  }

  lemma {:induction false} PutTakesKeeps(st: State, id: Id, packet: Packet, now: nat)
    requires Owned(st, now) && id in st.puts && packet.message.transactionId in st.puts[id].inflight
    requires HandsOn(st.socket, Some(packet), now) && !packet.message.messageType.Request? && !packet.message.readOnly
    ensures Owned(PutTakes(st.(socket := Received(st.socket, Some(packet), now)), id, packet.message.messageType), now)
  {
    ReceivedAdvances(st.socket, Some(packet), now);
    PutTakesReply(st, id, packet, now);
    assert PutQueryOk(st.puts[id], id, st.socket, now);
    PutChanges(st, id, PutReply(st.puts[id], packet.message.messageType), Received(st.socket, Some(packet), now), now);
  }

  /** One lookup changes without touching its requests. */
  lemma {:induction false} QueryReplaced(st: State, st': State, id: Id, q': L.Lookup, now: nat)
    requires Owned(st, now) && id in st.queries && QueryOk(q', id, st.socket, now)
    requires q'.inflight == st.queries[id].inflight
    requires st'.socket == st.socket && st'.puts == st.puts && st'.queries == st.queries[id := q']
    ensures Owned(st', now)
  {
    QueryChanges(st, id, q', st.socket, now);
    OwnersLeave(st.(queries := st.queries[id := q'], socket := st.socket), st', now);
  }

  /** Taking a response changes one lookup and adds at most its sender to the table. */
  lemma {:induction false} QueryTakesIs(cfg: Config, st: State, id: Id, from: SocketAddr, m: Message, now: nat)
    requires id in st.queries
    ensures var v := QueryTakes(cfg, st, id, from, m, now).0;
      && id in v.queries && v == st.(queries := st.queries[id := v.queries[id]], table := v.table)
      && (v.table == st.table || (AuthorId(m).Some?
        && v.table == TableAdd(st.own, st.table, Node(AuthorId(m).value, from, None, now), now).0))
  {
    var q := Noted(st.queries[id], m, from, now);
    match ValueOf(cfg, q, m.messageType) {
      case Some(v) =>
      case None =>
        var st1 := st.(queries := st.queries[id := q]);
        assert WithNode(st1, AuthorId(m), from, now) == st1.(table := WithNode(st1, AuthorId(m), from, now).table);
    }
  }

  /** What a lookup is after a response. */
  lemma {:induction false} QueryTakesShape(cfg: Config, st: State, id: Id, from: SocketAddr, m: Message, now: nat)
    requires id in st.queries && AllTokens(st.queries[id].responders)
    ensures var q, st' := st.queries[id], QueryTakes(cfg, st, id, from, m, now).0;
      && st'.socket == st.socket && st'.puts == st.puts
      && id in st'.queries && st'.queries == st.queries[id := st'.queries[id]]
      && st'.queries[id].inflight == q.inflight && st'.queries[id].visited == q.visited
      && st'.queries[id].target == q.target && AllTokens(st'.queries[id].responders)
  {
    NotedKeeps(st.queries[id], m, from, now);
  }

  lemma {:induction false} QueryTakesKeeps(cfg: Config, st: State, id: Id, from: SocketAddr, m: Message, now: nat)
    requires Owned(st, now) && id in st.queries
    ensures Owned(QueryTakes(cfg, st, id, from, m, now).0, now)
  {
    var q, st' := st.queries[id], QueryTakes(cfg, st, id, from, m, now).0;
    assert QueryOk(q, id, st.socket, now);
    QueryTakesShape(cfg, st, id, from, m, now);
    SameRequestsOk(q, st'.queries[id], id, st.socket, now);
    QueryReplaced(st, st', id, st'.queries[id], now);
  }

  lemma {:induction false} OnResponseKeeps(cfg: Config, st: State, packet: Packet, putOrder: seq<Id>,
      getOrder: seq<Id>, now: nat)
    requires Owned(st, now) && HandsOn(st.socket, Some(packet), now) && !packet.message.messageType.Request?
    ensures var st1 := st.(socket := Received(st.socket, Some(packet), now));
            Owned(OnResponse(cfg, st1, packet.from, packet.message, putOrder, getOrder, now).0, now)
  {
    var s', m := Received(st.socket, Some(packet), now), packet.message;
    var st1 := st.(socket := s');
    ReceivedAdvances(st.socket, Some(packet), now);
    SocketAdvances(st, s', now);
    if !m.readOnly {
      var put := OwnerOf(PutIds(st1), putOrder, m.transactionId);
      var query := OwnerOf(QueryIds(st1), getOrder, m.transactionId);
      if put.Some? {
        PutTakesKeeps(st, put.value, packet, now);
      } else if query.Some? {
        QueryTakesKeeps(cfg, st1, query.value, packet.from, m, now);
      }
    }
  }

  lemma {:induction false} HandleMessageKeeps(cfg: Config, st: State, i: Input)
    requires Owned(st, i.later) && |HandleMessage(cfg, st, i).0.socket.sent| <= TID_SPACE
    ensures Owned(HandleMessage(cfg, st, i).0, i.later)
  {
    ReceivedAdvances(st.socket, i.packet, i.later);
    SocketAdvances(st, Received(st.socket, i.packet, i.later), i.later);
    if HandsOn(st.socket, i.packet, i.later) {
      var p := i.packet.value;
      if p.message.messageType.Request? {
        OnRequestKeeps(cfg, st.(socket := Received(st.socket, i.packet, i.later)), p.from,
            p.message.messageType.request, i.later, i.secret, i.newId);
      } else {
        OnResponseKeeps(cfg, st, p, i.putOrder, i.getOrder, i.later);
      }
    }
  }

  lemma {:induction false} HandleMessageSent(cfg: Config, st: State, i: Input)
    ensures |st.socket.sent| <= |HandleMessage(cfg, st, i).0.socket.sent|
  {
    if HandsOn(st.socket, i.packet, i.later) && i.packet.value.message.messageType.Request? {
      OnRequestSent(cfg, st.(socket := Received(st.socket, i.packet, i.later)), i.packet.value.from,
          i.packet.value.message.messageType.request, i.later, i.secret, i.newId);
    }
  }

  lemma {:induction false} OnRequestSent(cfg: Config, st: State, from: SocketAddr, r: RequestSpecific, now: nat,
      secret: seq<byte>, newId: Id)
    ensures |st.socket.sent| <= |OnRequest(cfg, st, from, r, now, secret, newId).socket.sent|
  {
    ServedSame(cfg, st, from, r, now, secret);
    SelfPingedSent(cfg, Served(cfg, Seeded(cfg, st, from, r, now), from, r, now, secret), from, r, now, newId);
  }

  // === Ticks and runs ===

  lemma {:induction false} TickKeeps(cfg: Config, st: State, i: Input)
    requires Owned(st, i.now) && i.now <= i.later && |Tick(cfg, st, i).0.socket.sent| <= TID_SPACE
    ensures Owned(Tick(cfg, st, i).0, i.later)
  {
    var donePuts := TickPuts(st, i.putOrder, i.now);
    var (st1, doneGets) := TickGets(cfg, st, i.getOrder, i.now, i.later);
    var st2 := Cleanup(cfg, st1, doneGets, donePuts, i.votes, i.later).0;
    var st3 := Maintain(cfg, st2, i.later);
    CleanGetsSent(cfg, st1, doneGets, i.votes, i.later);
    MaintainSent(cfg, st2, i.later);
    HandleMessageSent(cfg, st3, i);
    TickGetsKeeps(cfg, st, i.getOrder, i.now, i.later);
    LaterIsOwned(st1, i.now, i.later);
    CleanupKeeps(cfg, st1, doneGets, donePuts, i.votes, i.later);
    MaintainKeeps(cfg, st2, i.later);
    HandleMessageKeeps(cfg, st3, i);
  }

  lemma {:induction false} TickSent(cfg: Config, st: State, i: Input)
    ensures |st.socket.sent| <= |Tick(cfg, st, i).0.socket.sent|
  {
    var donePuts := TickPuts(st, i.putOrder, i.now);
    var (st1, doneGets) := TickGets(cfg, st, i.getOrder, i.now, i.later);
    var st2 := Cleanup(cfg, st1, doneGets, donePuts, i.votes, i.later).0;
    TickGetsSent(cfg, st, i.getOrder, i.now, i.later);
    CleanGetsSent(cfg, st1, doneGets, i.votes, i.later);
    MaintainSent(cfg, st2, i.later);
    HandleMessageSent(cfg, Maintain(cfg, st2, i.later), i);
  }

  /** What the actor does to the node. */
  datatype Op =
    | DoPut(request: PutRequestSpecific, extra: seq<Node>, at: nat)
    | DoGet(get: L.GetRequest, at: nat)
    | DoSeed(nodes: seq<Node>, at: nat)
    | DoTick(input: Input)

  function Begins(op: Op): nat { if op.DoTick? then op.input.now else op.at }

  function Ends(op: Op): nat { if op.DoTick? then op.input.later else op.at }

  function StepNode(cfg: Config, st: State, op: Op): State
  {
    match op
    case DoPut(request, extra, at) => PutStep(cfg, st, request, extra, at).0
    case DoGet(get, at) => GetStep(cfg, st, get, [], at)
    case DoSeed(nodes, at) => SeedAll(st, nodes, at)
    case DoTick(input) => Tick(cfg, st, input).0
  }

  function RunNode(cfg: Config, st: State, ops: seq<Op>): State
  {
    if ops == [] then st else StepNode(cfg, RunNode(cfg, st, ops[..|ops| - 1]), ops[|ops| - 1])
  }

  function EndOf(ops: seq<Op>, start: nat): nat { if ops == [] then start else Ends(ops[|ops| - 1]) }

  ghost predicate InTime(ops: seq<Op>, start: nat)
  {
    ops != [] ==>
      var n := |ops| - 1;
      InTime(ops[..n], start) && EndOf(ops[..n], start) <= Begins(ops[n]) <= Ends(ops[n])
  }

  lemma {:induction false} SeedOnlyTable(st: State, nodes: seq<Node>, now: nat)
    ensures var v := SeedAll(st, nodes, now); v == st.(table := v.table)
  {
    if nodes != [] {
      SeedOnlyTable(st, nodes[..|nodes| - 1], now);
    }
  }

  lemma {:induction false} StepNodeSent(cfg: Config, st: State, op: Op)
    ensures |st.socket.sent| <= |StepNode(cfg, st, op).socket.sent|
  {
    match op {
      case DoPut(request, extra, at) => PutSent(cfg, st, request, extra, at);
      case DoGet(get, at) => GetSent(cfg, st, get, [], at);
      case DoSeed(nodes, at) => SeedOnlyTable(st, nodes, at);
      case DoTick(input) => TickSent(cfg, st, input);
    }
  }

  lemma {:induction false} StepNodeKeeps(cfg: Config, st: State, op: Op)
    requires Owned(st, Begins(op)) && Begins(op) <= Ends(op) && |StepNode(cfg, st, op).socket.sent| <= TID_SPACE
    ensures Owned(StepNode(cfg, st, op), Ends(op))
  {
    match op {
      case DoPut(request, extra, at) => PutKeeps(cfg, st, request, extra, at);
      case DoGet(get, at) => GetKeeps(cfg, st, get, [], at);
      case DoSeed(nodes, at) =>
        SeedOnlyTable(st, nodes, at);
        OwnersLeave(st.(socket := st.socket), SeedAll(st, nodes, at), at);
      case DoTick(input) => TickKeeps(cfg, st, input);
    }
  }

  /** In every run of a node with fewer than 2^32 requests: live lookups and puts own pairwise disjoint ids, each
      lookup and each put is in step with the socket, and no put counts more replies than it sent requests. */
  lemma {:induction false} NodeRunOwned(cfg: Config, st: State, ops: seq<Op>, start: nat)
    requires Owned(st, start) && InTime(ops, start) && |RunNode(cfg, st, ops).socket.sent| <= TID_SPACE
    ensures Owned(RunNode(cfg, st, ops), EndOf(ops, start))
  {
    if ops != [] {
      var n := |ops| - 1;
      var v := RunNode(cfg, st, ops[..n]);
      StepNodeSent(cfg, v, ops[n]);
      NodeRunOwned(cfg, st, ops[..n], start);
      LaterIsOwned(v, EndOf(ops[..n], start), Begins(ops[n]));
      StepNodeKeeps(cfg, v, ops[n]);
    }
  }

  /** A node that has just been made, over a socket that has just been made. */
  function NewNode(own: Id, timeout: nat, random: nat -> Id, serverMode: bool, store: V.Store, now: nat): State
  {
    State(own, map[], NewSocket(timeout, random, serverMode, now), map[], map[], NewStats(), None, true, now, now,
      store, false)
  }

  lemma {:induction false} NewNodeOwned(own: Id, timeout: nat, random: nat -> Id, serverMode: bool, store: V.Store,
      now: nat)
    ensures Owned(NewNode(own, timeout, random, serverMode, store, now), now)
  {
  }

  /** The consequence for any live put of the run. */
  lemma {:induction false} PutsConserved(cfg: Config, st: State, ops: seq<Op>, start: nat, id: Id)
    requires Owned(st, start) && InTime(ops, start) && |RunNode(cfg, st, ops).socket.sent| <= TID_SPACE
    requires id in RunNode(cfg, st, ops).puts
    ensures var p := RunNode(cfg, st, ops).puts[id]; p.storedAt as int + P.Sum(p.errors) <= |p.inflight|
  {
    var v := RunNode(cfg, st, ops);
    NodeRunOwned(cfg, st, ops, start);
    assert PutQueryOk(v.puts[id], id, v.socket, EndOf(ops, start));
    var acks: nat, errs: seq<ErrorSpecific> :| P.PutOk(P.PutRun(P.World(v.puts[id], v.socket), acks, errs),
        EndOf(ops, start));
    P.OkIsBalanced(P.PutRun(P.World(v.puts[id], v.socket), acks, errs), EndOf(ops, start));
  }
}
