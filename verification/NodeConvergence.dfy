/** Lookups inside a node: what it means for each lookup that a tick reports (rust/mainline/src/rpc.rs,
    `tick_get_queries`). */
module NodeConvergence {
  import opened Bytes
  import opened Ids
  import opened Nodes
  import opened Messages
  import opened Sockets
  import opened Rpcs
  import opened RpcInvariants
  import L = Lookups

  /** A lookup with nothing left to send: each of its first 20 entries has a visited address, and each of its requests
      got its reply or timed out. */
  ghost predicate Converged(st: State, id: Id, later: nat)
  {
    id in st.queries &&
    var w := L.World(st.queries[id], st.socket);
    && (forall n :: n in L.FirstNodes(w.q.closest) ==> n.address in w.q.visited)
    && (forall k :: 0 <= k < |w.q.inflight| ==> L.OwnRequest(w, k) && L.Over(w, k, later))
  }

  ghost predicate EachOnce(order: seq<Id>) { forall i, j :: 0 <= i < j < |order| ==> order[i] != order[j] }

  lemma {:induction false} OneConverged(cfg: Config, st: State, id: Id, now: nat, later: nat)
    requires Owned(st, now) && now <= later && later - now < st.socket.timeout
    requires |TickOneGet(cfg, st, id, now, later).0.socket.sent| <= TID_SPACE
    requires TickOneGet(cfg, st, id, now, later).1 != []
    ensures TickOneGet(cfg, st, id, now, later).1[0].0 == id && Converged(st, id, later)
  {
    var w := L.World(st.queries[id], st.socket);
    assert QueryOk(w.q, id, w.s, now);
    L.VisitAllCount(w, L.ToVisit(w.q), now);
    L.DoneMeansConverged(w, now, later);
  }

  /** The socket has sent more, but taken no reply. */
  ghost predicate SendsOnly(s: Socket, s': Socket)
  {
    s'.replies == s.replies && s.sent <= s'.sent && s'.timeout == s.timeout
  }

  lemma {:induction false} VisitSendsOnly(w: L.World, addresses: seq<SocketAddr>, now: nat)
    ensures SendsOnly(w.s, L.VisitAll(w, addresses, now).s)
  {
    if addresses != [] {
      VisitSendsOnly(w, addresses[..|addresses| - 1], now);
    }
  }

  /** A walk leaves the lookups it has not come to alone. */
  lemma {:induction false} WalkLeaves(cfg: Config, st: State, order: seq<Id>, now: nat, later: nat)
    ensures var v := TickGets(cfg, st, order, now, later).0;
      && SendsOnly(st.socket, v.socket) && v.queries.Keys == st.queries.Keys
      && forall id :: id in st.queries && id !in order ==> v.queries[id] == st.queries[id]
  {
    if order != [] {
      var n := |order| - 1;
      var v := TickGets(cfg, st, order[..n], now, later).0;
      WalkLeaves(cfg, st, order[..n], now, later);
      assert order == order[..n] + [order[n]];
      if order[n] in v.queries {
        var w := L.World(v.queries[order[n]], v.socket);
        VisitSendsOnly(w, L.ToVisit(w.q), now);
      }
    }
  }

  /** What has converged later in the walk had converged before it. */
  lemma {:induction false} ConvergedBefore(st: State, v: State, id: Id, now: nat, later: nat)
    requires Owned(st, now) && SendsOnly(st.socket, v.socket) && id in st.queries && id in v.queries
    requires v.queries[id] == st.queries[id] && Converged(v, id, later)
    ensures Converged(st, id, later)
  {
    var w, w' := L.World(st.queries[id], st.socket), L.World(v.queries[id], v.socket);
    assert QueryOk(w.q, id, w.s, now);
    L.OwnBelow(w, now);
    forall k | 0 <= k < |w.q.inflight| ensures L.OwnRequest(w, k) && L.Over(w, k, later) {
      assert w.q.inflight[k] in w.q.inflight;
      assert L.OwnRequest(w, k);
      assert L.Over(w', k, later);
    }
  }

  lemma {:induction false} WalkReportsConverged(cfg: Config, st: State, order: seq<Id>, now: nat, later: nat)
    requires Owned(st, now) && EachOnce(order) && now <= later && later - now < st.socket.timeout
    requires |TickGets(cfg, st, order, now, later).0.socket.sent| <= TID_SPACE
    ensures var done := TickGets(cfg, st, order, now, later).1;
            forall k :: 0 <= k < |done| ==> Converged(st, done[k].0, later)
  {
    if order != [] {
      var n := |order| - 1;
      var (v, done) := TickGets(cfg, st, order[..n], now, later);
      TickOneGetSent(cfg, v, order[n], now, later);
      WalkReportsConverged(cfg, st, order[..n], now, later);
      WalkLeaves(cfg, st, order[..n], now, later);
      TickGetsKeeps(cfg, st, order[..n], now, later);
      if TickOneGet(cfg, v, order[n], now, later).1 != [] {
        OneConverged(cfg, v, order[n], now, later);
        ConvergedBefore(st, v, order[n], now, later);
      }
    }
  }

  lemma {:induction false} WalkWithinTick(cfg: Config, st: State, i: Input)
    ensures |TickGets(cfg, st, i.getOrder, i.now, i.later).0.socket.sent| <= |Tick(cfg, st, i).0.socket.sent|
  {
    var (st1, doneGets) := TickGets(cfg, st, i.getOrder, i.now, i.later);
    var st2 := Cleanup(cfg, st1, doneGets, TickPuts(st, i.putOrder, i.now), i.votes, i.later).0;
    CleanGetsSent(cfg, st1, doneGets, i.votes, i.later);
    MaintainSent(cfg, st2, i.later);
    HandleMessageSent(cfg, Maintain(cfg, st2, i.later), i);
  }

  /** In every run of a node each lookup that a tick reports, when the tick is shorter than the timeout, had nothing
      left to send, and nothing it ever sent is awaited. */
  lemma {:induction false} ReportedLookupsConverged(cfg: Config, st: State, ops: seq<Op>, start: nat, i: Input)
    requires Owned(st, start) && RpcInvariants.InTime(ops, start) && EndOf(ops, start) <= i.now <= i.later
    requires EachOnce(i.getOrder) && i.later - i.now < RunNode(cfg, st, ops).socket.timeout
    requires |Tick(cfg, RunNode(cfg, st, ops), i).0.socket.sent| <= TID_SPACE
    ensures var v := RunNode(cfg, st, ops);
      var done := Tick(cfg, v, i).1.doneGets;
      forall k :: 0 <= k < |done| ==> Converged(v, done[k].0, i.later)
  {
    var v := RunNode(cfg, st, ops);
    TickSent(cfg, v, i);
    NodeRunOwned(cfg, st, ops, start);
    LaterIsOwned(v, EndOf(ops, start), i.now);
    WalkWithinTick(cfg, v, i);
    WalkReportsConverged(cfg, v, i.getOrder, i.now, i.later);
  }
}
