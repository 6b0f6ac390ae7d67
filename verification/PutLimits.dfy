/** Puts on which the verdict of rust/mainline/src/rpc/put_query.rs is not what its documentation or its 8-bit
    counters promise, each from a new socket on. */
module PutLimits {
  import opened Bytes
  import opened Ids
  import opened Nodes
  import opened Messages
  import opened Sockets
  import opened PutQueries

  /** Storage nodes at different addresses. */
  function StorageNode(i: nat): Node
  {
    Node(seq(20, _ => 0), SocketAddr(Ipv4(10, 0, i / 256 % 256, i % 256), 6881), Some([1]), 0)
  }

  function StorageNodes(from: nat, n: nat): (r: seq<Node>)
    ensures |r| == n && forall i :: 0 <= i < n ==> r[i] == StorageNode(from + i)
  {
    seq(n, i requires 0 <= i < n => StorageNode(from + i))
  }

  function FirstPut(): PutRequestSpecific
  {
    PutMutable(seq(20, _ => 0), [], seq(32, _ => 0), 1, seq(64, _ => 0), None, None)
  }

  /** The put has been started at n nodes and m extra nodes, over a new socket. */
  function StartedAt(n: nat, m: nat, timeout: nat, random: nat -> Id): PutRun
  {
    var w := World(NewPut(PutTarget(FirstPut()), FirstPut(), StorageNodes(n, m)), NewSocket(timeout, random, false, 0));
    Step(PutRun(w, 0, []), Event(0, StartAct(StorageNodes(0, n))))
  }

  /** Every node has been sent one request, and none has replied. */
  ghost predicate AllAsked(r: PutRun, n: nat)
  {
    && PutOk(r, 0) && r.acks == 0 && r.errs == [] && r.w.p.request == FirstPut()
    && |r.w.s.sent| == |r.w.p.inflight| == n && r.w.s.replies == []
    && forall t :: 0 <= t < n ==> AskedAt(r, t)
  }

  ghost predicate AskedAt(r: PutRun, t: nat)
    requires t < |r.w.s.sent| && t < |r.w.p.inflight|
  {
    r.w.s.sent[t].to == StorageNode(t).address && r.w.s.sent[t].at == 0 && r.w.p.inflight[t] == t
  }

  lemma {:induction false} TokenedAppend(nodes: seq<Node>, n: Node, all: seq<Node>)
    requires n.token.Some? && all == nodes + [n]
    ensures Tokened(all) == Tokened(nodes) + [n]
  {
    assert all[..|nodes|] == nodes;
  }

  lemma {:induction false} AllHaveTokens(nodes: seq<Node>)
    requires forall i :: 0 <= i < |nodes| ==> nodes[i].token.Some?
    ensures Tokened(nodes) == nodes
  {
    if nodes != [] {
      var n := |nodes| - 1;
      AllHaveTokens(nodes[..n]);
      TokenedAppend(nodes[..n], nodes[n], nodes);
    }
  }

  lemma {:induction false} SentToAll(w: World, n: nat)
    requires PutOk(PutRun(w, 0, []), 0) && w.s.sent == [] && w.p.inflight == [] && n <= 510
    ensures var w' := SendAll(w, StorageNodes(0, n), 0);
      && PutOk(PutRun(w', 0, []), 0) && |w'.s.sent| == |w'.p.inflight| == n && w'.p.request == w.p.request
      && forall t :: 0 <= t < n ==> AskedAt(PutRun(w', 0, []), t)
  {
    var w' := SendAll(w, StorageNodes(0, n), 0);
    AllHaveTokens(StorageNodes(0, n));
    SendsToTokened(w, StorageNodes(0, n), 0);
    SendAllKeepsOk(PutRun(w, 0, []), StorageNodes(0, n), 0);
    forall t | 0 <= t < n ensures AskedAt(PutRun(w', 0, []), t) {
      assert StoresAt(w', StorageNodes(0, n), 0, 0, t, 0);
      assert SentAt(w'.s, 0, t);
    }
  }

  lemma {:induction false} StartAsksAll(n: nat, m: nat, timeout: nat, random: nat -> Id)
    requires 0 < n <= 255 && m <= 255
    ensures StartedAt(n, m, timeout, random).w.s.timeout == timeout && AllAsked(StartedAt(n, m, timeout, random), n + m)
  {
    var w := World(NewPut(PutTarget(FirstPut()), FirstPut(), StorageNodes(n, m)), NewSocket(timeout, random, false, 0));
    assert StorageNodes(0, n) + StorageNodes(n, m) == StorageNodes(0, n + m);
    assert Replied(w) == {};
    SentToAll(w, n + m);
    SendKeepsTimeout(w, StorageNodes(0, n + m), 0);
    var r := StartedAt(n, m, timeout, random);
    assert r.w == SendAll(w, StorageNodes(0, n + m), 0);
    forall t | 0 <= t < n + m ensures AskedAt(r, t) {
      assert AskedAt(PutRun(r.w, 0, []), t);
    }
  }

  lemma {:induction false} SendKeepsTimeout(w: World, nodes: seq<Node>, now: nat)
    ensures SendAll(w, nodes, now).s.timeout == w.s.timeout && SendAll(w, nodes, now).s.replies == w.s.replies
  {
    if nodes != [] {
      SendKeepsTimeout(w, nodes[..|nodes| - 1], now);
    }
  }

  function ReplyOf(t: u32, m: MessageType): Packet
  {
    Packet(Message(t, None, None, m, false), StorageNode(t).address)
  }

  /** The first reply of a node, at once, is taken. */
  lemma {:induction false} ReplyTaken(r: PutRun, n: nat, t: u32, m: MessageType)
    requires PutOk(r, 0) && t < n && |r.w.s.sent| == |r.w.p.inflight| == n && AskedAt(r, t)
    requires r.w.s.timeout > 0 && !HasReply(r.w.s, t) && !m.Request?
    ensures var r' := Step(r, Event(0, Arrive(Some(ReplyOf(t, m)))));
      && IsFor(r.w, Some(ReplyOf(t, m)), 0) && PutOk(r', 0)
      && r'.w.p.inflight == r.w.p.inflight && r'.w.s.sent == r.w.s.sent && r'.w.s.timeout == r.w.s.timeout
      && r'.w.p.request == r.w.p.request
      && (forall k: int :: HasReply(r'.w.s, k) <==> HasReply(r.w.s, k) || k == t)
      && r'.acks == r.acks + (if m.Response? && m.response.PingResponse? then 1 else 0)
      && r'.errs == r.errs + (if m.Error? then [m.error] else [])
  {
    AwaitedIff(r.w.s, 0, 0, t);
    assert InflightIsSent(r.w.s, t);
    assert r.w.p.inflight[t] == t;
    assert IsFor(r.w, Some(ReplyOf(t, m)), 0);
    ArriveKeepsOk(r, Some(ReplyOf(t, m)), 0);
    HandedOnIsNew(r.w.s, ReplyOf(t, m), 0);
  }

  /** The first node has answered with an error. */
  function Refused(n: nat, m: nat, code: i32, timeout: nat, random: nat -> Id): PutRun
  {
    Step(StartedAt(n, m, timeout, random), Event(0, Arrive(Some(ReplyOf(0, Error(ErrorSpecific(code, [])))))))
  }

  /** One node of n has answered, with an error, and no time has passed. */
  ghost predicate OneRefusal(r: PutRun, n: nat, code: i32)
  {
    && PutOk(r, 0) && r.acks == 0 && r.errs == [ErrorSpecific(code, [])] && r.w.p.request == FirstPut()
    && |r.w.s.sent| == |r.w.p.inflight| == n && r.w.s.timeout > 0
    && (forall k: int :: HasReply(r.w.s, k) <==> k == 0)
    && (forall t :: 0 <= t < n ==> AskedAt(r, t))
  }

  lemma {:induction false} RefusedIs(n: nat, m: nat, code: i32, timeout: nat, random: nat -> Id)
    requires 0 < n <= 255 && m <= 255 && timeout > 0
    ensures OneRefusal(Refused(n, m, code, timeout, random), n + m, code)
  {
    var r0, r := StartedAt(n, m, timeout, random), Refused(n, m, code, timeout, random);
    StartAsksAll(n, m, timeout, random);
    assert AskedAt(r0, 0);
    ReplyTaken(r0, n + m, 0, Error(ErrorSpecific(code, [])));
    forall t | 0 <= t < n + m ensures AskedAt(r, t) {
      assert AskedAt(r0, t);
    }
  }

  lemma {:induction false} OneCode(e: ErrorSpecific)
    ensures NoOverflow([e]) && Leader([e]) == Some(e.code) && CountCode([e], e.code) == 1
  {
    assert [e][..0] == [];
  }

  // === An error of another kind is reported as a timeout ===

  lemma {:induction false} RefusalEnds(r: PutRun, code: i32)
    requires OneRefusal(r, 1, code) && code != 301 && code != 302
    ensures TickPut(r.w.p, r.w.s, 0) == Failed(Timeout)
  {
    assert AskedAt(r, 0);
    assert AllOver(r.w, 0);
    OneCode(ErrorSpecific(code, []));
    FinalFailure(r, 0, 0);
  }

  /** One node is asked, it answers "Bad token", and the put is reported to have timed out at once. */
  lemma {:induction false} OtherErrorIsTimeout(timeout: nat, random: nat -> Id)
    requires timeout > 0
    ensures var r := Refused(1, 0, 203, timeout, random);
            r.errs == [ErrorSpecific(203, [])] && TickPut(r.w.p, r.w.s, 0) == Failed(Timeout)
  {
    RefusedIs(1, 0, 203, timeout, random);
    RefusalEnds(Refused(1, 0, 203, timeout, random), 203);
  }

  // === Two errors, in either order ===

  /** Of two codes that come once each the first decides. */
  lemma {:induction false} OrderDecides()
    ensures var a, b := ErrorSpecific(301, []), ErrorSpecific(404, []);
            Leader([a, b]) == Some(301) && Leader([b, a]) == Some(404)
  {
    var a, b := ErrorSpecific(301, []), ErrorSpecific(404, []);
    OneCode(a);
    OneCode(b);
    CountCodeAppend([a], b);
    CountCodeAppend([b], a);
    assert [a] + [b] == [a, b] && [b] + [a] == [b, a];
    assert [a, b][..1] == [a] && [b, a][..1] == [b];
    assert [a][..0] == [] && [b][..0] == [];
  }

  // === One rejection among 510 requests is taken for a majority ===

  lemma {:induction false} RefusalRejects(r: PutRun)
    requires OneRefusal(r, 510, 301)
    ensures !AllOver(r.w, 0) && TickPut(r.w.p, r.w.s, 0) == Failed(CasFailed)
  {
    assert AskedAt(r, 1);
    assert !Over(r.w, 1, 0);
    OneCode(ErrorSpecific(301, []));
    EarlyRejectionIff(r, 0, 0);
  }

  lemma {:induction false} OneOf510Rejects(timeout: nat, random: nat -> Id)
    requires timeout > 0
    ensures var r := Refused(255, 255, 301, timeout, random);
      && |r.w.p.inflight| == 510 && r.errs == [ErrorSpecific(301, [])] && !AllOver(r.w, 0)
      && TickPut(r.w.p, r.w.s, 0) == Failed(CasFailed)
  {
    RefusedIs(255, 255, 301, timeout, random);
    RefusalRejects(Refused(255, 255, 301, timeout, random));
  }

  // === 256 acknowledgements count as none ===

  function Acked(r: PutRun, k: nat): PutRun
    requires k < TID_SPACE
  {
    if k == 0 then r
    else Step(Acked(r, k - 1), Event(0, Arrive(Some(ReplyOf(k - 1, Response(PingResponse(seq(20, _ => 0))))))))
  }

  /** The first k nodes have acknowledged. */
  ghost predicate AckedBy(r: PutRun, r': PutRun, k: nat)
  {
    && PutOk(r', 0) && r'.acks == k && r'.errs == []
    && r'.w.p.inflight == r.w.p.inflight && r'.w.s.sent == r.w.s.sent && r'.w.s.timeout == r.w.s.timeout
    && forall t: int :: HasReply(r'.w.s, t) <==> 0 <= t < k
  }

  lemma {:induction false} OneAckMore(r: PutRun, r': PutRun, n: nat, k: nat)
    requires AllAsked(r, n) && r.w.s.timeout > 0 && k < n < TID_SPACE && AckedBy(r, r', k)
    ensures AckedBy(r, Step(r', Event(0, Arrive(Some(ReplyOf(k, Response(PingResponse(seq(20, _ => 0)))))))), k + 1)
  {
    assert AskedAt(r, k);
    assert AskedAt(r', k);
    ReplyTaken(r', n, k, Response(PingResponse(seq(20, _ => 0))));
  }

  lemma {:induction false} AcksAreTaken(r: PutRun, n: nat, k: nat)
    requires AllAsked(r, n) && r.w.s.timeout > 0 && k <= n < TID_SPACE
    ensures AckedBy(r, Acked(r, k), k)
  {
    if k > 0 {
      AcksAreTaken(r, n, k - 1);
      OneAckMore(r, Acked(r, k - 1), n, k - 1);
    } else {
      NoneAcked(r, n);
    }
  }

  lemma {:induction false} NoneAcked(r: PutRun, n: nat)
    requires AllAsked(r, n)
    ensures AckedBy(r, r, 0)
  {
  }

  /** All of 256 nodes store the value, and the put fails. */
  lemma {:induction false} All256StoreAndFail(timeout: nat, random: nat -> Id)
    requires timeout > 0
    ensures var r := Acked(StartedAt(255, 1, timeout, random), 256);
      && r.acks == |r.w.p.inflight| == 256 && TickPut(r.w.p, r.w.s, 0) == Failed(Timeout)
  {
    var r0 := StartedAt(255, 1, timeout, random);
    StartAsksAll(255, 1, timeout, random);
    AcksAreTaken(r0, 256, 256);
    var r := Acked(r0, 256);
    forall i | 0 <= i < 256 ensures r.w.p.inflight[i] < |r.w.s.sent| && Over(r.w, i, 0) {
      assert AskedAt(r0, i);
    }
    FinalFailure(r, 0, 0);
  }
}
