/** Requests in flight and the KRPC socket (rust/mainline/src/rpc/socket/inflight_requests.rs and
    rust/mainline/src/rpc/socket.rs). The clock is an argument; the network is what arrives. */
module Sockets {
  import opened Bytes
  import opened Ids
  import opened Messages
  import opened Nodes

  const TID_SPACE := 0x1_0000_0000
  const INFLIGHT_CLEANUP_INTERVAL := 200

  datatype InflightRequest = InflightRequest(to: SocketAddr, sentAt: nat)

  type Inflight = map<u32, InflightRequest>

  predicate DoesMatch(to: SocketAddr, from: SocketAddr)
  {
    to.port == from.port && (to.ip == Ipv4(0, 0, 0, 0) || to.ip == from.ip)
  }

  /** `contains`. */
  predicate Awaited(rs: Inflight, timeout: nat, tid: u32, now: nat)
  {
    tid in rs && Elapsed(rs[tid].sentAt, now) < timeout
  }

  /** When `remove` returns the request. */
  predicate Accepts(rs: Inflight, timeout: nat, tid: u32, from: SocketAddr, now: nat)
  {
    Awaited(rs, timeout, tid, now) && DoesMatch(rs[tid].to, from)
  }

  /** What `remove` leaves: an expired request goes too, one from another address stays. */
  function Removed(rs: Inflight, timeout: nat, tid: u32, from: SocketAddr, now: nat): Inflight
  {
    if tid in rs && (!Awaited(rs, timeout, tid, now) || DoesMatch(rs[tid].to, from)) then rs - {tid} else rs
  }

  /** What `cleanup` leaves: requests sent after `now - timeout`. */
  function Retained(rs: Inflight, timeout: nat, now: nat): Inflight
  {
    map t | t in rs && rs[t].sentAt > now - timeout :: rs[t]
  }

  class InflightRequests {
    const timeout: nat
    var requests: Inflight

    constructor (timeout: nat)
      ensures this.timeout == timeout && requests == map[]
    {
      this.timeout := timeout;
      requests := map[];
    }

    method Add(tid: u32, to: SocketAddr, now: nat)
      modifies this
      ensures requests == old(requests)[tid := InflightRequest(to, now)]
    {
      requests := requests[tid := InflightRequest(to, now)];
    }

    predicate Contains(tid: u32, now: nat)
      reads this
      ensures Contains(tid, now) <==> Awaited(requests, timeout, tid, now)
    {
      if tid in requests then Elapsed(requests[tid].sentAt, now) < timeout else false
    }

    method Remove(tid: u32, from: SocketAddr, now: nat) returns (r: Option<InflightRequest>)
      modifies this
      ensures requests == Removed(old(requests), timeout, tid, from, now)
      ensures r == if Accepts(old(requests), timeout, tid, from, now) then Some(old(requests)[tid]) else None
    {
      if tid !in requests {
        return None;
      }
      var request := requests[tid];
      if Elapsed(request.sentAt, now) >= timeout {
        requests := requests - {tid};
        return None;
      }
      if !DoesMatch(request.to, from) {
        return None;
      }
      requests := requests - {tid};
      return Some(request);
    }

    method Cleanup(now: nat)
      modifies this
      ensures requests == Retained(old(requests), timeout, now)
    {
      requests := map t | t in requests && requests[t].sentAt > now - timeout :: requests[t];
    }
  }

  // === The socket as a value, with its history ===

  /** A request handed to the UDP socket. */
  datatype Datagram = Datagram(tid: u32, to: SocketAddr, at: nat, request: RequestSpecific)

  /** A response or error handed on to the caller. */
  datatype Reply = Reply(tid: u32, from: SocketAddr, at: nat)

  datatype Packet = Packet(message: Message, from: SocketAddr)

  /** `sent` and `replies` only record; `random` gives the random id drawn for the nth request. */
  datatype Socket = Socket(timeout: nat, random: nat -> Id, serverMode: bool, nextTid: u32, inflight: Inflight,
                           lastCleanup: nat, sent: seq<Datagram>, replies: seq<Reply>)

  function NewSocket(timeout: nat, random: nat -> Id, serverMode: bool, now: nat): Socket
  {
    Socket(timeout, random, serverMode, 0, map[], now, [], [])
  }

  function Sent(s: Socket, to: SocketAddr, request: RequestSpecific, now: nat): Socket
  {
    s.(nextTid := (s.nextTid + 1) % TID_SPACE,
       inflight := s.inflight[s.nextTid := InflightRequest(to, now)],
       sent := s.sent + [Datagram(s.nextTid, to, now, request)])
  }

  function RandomId(s: Socket): Id { (s.random)(|s.sent|) }

  predicate CleanupDue(s: Socket, now: nat) { Elapsed(s.lastCleanup, now) > INFLIGHT_CLEANUP_INTERVAL }

  function Cleaned(s: Socket, now: nat): Socket
  {
    if CleanupDue(s, now) then s.(inflight := Retained(s.inflight, s.timeout, now), lastCleanup := now) else s
  }

  /** A response or an error arrives. */
  function Answered(s: Socket, tid: u32, from: SocketAddr, now: nat): Socket
  {
    s.(inflight := Removed(s.inflight, s.timeout, tid, from, now),
       replies := if Accepts(s.inflight, s.timeout, tid, from, now) then s.replies + [Reply(tid, from, now)]
           else s.replies)
  }

  /** `recv_from` with what the UDP socket gives it, and whether the packet is handed on. */
  function Received(s: Socket, p: Option<Packet>, now: nat): Socket
  {
    var c := Cleaned(s, now);
    if p.None? || p.value.from.port == 0 || p.value.message.messageType.Request? then c
    else Answered(c, p.value.message.transactionId, p.value.from, now)
  }

  predicate HandsOn(s: Socket, p: Option<Packet>, now: nat)
  {
    p.Some? && p.value.from.port != 0 &&
    (p.value.message.messageType.Request?
     || Accepts(Cleaned(s, now).inflight, s.timeout, p.value.message.transactionId, p.value.from, now))
  }

  class KrpcSocket {
    const random: nat -> Id
    const inflightRequests: InflightRequests
    var serverMode: bool
    var nextTid: u32
    var lastCleanup: nat
    var sent: seq<Datagram>
    ghost var replies: seq<Reply>

    constructor (timeout: nat, random: nat -> Id, serverMode: bool, now: nat)
      ensures Value() == NewSocket(timeout, random, serverMode, now) && fresh(inflightRequests)
    {
      this.random, this.serverMode := random, serverMode;
      inflightRequests := new InflightRequests(timeout);
      nextTid, lastCleanup, sent, replies := 0, now, [], [];
    }

    ghost function Value(): Socket
      reads this, inflightRequests
    {
      Socket(inflightRequests.timeout, random, serverMode, nextTid, inflightRequests.requests, lastCleanup, sent,
          replies)
    }

    predicate Inflight(tid: u32, now: nat)
      reads this, inflightRequests
      ensures Inflight(tid, now) <==> Awaited(Value().inflight, Value().timeout, tid, now)
    {
      inflightRequests.Contains(tid, now)
    }

    /** Increments `nextTid` and returns the previous value. */
    method Tid() returns (tid: u32)
      modifies this`nextTid
      ensures tid == old(nextTid) && nextTid == (tid + 1) % TID_SPACE
    {
      tid := nextTid;
      nextTid := (nextTid + 1) % TID_SPACE;
    }

    method Request(to: SocketAddr, request: RequestSpecific, now: nat) returns (tid: u32)
      modifies this, inflightRequests
      ensures Value() == Sent(old(Value()), to, request, now) && tid == old(nextTid)
    {
      tid := Tid();
      inflightRequests.Add(tid, to, now);
      sent := sent + [Datagram(tid, to, now, request)];
    }

    method IsExpectedResponse(tid: u32, from: SocketAddr, now: nat) returns (expected: bool)
      modifies this, inflightRequests
      ensures Value() == Answered(old(Value()), tid, from, now)
      ensures expected == old(Accepts(Value().inflight, Value().timeout, tid, from, now))
    {
      var request := inflightRequests.Remove(tid, from, now);
      expected := request.Some?;
      if expected {
        replies := replies + [Reply(tid, from, now)];
      }
    }

    method RecvFrom(p: Option<Packet>, now: nat) returns (r: Option<Packet>)
      modifies this, inflightRequests
      ensures Value() == Received(old(Value()), p, now)
      ensures r == if old(HandsOn(Value(), p, now)) then p else None
    {
      if Elapsed(lastCleanup, now) > INFLIGHT_CLEANUP_INTERVAL {
        lastCleanup := now;
        inflightRequests.Cleanup(now);
      }
      if p.None? || p.value.from.port == 0 {
        return None;
      }
      if p.value.message.messageType.Request? {
        return p;
      }
      var expected := IsExpectedResponse(p.value.message.transactionId, p.value.from, now);
      return if expected then p else None;
    }
  }

  // === What every run of the socket keeps, as long as ids are not reused ===

  /** Fewer than 2^32 requests so far: `next_tid` has not come round. */
  ghost predicate NoWrap(s: Socket) { |s.sent| <= TID_SPACE }

  ghost predicate HasReply(s: Socket, tid: int)
  {
    exists i :: 0 <= i < |s.replies| && s.replies[i].tid == tid
  }

  /** Request number k carries id k and was sent by now. */
  ghost predicate SentAt(s: Socket, now: nat, k: nat)
    requires k < |s.sent|
  {
    s.sent[k].tid == k && s.sent[k].at <= now
  }

  /** An entry in flight is a request sent and not replied to. */
  ghost predicate InflightIsSent(s: Socket, t: u32)
    requires t in s.inflight
  {
    t < |s.sent| && s.inflight[t] == InflightRequest(s.sent[t].to, s.sent[t].at) && !HasReply(s, t)
  }

  /** A request is in flight, replied to, or too old. */
  ghost predicate Settled(s: Socket, now: nat, k: nat)
    requires k < |s.sent|
  {
    k in s.inflight || HasReply(s, k) || Elapsed(s.sent[k].at, now) >= s.timeout
  }

  /** A reply answers a request sent less than the timeout before, from an address that matches. */
  ghost predicate ReplyIsTimely(s: Socket, i: nat)
    requires i < |s.replies|
  {
    var r := s.replies[i];
    r.tid < |s.sent| && DoesMatch(s.sent[r.tid].to, r.from) && Elapsed(s.sent[r.tid].at, r.at) < s.timeout
  }

  ghost predicate OneReplyEach(s: Socket)
  {
    forall i, j :: 0 <= i < j < |s.replies| ==> s.replies[i].tid != s.replies[j].tid
  }

  ghost predicate SocketOk(s: Socket, now: nat)
  {
    && NoWrap(s)
    && s.nextTid == |s.sent| % TID_SPACE
    && (forall k :: 0 <= k < |s.sent| ==> SentAt(s, now, k))
    && (forall t :: t in s.inflight ==> InflightIsSent(s, t))
    && (forall k :: 0 <= k < |s.sent| ==> Settled(s, now, k))
    && (forall i :: 0 <= i < |s.replies| ==> ReplyIsTimely(s, i))
    && OneReplyEach(s)
  }

  lemma LaterIsOk(s: Socket, now: nat, later: nat)
    requires SocketOk(s, now) && now <= later
    ensures SocketOk(s, later)
  {
    forall k | 0 <= k < |s.sent| ensures SentAt(s, later, k) && Settled(s, later, k) {
      assert SentAt(s, now, k) && Settled(s, now, k);
    }
  }

  /** A request of an untouched history keeps its state when another is sent. */
  lemma SentKeepsOk(s: Socket, to: SocketAddr, request: RequestSpecific, now: nat)
    requires SocketOk(s, now) && |s.sent| < TID_SPACE
    ensures SocketOk(Sent(s, to, request, now), now)
  {
    var s', n := Sent(s, to, request, now), |s.sent|;
    assert !HasReply(s', n) by {
      forall i | 0 <= i < |s.replies| ensures s.replies[i].tid != n {
        assert ReplyIsTimely(s, i);
      }
    }
    forall k | 0 <= k < |s'.sent| ensures SentAt(s', now, k) && Settled(s', now, k) {
      if k < n {
        assert SentAt(s, now, k) && Settled(s, now, k);
        assert s'.sent[k] == s.sent[k];
        assert HasReply(s, k) ==> HasReply(s', k);
      }
    }
    forall t | t in s'.inflight ensures InflightIsSent(s', t) {
      if t != n {
        assert InflightIsSent(s, t);
        assert HasReply(s', t) ==> HasReply(s, t);
      }
    }
    forall i | 0 <= i < |s'.replies| ensures ReplyIsTimely(s', i) {
      assert ReplyIsTimely(s, i);
    }
  }

  /** Dropping expired entries changes nothing a caller can see, now or later. */
  lemma CleanupInvisible(rs: Inflight, timeout: nat, now: nat, later: nat, tid: u32, from: SocketAddr)
    requires now <= later && (tid in rs ==> rs[tid].sentAt <= now)
    ensures Awaited(Retained(rs, timeout, now), timeout, tid, later) <==> Awaited(rs, timeout, tid, later)
    ensures Accepts(Retained(rs, timeout, now), timeout, tid, from, later) <==> Accepts(rs, timeout, tid, from, later)
  {
  }

  lemma CleanedKeepsOk(s: Socket, now: nat)
    requires SocketOk(s, now)
    ensures SocketOk(Cleaned(s, now), now)
  {
    var c := Cleaned(s, now);
    forall k | 0 <= k < |c.sent| ensures SentAt(c, now, k) && Settled(c, now, k) {
      assert SentAt(s, now, k) && Settled(s, now, k);
      assert HasReply(s, k) ==> HasReply(c, k);
      if k in s.inflight {
        assert InflightIsSent(s, k);
      }
    }
    forall t | t in c.inflight ensures InflightIsSent(c, t) {
      assert InflightIsSent(s, t);
      assert HasReply(c, t) ==> HasReply(s, t);
    }
    forall i | 0 <= i < |c.replies| ensures ReplyIsTimely(c, i) {
      assert ReplyIsTimely(s, i);
    }
  }

  lemma AnsweredKeepsOk(s: Socket, tid: u32, from: SocketAddr, now: nat)
    requires SocketOk(s, now)
    ensures SocketOk(Answered(s, tid, from, now), now)
  {
    var s' := Answered(s, tid, from, now);
    RepliesGrow(s, tid, from, now);
    forall k | 0 <= k < |s'.sent| ensures SentAt(s', now, k) && Settled(s', now, k) {
      assert SentAt(s, now, k) && Settled(s, now, k);
      if k in s.inflight {
        assert InflightIsSent(s, k);
      }
    }
    forall t | t in s'.inflight ensures InflightIsSent(s', t) {
      assert InflightIsSent(s, t);
    }
    if tid in s.inflight {
      assert InflightIsSent(s, tid);
    }
    forall i | 0 <= i < |s'.replies| ensures ReplyIsTimely(s', i) {
      if i < |s.replies| {
        assert ReplyIsTimely(s, i);
      }
    }
    forall i, j | 0 <= i < j < |s'.replies| ensures s'.replies[i].tid != s'.replies[j].tid {
      if j == |s.replies| {
        assert s.replies[i].tid == tid ==> HasReply(s, tid);
      }
    }
  }

  lemma RepliesGrow(s: Socket, tid: u32, from: SocketAddr, now: nat)
    ensures forall k: int :: HasReply(Answered(s, tid, from, now), k) <==>
      HasReply(s, k) || (k == tid && Accepts(s.inflight, s.timeout, tid, from, now))
  {
    var s', n := Answered(s, tid, from, now), |s.replies|;
    forall k: int | HasReply(s, k) ensures HasReply(s', k) {
      var i :| 0 <= i < n && s.replies[i].tid == k;
      assert s'.replies[i].tid == k;
    }
    if Accepts(s.inflight, s.timeout, tid, from, now) {
      assert s'.replies[n].tid == tid;
    }
  }

  lemma ReceivedKeepsOk(s: Socket, p: Option<Packet>, now: nat)
    requires SocketOk(s, now)
    ensures SocketOk(Received(s, p, now), now)
  {
    CleanedKeepsOk(s, now);
    if p.Some? {
      AnsweredKeepsOk(Cleaned(s, now), p.value.message.transactionId, p.value.from, now);
    }
  }

  /** A reply that is handed on is the first for its request. */
  lemma {:induction false} HandedOnIsNew(s: Socket, p: Packet, now: nat)
    requires SocketOk(s, now) && HandsOn(s, Some(p), now) && !p.message.messageType.Request?
    ensures p.message.transactionId < |s.sent| && !HasReply(s, p.message.transactionId)
    ensures forall k: int :: HasReply(Received(s, Some(p), now), k) <==> HasReply(s, k) || k == p.message.transactionId
  {
    var c, tid := Cleaned(s, now), p.message.transactionId;
    assert InflightIsSent(s, tid);
    RepliesGrow(c, tid, p.from, now);
    assert forall k: int :: HasReply(c, k) <==> HasReply(s, k);
  }

  /** Nothing else answers anything. */
  lemma {:induction false} NoNewReply(s: Socket, p: Option<Packet>, now: nat)
    requires !HandsOn(s, p, now) || p.value.message.messageType.Request?
    ensures Received(s, p, now).replies == s.replies
  {
  }

  /** A request is awaited exactly while it has no reply and is younger than the timeout. */
  lemma AwaitedIff(s: Socket, now: nat, later: nat, k: u32)
    requires SocketOk(s, now) && now <= later && k < |s.sent|
    ensures Awaited(s.inflight, s.timeout, k, later) <==> !HasReply(s, k) && Elapsed(s.sent[k].at, later) < s.timeout
  {
    assert SentAt(s, now, k) && Settled(s, now, k);
    if k in s.inflight {
      assert InflightIsSent(s, k);
    }
  }

  // === Runs ===

  datatype SocketEvent = Send(to: SocketAddr, request: RequestSpecific, at: nat) | Receive(packet: Option<Packet>,
      at: nat)

  function StepSocket(s: Socket, e: SocketEvent): Socket
  {
    match e
    case Send(to, request, at) => Sent(s, to, request, at)
    case Receive(packet, at) => Received(s, packet, at)
  }

  function RunSocket(s: Socket, es: seq<SocketEvent>): Socket
  {
    if es == [] then s else StepSocket(RunSocket(s, es[..|es| - 1]), es[|es| - 1])
  }

  ghost predicate InTime(es: seq<SocketEvent>, start: nat)
  {
    forall i :: 0 <= i < |es| ==> start <= es[i].at && forall j :: i < j < |es| ==> es[i].at <= es[j].at
  }

  lemma {:induction false} SentOnlyGrows(s: Socket, es: seq<SocketEvent>, i: nat)
    requires i <= |es|
    ensures |RunSocket(s, es[..i]).sent| <= |RunSocket(s, es).sent|
  {
    if i < |es| {
      SentOnlyGrows(s, es[..|es| - 1], i);
      assert es[..|es| - 1][..i] == es[..i];
    } else {
      assert es[..i] == es;
    }
  }

  /** In every run with fewer than 2^32 requests the ids are distinct, every reply handed on answers one
      request sent to a matching address less than the timeout before, and no request gets two. */
  lemma {:induction false} RunKeepsOk(s: Socket, es: seq<SocketEvent>, start: nat)
    requires s.sent == [] && s.replies == [] && s.inflight == map[] && s.nextTid == 0
    requires InTime(es, start) && NoWrap(RunSocket(s, es))
    ensures SocketOk(RunSocket(s, es), if es == [] then start else es[|es| - 1].at)
  {
    if es != [] {
      var n := |es| - 1;
      var before := es[..n];
      SentOnlyGrows(s, es, n);
      RunKeepsOk(s, before, start);
      var e, w := es[n], RunSocket(s, before);
      LaterIsOk(w, if before == [] then start else before[n - 1].at, e.at);
      match e {
        case Send(to, request, at) => SentKeepsOk(w, to, request, at);
        case Receive(packet, at) => ReceivedKeepsOk(w, packet, at);
      }
    }
  }
}
