/** Storing at the closest nodes (rust/mainline/src/rpc/put_query.rs): send to every node with a token, tally
    acknowledgements and errors, and decide. */
module PutQueries {
  import opened Bytes
  import opened Ids
  import opened Nodes
  import opened Messages
  import opened Sockets

  datatype PutError = NoClosestNodes | Timeout | ConflictRisk | NotMostRecent | CasFailed

  /** Panicked: an assertion of the program fails. */
  datatype StartResult = Started | NotStarted(error: PutError) | Panicked

  datatype TickResult = Pending | Done | Failed(error: PutError)

  /** An error with the number of nodes that sent its code, an 8-bit counter. */
  datatype Tally = Tally(count: byte, error: ErrorSpecific)

  datatype Put = Put(target: Id, request: PutRequestSpecific, extraNodes: seq<Node>, storedAt: byte,
      inflight: seq<u32>, errors: seq<Tally>)

  function NewPut(target: Id, request: PutRequestSpecific, extraNodes: seq<Node>): Put
  {
    Put(target, request, extraNodes, 0, [], [])
  }

  predicate HasStarted(p: Put) { p.inflight != [] }

  datatype World = World(p: Put, s: Socket)

  function Stored(s: Socket, p: Put, token: seq<byte>): RequestSpecific
  {
    RequestSpecific(RandomId(s), PutRequest(token, p.request))
  }

  function SendOne(w: World, n: Node, now: nat): World
  {
    if n.token.None? then w
    else World(w.p.(inflight := w.p.inflight + [w.s.nextTid]),
        Sent(w.s, n.address, Stored(w.s, w.p, n.token.value), now))
  }

  function SendAll(w: World, nodes: seq<Node>, now: nat): World
    decreases |nodes|
  {
    if nodes == [] then w else SendOne(SendAll(w, nodes[..|nodes| - 1], now), nodes[|nodes| - 1], now)
  }

  function StartResultOf(p: Put, closest: seq<Node>): StartResult
  {
    if HasStarted(p) then Panicked
    else if closest == [] then NotStarted(NoClosestNodes)
    else if |closest| > 255 then Panicked
    else Started
  }

  function StartPut(w: World, closest: seq<Node>, now: nat): World
  {
    if StartResultOf(w.p, closest).Started? then SendAll(w, closest + w.p.extraNodes, now) else w
  }

  // === The tally ===

  function PositionOf(errors: seq<Tally>, code: i32): (i: nat)
    ensures i <= |errors|
    ensures i < |errors| ==> errors[i].error.code == code
    ensures forall k :: 0 <= k < i ==> errors[k].error.code != code
  {
    if errors == [] || errors[0].error.code == code then 0 else 1 + PositionOf(errors[1..], code)
  }

  /** Move entry i forward over entries with lower counts. */
  function Bubble(errors: seq<Tally>, i: nat): (r: seq<Tally>)
    requires i < |errors|
    ensures |r| == |errors|
    decreases i, |errors|
  {
    if i > 0 && errors[i].count > errors[i - 1].count
    then Bubble(errors[i := errors[i - 1]][i - 1 := errors[i]], i - 1)
    else errors
  }

  function Bump(errors: seq<Tally>, i: nat): seq<Tally>
    requires i < |errors|
  {
    errors[i := Tally((errors[i].count as int + 1) % 256, errors[i].error)]
  }

  function WithError(errors: seq<Tally>, e: ErrorSpecific): seq<Tally>
  {
    var i := PositionOf(errors, e.code);
    if i < |errors| then Bubble(Bump(errors, i), i) else errors + [Tally(1, e)]
  }

  function Majority(n: nat): byte { (n / 2 + 1) % 256 }

  function MostCommonError(errors: seq<Tally>): Option<(byte, PutError)>
  {
    if errors == [] then None
    else if errors[0].error.code == 301 then Some((errors[0].count, CasFailed))
    else if errors[0].error.code == 302 then Some((errors[0].count, NotMostRecent))
    else None
  }

  function RejectedByMajority(p: Put): Option<PutError>
  {
    if !p.request.PutMutable? then None
    else
      match MostCommonError(p.errors)
      case None => None
      case Some((count, error)) => if count >= Majority(|p.inflight|) then Some(error) else None
  }

  predicate NoneAwaited(p: Put, s: Socket, now: nat)
  {
    forall i :: 0 <= i < |p.inflight| ==> !Awaited(s.inflight, s.timeout, p.inflight[i], now)
  }

  function TickPut(p: Put, s: Socket, now: nat): TickResult
  {
    if p.inflight == [] then Pending
    else if NoneAwaited(p, s, now) then
      if p.storedAt == 0 then Failed(if MostCommonError(p.errors).Some? then MostCommonError(p.errors).value.1
          else Timeout)
      else Done
    else
      match RejectedByMajority(p)
      case Some(error) => Failed(error)
      case None => Pending
  }

  // === The query as a mutable object ===

  class PutQuery {
    const target: Id
    const request: PutRequestSpecific
    const extraNodes: seq<Node>
    var storedAt: byte
    var inflightRequests: seq<u32>
    var errors: seq<Tally>

    ghost function Value(): Put
      reads this
    {
      Put(target, request, extraNodes, storedAt, inflightRequests, errors)
    }

    constructor (target: Id, request: PutRequestSpecific, extraNodes: seq<Node>)
      ensures Value() == NewPut(target, request, extraNodes)
    {
      this.target, this.request, this.extraNodes := target, request, extraNodes;
      storedAt, inflightRequests, errors := 0, [], [];
    }

    method Start(socket: KrpcSocket, closest: seq<Node>, now: nat) returns (r: StartResult)
      modifies this, socket, socket.inflightRequests
      ensures r == old(StartResultOf(Value(), closest))
      ensures World(Value(), socket.Value()) == old(StartPut(World(Value(), socket.Value()), closest, now))
    {
      if inflightRequests != [] {
        return Panicked;
      }
      if closest == [] {
        return NotStarted(NoClosestNodes);
      }
      if |closest| > 255 {
        return Panicked;
      }
      ghost var w := World(Value(), socket.Value());
      var nodes := closest + extraNodes;
      for i := 0 to |nodes|
        invariant World(Value(), socket.Value()) == SendAll(w, nodes[..i], now)
      {
        assert nodes[..i + 1][..i] == nodes[..i];
        match nodes[i].token {
          case None =>
          case Some(token) =>
            var id := (socket.random)(|socket.sent|);
            var tid := socket.Request(nodes[i].address, RequestSpecific(id, PutRequest(token, request)), now);
            inflightRequests := inflightRequests + [tid];
        }
      }
      assert nodes[..|nodes|] == nodes;
      return Started;
    }

    method Success()
      modifies this
      ensures Value() == old(Value()).(storedAt := (old(storedAt) as int + 1) % 256)
    {
      storedAt := (storedAt as int + 1) % 256;
    }

    method Error(error: ErrorSpecific)
      modifies this
      ensures Value() == old(Value()).(errors := WithError(old(errors), error))
    {
      var pos := PositionOf(errors, error.code);
      if pos < |errors| {
        errors := errors[pos := Tally((errors[pos].count as int + 1) % 256, errors[pos].error)];
        var i := pos;
        while i > 0 && errors[i].count > errors[i - 1].count
          invariant i < |errors|
          invariant Bubble(errors, i) == old(WithError(errors, error))
          invariant storedAt == old(storedAt) && inflightRequests == old(inflightRequests)
        {
          errors := errors[i := errors[i - 1]][i - 1 := errors[i]];
          i := i - 1;
        }
      } else {
        errors := errors + [Tally(1, error)];
      }
    }

    method Tick(socket: KrpcSocket, now: nat) returns (r: TickResult)
      ensures r == TickPut(Value(), socket.Value(), now)
    {
      if inflightRequests == [] {
        return Pending;
      }
      var done := true;
      for i := 0 to |inflightRequests|
        invariant done <==> forall k :: 0 <= k < i ==>
          !Awaited(socket.Value().inflight, socket.Value().timeout, inflightRequests[k], now)
      {
        var awaited := socket.Inflight(inflightRequests[i], now);
        done := done && !awaited;
      }
      if done {
        if storedAt == 0 {
          var e := MostCommonError(errors);
          return Failed(if e.Some? then e.value.1 else Timeout);
        }
        return Done;
      }
      match RejectedByMajority(Put(target, request, extraNodes, storedAt, inflightRequests, errors)) {
        case Some(error) => return Failed(error);
        case None => return Pending;
      }
    }
  }

  // === What the tally says about the replies ===

  function TallyAll(replies: seq<ErrorSpecific>): seq<Tally>
  {
    if replies == [] then [] else WithError(TallyAll(replies[..|replies| - 1]), replies[|replies| - 1])
  }

  function CountCode(replies: seq<ErrorSpecific>, code: i32): (n: nat)
    ensures n <= |replies|
  {
    if replies == [] then 0
    else CountCode(replies[..|replies| - 1], code) + (if replies[|replies| - 1].code == code then 1 else 0)
  }

  function Sum(errors: seq<Tally>): nat
  {
    if errors == [] then 0 else Sum(errors[..|errors| - 1]) + errors[|errors| - 1].count as int
  }

  ghost predicate DistinctCodes(errors: seq<Tally>)
  {
    forall i, j :: 0 <= i < j < |errors| ==> errors[i].error.code != errors[j].error.code
  }

  ghost predicate NonIncreasing(errors: seq<Tally>)
  {
    forall i, j :: 0 <= i < j < |errors| ==> errors[i].count >= errors[j].count
  }

  ghost predicate HasCode(errors: seq<Tally>, code: i32)
  {
    exists t :: t in errors && t.error.code == code
  }

  /** Every entry counts the replies with its code, and every reply has an entry. */
  ghost predicate CountsReplies(errors: seq<Tally>, replies: seq<ErrorSpecific>)
  {
    && (forall t :: t in errors ==> t.count == CountCode(replies, t.error.code) && t.count > 0)
    && (forall r :: r in replies ==> HasCode(errors, r.code))
  }

  ghost predicate SameMembers(a: seq<Tally>, b: seq<Tally>) { forall t :: t in a <==> t in b }

  lemma {:induction false} SumUpdate(errors: seq<Tally>, i: nat, t: Tally)
    requires i < |errors|
    ensures Sum(errors[i := t]) == Sum(errors) - errors[i].count as int + t.count as int
  {
    var n := |errors| - 1;
    if i < n {
      SumUpdate(errors[..n], i, t);
      assert errors[i := t][..n] == errors[..n][i := t];
    } else {
      assert errors[i := t][..n] == errors[..n];
    }
  }

  function Swapped(errors: seq<Tally>, i: nat): (r: seq<Tally>)
    requires 0 < i < |errors|
    ensures |r| == |errors|
  {
    errors[i := errors[i - 1]][i - 1 := errors[i]]
  }

  lemma {:induction false} SwapKeeps(errors: seq<Tally>, i: nat)
    requires 0 < i < |errors|
    ensures Sum(Swapped(errors, i)) == Sum(errors) && SameMembers(Swapped(errors, i), errors)
    ensures DistinctCodes(errors) ==> DistinctCodes(Swapped(errors, i))
  {
    var r := Swapped(errors, i);
    SumUpdate(errors, i, errors[i - 1]);
    SumUpdate(errors[i := errors[i - 1]], i - 1, errors[i]);
    forall t | t in errors ensures t in r {
      var k :| 0 <= k < |errors| && errors[k] == t;
      assert r[if k == i then i - 1 else if k == i - 1 then i else k] == t;
    }
  }

  /** Sorted but for entry i, which may be too far back. */
  ghost predicate SortedBut(errors: seq<Tally>, i: nat)
    requires i < |errors|
  {
    && (forall a, b :: 0 <= a < b < |errors| && a != i && b != i ==> errors[a].count >= errors[b].count)
    && (forall b :: i < b < |errors| ==> errors[i].count >= errors[b].count)
  }

  lemma {:induction false} BubbleSorts(errors: seq<Tally>, i: nat)
    requires i < |errors| && SortedBut(errors, i)
    ensures NonIncreasing(Bubble(errors, i))
    ensures Sum(Bubble(errors, i)) == Sum(errors) && SameMembers(Bubble(errors, i), errors)
    ensures DistinctCodes(errors) ==> DistinctCodes(Bubble(errors, i))
    decreases i
  {
    if i > 0 && errors[i].count > errors[i - 1].count {
      SwapKeeps(errors, i);
      BubbleSorts(Swapped(errors, i), i - 1);
    }
  }

  lemma {:induction false} CountCodeAppend(replies: seq<ErrorSpecific>, e: ErrorSpecific)
    ensures forall c: i32 :: CountCode(replies + [e], c) == CountCode(replies, c) + (if e.code == c then 1 else 0)
  {
    assert (replies + [e])[..|replies|] == replies;
  }

  lemma {:induction false} CodeCounted(replies: seq<ErrorSpecific>, code: i32)
    ensures CountCode(replies, code) > 0 <==> exists r :: r in replies && r.code == code
  {
    if replies != [] {
      var n := |replies| - 1;
      CodeCounted(replies[..n], code);
      assert replies == replies[..n] + [replies[n]];
    }
  }

  lemma {:induction false} BumpSorts(errors: seq<Tally>, i: nat)
    requires i < |errors| && errors[i].count < 255 && DistinctCodes(errors) && NonIncreasing(errors)
    ensures DistinctCodes(Bump(errors, i)) && SortedBut(Bump(errors, i), i) && Sum(Bump(errors, i)) == Sum(errors) + 1
  {
    SumUpdate(errors, i, Bump(errors, i)[i]);
  }

  lemma {:induction false} BumpCounts(errors: seq<Tally>, replies: seq<ErrorSpecific>, e: ErrorSpecific, i: nat)
    requires i < |errors| && errors[i].error.code == e.code && errors[i].count < 255
    requires DistinctCodes(errors) && CountsReplies(errors, replies)
    ensures CountsReplies(Bump(errors, i), replies + [e])
  {
    var b := Bump(errors, i);
    assert errors[i] in errors;
    CountCodeAppend(replies, e);
    forall t | t in b ensures t.count == CountCode(replies + [e], t.error.code) && t.count > 0 {
      var k :| 0 <= k < |b| && b[k] == t;
      assert errors[k] in errors && errors[k].error == t.error;
    }
    forall r | r in replies + [e] ensures HasCode(b, r.code) {
      var k := i;
      if r in replies {
        k := IndexOf(errors, r.code);
      }
      assert b[k] in b && b[k].error == errors[k].error;
    }
  }

  lemma {:induction false} IndexOf(errors: seq<Tally>, code: i32) returns (k: nat)
    requires HasCode(errors, code)
    ensures k < |errors| && errors[k].error.code == code
  {
    var t :| t in errors && t.error.code == code;
    k :| 0 <= k < |errors| && errors[k] == t;
  }

  lemma {:induction false} PushSorts(errors: seq<Tally>, e: ErrorSpecific)
    requires PositionOf(errors, e.code) == |errors| && DistinctCodes(errors) && NonIncreasing(errors)
    requires forall t :: t in errors ==> t.count > 0
    ensures var p := errors + [Tally(1, e)]; DistinctCodes(p) && NonIncreasing(p) && Sum(p) == Sum(errors) + 1
  {
    var p := errors + [Tally(1, e)];
    assert p[..|errors|] == errors;
    forall i | 0 <= i < |errors| ensures errors[i].count >= 1 {
      assert errors[i] in errors;
    }
  }

  lemma {:induction false} PushCounts(errors: seq<Tally>, replies: seq<ErrorSpecific>, e: ErrorSpecific)
    requires forall t :: t in errors ==> t.error.code != e.code
    requires CountsReplies(errors, replies)
    ensures CountsReplies(errors + [Tally(1, e)], replies + [e])
  {
    var p := errors + [Tally(1, e)];
    CountCodeAppend(replies, e);
    CodeCounted(replies, e.code);
    forall r | r in replies + [e] ensures HasCode(p, r.code) {
      if r in replies {
        var k := IndexOf(errors, r.code);
        assert p[k] in p;
      } else {
        assert p[|errors|] in p;
      }
    }
  }

  lemma {:induction false} MembersCount(a: seq<Tally>, b: seq<Tally>, replies: seq<ErrorSpecific>)
    requires SameMembers(a, b) && CountsReplies(b, replies)
    ensures CountsReplies(a, replies)
  {
    forall r | r in replies ensures HasCode(a, r.code) {
      var t :| t in b && t.error.code == r.code;
      assert t in a;
    }
  }

  /** No 8-bit count overflows: no code came more than 255 times. */
  ghost predicate NoOverflow(replies: seq<ErrorSpecific>) { forall c: i32 :: CountCode(replies, c) <= 255 }

  lemma {:induction false} NoOverflowBefore(replies: seq<ErrorSpecific>)
    requires NoOverflow(replies) && replies != []
    ensures NoOverflow(replies[..|replies| - 1])
    ensures CountCode(replies[..|replies| - 1], replies[|replies| - 1].code) < 255
  {
    var n := |replies| - 1;
    assert replies == replies[..n] + [replies[n]];
    CountCodeAppend(replies[..n], replies[n]);
  }

  /** As long as no code comes more than 255 times: one entry per code, counting its replies, highest count first,
      nothing lost. */
  lemma {:induction false} TallyIsExact(replies: seq<ErrorSpecific>)
    requires NoOverflow(replies)
    ensures DistinctCodes(TallyAll(replies)) && NonIncreasing(TallyAll(replies))
    ensures CountsReplies(TallyAll(replies), replies) && Sum(TallyAll(replies)) == |replies|
  {
    if replies != [] {
      var n := |replies| - 1;
      var before, e := TallyAll(replies[..n]), replies[n];
      NoOverflowBefore(replies);
      TallyIsExact(replies[..n]);
      assert replies == replies[..n] + [e];
      if PositionOf(before, e.code) < |before| {
        BumpIsExact(before, replies[..n], e);
      } else {
        PushSorts(before, e);
        PushCounts(before, replies[..n], e);
      }
    }
  }

  lemma {:induction false} BumpIsExact(errors: seq<Tally>, replies: seq<ErrorSpecific>, e: ErrorSpecific)
    requires DistinctCodes(errors) && NonIncreasing(errors) && CountsReplies(errors, replies)
    requires PositionOf(errors, e.code) < |errors| && CountCode(replies, e.code) < 255
    ensures var t := WithError(errors, e);
      DistinctCodes(t) && NonIncreasing(t) && CountsReplies(t, replies + [e]) && Sum(t) == Sum(errors) + 1
  {
    var i := PositionOf(errors, e.code);
    assert errors[i] in errors;
    BumpSorts(errors, i);
    BumpCounts(errors, replies, e, i);
    BubbleSorts(Bump(errors, i), i);
    MembersCount(WithError(errors, e), Bump(errors, i), replies + [e]);
  }

  /** The counts are those of the replies exactly as long as no code comes more than 255 times. */
  lemma {:induction false} TallyExactIff(replies: seq<ErrorSpecific>)
    ensures CountsReplies(TallyAll(replies), replies) <==> NoOverflow(replies)
  {
    if NoOverflow(replies) {
      TallyIsExact(replies);
    } else {
      var c: i32 :| CountCode(replies, c) > 255;
      CodeCounted(replies, c);
      var r :| r in replies && r.code == c;
      if CountsReplies(TallyAll(replies), replies) {
        assert HasCode(TallyAll(replies), r.code);
      }
    }
  }

  lemma {:induction false} BubbleSum(errors: seq<Tally>, i: nat)
    requires i < |errors|
    ensures Sum(Bubble(errors, i)) == Sum(errors)
    decreases i
  {
    if i > 0 && errors[i].count > errors[i - 1].count {
      SwapKeeps(errors, i);
      BubbleSum(Swapped(errors, i), i - 1);
    }
  }

  lemma {:induction false} WithErrorSum(errors: seq<Tally>, e: ErrorSpecific)
    ensures Sum(WithError(errors, e)) <= Sum(errors) + 1
  {
    var i := PositionOf(errors, e.code);
    if i < |errors| {
      SumUpdate(errors, i, Bump(errors, i)[i]);
      BubbleSum(Bump(errors, i), i);
    } else {
      assert (errors + [Tally(1, e)])[..|errors|] == errors;
    }
  }

  /** Whatever overflows, the counts together never exceed the replies. */
  lemma {:induction false} TallyAtMost(replies: seq<ErrorSpecific>)
    ensures Sum(TallyAll(replies)) <= |replies|
  {
    if replies != [] {
      TallyAtMost(replies[..|replies| - 1]);
      WithErrorSum(TallyAll(replies[..|replies| - 1]), replies[|replies| - 1]);
    }
  }

  // === Who leads the tally ===

  /** The code that reached the highest count first. */
  function Leader(replies: seq<ErrorSpecific>): Option<i32>
  {
    if replies == [] then None
    else
      var before, c := Leader(replies[..|replies| - 1]), replies[|replies| - 1].code;
      if before.None? || CountCode(replies, c) > CountCode(replies, before.value) then Some(c) else before
  }

  /** No code came more often than c, and when c came the last time the others were still behind its final count. */
  ghost predicate Leads(replies: seq<ErrorSpecific>, k: nat, c: i32)
    requires k <= |replies|
  {
    && CountCode(replies[..k], c) == CountCode(replies, c) > 0
    && (forall d: i32 :: CountCode(replies, d) <= CountCode(replies, c))
    && (forall d: i32 :: d != c ==> CountCode(replies[..k], d) < CountCode(replies, c))
  }

  lemma {:induction false} CountPrefix(replies: seq<ErrorSpecific>, k: nat, c: i32)
    requires k <= |replies|
    ensures CountCode(replies[..k], c) <= CountCode(replies, c)
  {
    if k < |replies| {
      var n := |replies| - 1;
      CountPrefix(replies[..n], k, c);
      assert replies[..n][..k] == replies[..k];
    } else {
      assert replies[..k] == replies;
    }
  }

  lemma {:induction false} LeaderLeads(replies: seq<ErrorSpecific>) returns (k: nat)
    requires replies != []
    ensures Leader(replies).Some? && k <= |replies| && Leads(replies, k, Leader(replies).value)
  {
    var n := |replies| - 1;
    var e := replies[n];
    assert replies == replies[..n] + [e];
    CountCodeAppend(replies[..n], e);
    k := |replies|;
    assert replies[..k] == replies;
    if n == 0 {
      assert forall d: i32 :: CountCode(replies[..n], d) == 0;
    } else {
      var k0 := LeaderLeads(replies[..n]);
      assert replies[..n][..k0] == replies[..k0];
      var l := Leader(replies[..n]).value;
      if CountCode(replies, e.code) <= CountCode(replies, l) && e.code != l {
        k := k0;
      }
    }
  }

  /** The leader, in terms of the replies alone. */
  lemma {:induction false} LeaderIff(replies: seq<ErrorSpecific>, c: i32)
    ensures Leader(replies) == Some(c) <==> exists k :: 0 <= k <= |replies| && Leads(replies, k, c)
  {
    if replies != [] {
      var k := LeaderLeads(replies);
      var l := Leader(replies).value;
      if j :| 0 <= j <= |replies| && Leads(replies, j, c) && l != c {
        assert CountCode(replies, l) == CountCode(replies, c);
        if j <= k {
          assert replies[..k][..j] == replies[..j];
          CountPrefix(replies[..k], j, c);
        } else {
          assert replies[..j][..k] == replies[..k];
          CountPrefix(replies[..j], k, l);
        }
        assert false;
      }
    } else {
      assert forall k :: 0 <= k <= |replies| ==> replies[..k] == [];
    }
  }

  /** An entry that moves forward gets to the front exactly when it beats the front. */
  lemma {:induction false} BubbleFront(errors: seq<Tally>, i: nat)
    requires i < |errors| && SortedBut(errors, i)
    ensures Bubble(errors, i)[0] == if errors[i].count > errors[0].count then errors[i] else errors[0]
    decreases i
  {
    if i > 0 && errors[i].count > errors[i - 1].count {
      BubbleFront(Swapped(errors, i), i - 1);
    }
  }

  /** A code that is known gets to the front exactly when it overtakes it. */
  lemma {:induction false} FirstAfterBump(errors: seq<Tally>, e: ErrorSpecific, i: nat)
    requires i == PositionOf(errors, e.code) < |errors| && errors[i].count < 255
    requires DistinctCodes(errors) && NonIncreasing(errors)
    ensures var t := WithError(errors, e);
      t != [] && t[0] == if errors[i].count + 1 > errors[0].count then Tally(errors[i].count + 1, errors[i].error)
          else errors[0]
  {
    BumpSorts(errors, i);
    BubbleFront(Bump(errors, i), i);
  }

  /** The entry of the leader is the first. */
  ghost predicate LeaderFirst(replies: seq<ErrorSpecific>, t: seq<Tally>)
  {
    if replies == [] then t == []
    else t != [] && Leader(replies) == Some(t[0].error.code) && t[0].count == CountCode(replies, t[0].error.code)
  }

  lemma {:induction false} LeaderStep(replies: seq<ErrorSpecific>, t: seq<Tally>, e: ErrorSpecific)
    requires LeaderFirst(replies, t) && CountsReplies(t, replies) && DistinctCodes(t) && NonIncreasing(t)
    requires CountCode(replies, e.code) < 255
    ensures LeaderFirst(replies + [e], WithError(t, e))
  {
    var i := PositionOf(t, e.code);
    CountCodeAppend(replies, e);
    assert (replies + [e])[..|replies|] == replies;
    if i < |t| {
      assert t[i] in t;
      FirstAfterBump(t, e, i);
    } else {
      CodeCounted(replies, e.code);
      assert CountCode(replies, e.code) == 0 by {
        if r :| r in replies && r.code == e.code {
          var k := IndexOf(t, r.code);
        }
      }
      assert t != [] ==> t[0] in t;
    }
  }

  lemma {:induction false} FirstIsLeader(replies: seq<ErrorSpecific>)
    requires NoOverflow(replies)
    ensures LeaderFirst(replies, TallyAll(replies))
  {
    if replies != [] {
      var n := |replies| - 1;
      NoOverflowBefore(replies);
      FirstIsLeader(replies[..n]);
      TallyIsExact(replies[..n]);
      assert replies == replies[..n] + [replies[n]];
      LeaderStep(replies[..n], TallyAll(replies[..n]), replies[n]);
    }
  }

  // === The majority test ===

  ghost predicate TestRight(n: nat, c: byte) { c >= Majority(n) <==> 2 * c > n }

  /** The 8-bit threshold separates majorities from the rest exactly up to 509 requests. */
  lemma {:induction false} MajorityTestExactIff(n: nat)
    ensures (forall c: byte :: TestRight(n, c)) <==> n < 510
  {
    if n >= 510 {
      assert !TestRight(n, 255);
    }
  }

  lemma {:induction false} TwoCodes(replies: seq<ErrorSpecific>, a: i32, b: i32)
    requires a != b
    ensures CountCode(replies, a) + CountCode(replies, b) <= |replies|
  {
    if replies != [] {
      TwoCodes(replies[..|replies| - 1], a, b);
    }
  }

  /** The test on the first entry finds the leader when it has the threshold. */
  lemma {:induction false} ThresholdIff(replies: seq<ErrorSpecific>, n: nat)
    requires NoOverflow(replies)
    ensures var m := MostCommonError(TallyAll(replies));
      && (m.Some? && m.value.0 >= Majority(n) && m.value.1 == CasFailed
          <==> Leader(replies) == Some(301) && CountCode(replies, 301) >= Majority(n))
      && (m.Some? && m.value.0 >= Majority(n) && m.value.1 == NotMostRecent
          <==> Leader(replies) == Some(302) && CountCode(replies, 302) >= Majority(n))
  {
    if replies != [] {
      FirstIsLeader(replies);
    }
  }

  /** A code sent by more than half of n nodes leads. */
  lemma {:induction false} MajorityLeads(replies: seq<ErrorSpecific>, n: nat, code: i32)
    requires |replies| <= n && 2 * CountCode(replies, code) > n
    ensures Leader(replies) == Some(code)
  {
    var k := LeaderLeads(replies);
    if Leader(replies) != Some(code) {
      TwoCodes(replies, Leader(replies).value, code);
    }
  }

  /** Below 510 requests the threshold is the strict majority. */
  lemma {:induction false} MajorityIff(replies: seq<ErrorSpecific>, n: nat)
    requires NoOverflow(replies) && |replies| <= n < 510
    ensures var m := MostCommonError(TallyAll(replies));
      && (m.Some? && m.value.0 >= Majority(n) && m.value.1 == CasFailed <==> 2 * CountCode(replies, 301) > n)
      && (m.Some? && m.value.0 >= Majority(n) && m.value.1 == NotMostRecent <==> 2 * CountCode(replies, 302) > n)
  {
    ThresholdIff(replies, n);
    MajorityTestExactIff(n);
    assert TestRight(n, CountCode(replies, 301)) && TestRight(n, CountCode(replies, 302));
    if 2 * CountCode(replies, 301) > n {
      MajorityLeads(replies, n, 301);
    }
    if 2 * CountCode(replies, 302) > n {
      MajorityLeads(replies, n, 302);
    }
  }

  // === Runs of a put query on a shared socket ===

  /** The query with the replies it took: acknowledgements and errors, in order. */
  datatype PutRun = PutRun(w: World, acks: nat, errs: seq<ErrorSpecific>)

  datatype Act =
    | StartAct(closest: seq<Node>)
    | Elsewhere(to: SocketAddr, request: RequestSpecific)
    | Arrive(packet: Option<Packet>)

  datatype Event = Event(at: nat, act: Act)

  /** A packet the socket hands on is for this query: it answers one of its ids and does not claim to be read-only. */
  predicate IsFor(w: World, p: Option<Packet>, now: nat)
  {
    && HandsOn(w.s, p, now) && !p.value.message.messageType.Request?
    && !p.value.message.readOnly && p.value.message.transactionId in w.p.inflight
  }

  function Step(r: PutRun, e: Event): PutRun
  {
    match e.act
    case StartAct(closest) => r.(w := StartPut(r.w, closest, e.at))
    case Elsewhere(to, request) => r.(w := World(r.w.p, Sent(r.w.s, to, request, e.at)))
    case Arrive(packet) =>
      var s' := Received(r.w.s, packet, e.at);
      if !IsFor(r.w, packet, e.at) then r.(w := World(r.w.p, s'))
      else
        match packet.value.message.messageType
        case Response(PingResponse(_)) => PutRun(World(r.w.p.(storedAt := (r.w.p.storedAt as int + 1) % 256), s'),
            r.acks + 1, r.errs)
        case Error(e) => PutRun(World(r.w.p.(errors := WithError(r.w.p.errors, e)), s'), r.acks, r.errs + [e])
        case _ => r.(w := World(r.w.p, s'))
  }

  function Run(r: PutRun, es: seq<Event>): PutRun
  {
    if es == [] then r else Step(Run(r, es[..|es| - 1]), es[|es| - 1])
  }

  function EndTime(es: seq<Event>, start: nat): nat { if es == [] then start else es[|es| - 1].at }

  ghost predicate InTime(es: seq<Event>, start: nat)
  {
    es != [] ==> InTime(es[..|es| - 1], start) && EndTime(es[..|es| - 1], start) <= es[|es| - 1].at
  }

  /** Own ids increase and were sent. */
  ghost predicate OwnId(w: World, i: nat)
    requires i < |w.p.inflight|
  {
    w.p.inflight[i] < |w.s.sent| && (i > 0 ==> w.p.inflight[i - 1] < w.p.inflight[i])
  }

  ghost function Replied(w: World): set<u32> { set t | t in w.p.inflight && HasReply(w.s, t) }

  ghost predicate PutOk(r: PutRun, now: nat)
  {
    && SocketOk(r.w.s, now)
    && (forall i :: 0 <= i < |r.w.p.inflight| ==> OwnId(r.w, i))
    && r.w.p.storedAt == r.acks % 256
    && r.w.p.errors == TallyAll(r.errs)
    && r.acks + |r.errs| <= |Replied(r.w)|
  }

  lemma {:induction false} RepliedMonotone(w: World, w': World)
    requires forall t :: t in Replied(w) ==> t in Replied(w')
    ensures |Replied(w)| <= |Replied(w')|
  {
    assert Replied(w) <= Replied(w');
    SubsetSize(Replied(w), Replied(w'));
  }

  /** No more replies than requests. */
  lemma {:induction false} RepliedBound(w: World)
    ensures |Replied(w)| <= |w.p.inflight|
  {
    var own := set t | t in w.p.inflight;
    assert Replied(w) <= own;
    SubsetSize(Replied(w), own);
    MembersBound(w.p.inflight);
  }

  lemma {:induction false} MembersBound<T>(s: seq<T>)
    ensures |set t | t in s| <= |s|
  {
    if s != [] {
      var n := |s| - 1;
      MembersBound(s[..n]);
      assert s == s[..n] + [s[n]];
      assert (set t | t in s) == (set t | t in s[..n]) + {s[n]};
    }
  }

  lemma {:induction false} SendOneKeepsOk(r: PutRun, n: Node, now: nat)
    requires PutOk(r, now) && |r.w.s.sent| < TID_SPACE
    ensures PutOk(r.(w := SendOne(r.w, n, now)), now)
    ensures |SendOne(r.w, n, now).s.sent| <= |r.w.s.sent| + 1
    ensures SendOne(r.w, n, now).p.extraNodes == r.w.p.extraNodes
  {
    if n.token.Some? {
      var w, w', m := r.w, SendOne(r.w, n, now), |r.w.p.inflight|;
      SentKeepsOk(w.s, n.address, Stored(w.s, w.p, n.token.value), now);
      forall i | 0 <= i < |w'.p.inflight| ensures OwnId(w', i) {
        if i < m {
          assert OwnId(w, i);
        } else if m > 0 {
          assert OwnId(w, m - 1);
        }
      }
      forall t | t in Replied(w) ensures t in Replied(w') {
        assert w'.s.replies == w.s.replies;
      }
      RepliedMonotone(w, w');
    }
  }

  lemma {:induction false} SendAllCount(w: World, nodes: seq<Node>, now: nat)
    ensures |w.s.sent| <= |SendAll(w, nodes, now).s.sent|
  {
    if nodes != [] {
      SendAllCount(w, nodes[..|nodes| - 1], now);
    }
  }

  lemma {:induction false} SendAllKeepsOk(r: PutRun, nodes: seq<Node>, now: nat)
    requires PutOk(r, now) && |SendAll(r.w, nodes, now).s.sent| <= TID_SPACE
    ensures PutOk(r.(w := SendAll(r.w, nodes, now)), now)
  {
    if nodes != [] {
      var n := |nodes| - 1;
      var v := SendAll(r.w, nodes[..n], now);
      if nodes[n].token.Some? {
        assert |SendAll(r.w, nodes, now).s.sent| == |v.s.sent| + 1;
      }
      SendAllKeepsOk(r, nodes[..n], now);
      if nodes[n].token.Some? {
        SendOneKeepsOk(r.(w := v), nodes[n], now);
      }
    }
  }

  lemma {:induction false} OtherSocketKeepsOk(r: PutRun, s': Socket, now: nat)
    requires PutOk(r, now) && SocketOk(s', now) && r.w.s.sent <= s'.sent
    requires forall k: int :: HasReply(r.w.s, k) ==> HasReply(s', k)
    ensures PutOk(r.(w := World(r.w.p, s')), now)
  {
    var w' := World(r.w.p, s');
    forall i | 0 <= i < |w'.p.inflight| ensures OwnId(w', i) {
      assert OwnId(r.w, i);
    }
    RepliedMonotone(r.w, w');
  }

  /** One more id of the query has its reply. */
  lemma {:induction false} RepliedGrows(w: World, p': Put, s': Socket, tid: u32)
    requires p'.inflight == w.p.inflight && tid in w.p.inflight && !HasReply(w.s, tid)
    requires forall k: int :: HasReply(s', k) <==> HasReply(w.s, k) || k == tid
    ensures |Replied(World(p', s'))| == |Replied(w)| + 1
  {
    assert Replied(World(p', s')) == Replied(w) + {tid};
  }

  /** A reply that is taken adds one to one of the counters and one to the replied ids. */
  lemma {:induction false} TakenKeepsOk(r: PutRun, r': PutRun, tid: u32, now: nat)
    requires PutOk(r, now) && SocketOk(r'.w.s, now) && r.w.s.sent <= r'.w.s.sent
    requires r'.w.p.inflight == r.w.p.inflight && tid in r.w.p.inflight && !HasReply(r.w.s, tid)
    requires forall k: int :: HasReply(r'.w.s, k) <==> HasReply(r.w.s, k) || k == tid
    requires r'.w.p.storedAt == r'.acks % 256 && r'.w.p.errors == TallyAll(r'.errs)
    requires r'.acks + |r'.errs| <= r.acks + |r.errs| + 1
    ensures PutOk(r', now)
  {
    RepliedGrows(r.w, r'.w.p, r'.w.s, tid);
    forall i | 0 <= i < |r'.w.p.inflight| ensures OwnId(r'.w, i) {
      assert OwnId(r.w, i);
    }
  }

  lemma {:induction false} TallyAppend(errs: seq<ErrorSpecific>, e: ErrorSpecific)
    ensures TallyAll(errs + [e]) == WithError(TallyAll(errs), e)
  {
    assert (errs + [e])[..|errs|] == errs;
  }

  /** What a reply for the query does to its counters and their history. */
  lemma {:induction false} ArriveCounts(r: PutRun, packet: Option<Packet>, now: nat)
    requires IsFor(r.w, packet, now) && r.w.p.storedAt == r.acks % 256 && r.w.p.errors == TallyAll(r.errs)
    ensures var r' := Step(r, Event(now, Arrive(packet)));
      && r'.w.s == Received(r.w.s, packet, now) && r'.w.p.inflight == r.w.p.inflight
      && r'.w.p.storedAt == r'.acks % 256 && r'.w.p.errors == TallyAll(r'.errs)
      && r'.acks + |r'.errs| <= r.acks + |r.errs| + 1
  {
    if packet.value.message.messageType.Error? {
      TallyAppend(r.errs, packet.value.message.messageType.error);
    }
  }

  lemma {:induction false} ArriveKeepsOk(r: PutRun, packet: Option<Packet>, now: nat)
    requires PutOk(r, now)
    ensures PutOk(Step(r, Event(now, Arrive(packet))), now)
  {
    ReceivedKeepsOk(r.w.s, packet, now);
    if IsFor(r.w, packet, now) {
      HandedOnIsNew(r.w.s, packet.value, now);
      ArriveCounts(r, packet, now);
      TakenKeepsOk(r, Step(r, Event(now, Arrive(packet))), packet.value.message.transactionId, now);
    } else {
      OtherArrives(r, packet, now);
    }
  }

  lemma {:induction false} OtherArrives(r: PutRun, packet: Option<Packet>, now: nat)
    requires PutOk(r, now) && SocketOk(Received(r.w.s, packet, now), now)
    ensures PutOk(r.(w := World(r.w.p, Received(r.w.s, packet, now))), now)
  {
    if HandsOn(r.w.s, packet, now) && !packet.value.message.messageType.Request? {
      HandedOnIsNew(r.w.s, packet.value, now);
    } else {
      NoNewReply(r.w.s, packet, now);
    }
    OtherSocketKeepsOk(r, Received(r.w.s, packet, now), now);
  }

  lemma {:induction false} LaterPutIsOk(r: PutRun, now: nat, later: nat)
    requires PutOk(r, now) && now <= later
    ensures PutOk(r, later)
  {
    LaterIsOk(r.w.s, now, later);
  }

  lemma {:induction false} StepKeepsOk(r: PutRun, e: Event)
    requires PutOk(r, e.at) && |Step(r, e).w.s.sent| <= TID_SPACE
    ensures PutOk(Step(r, e), e.at)
  {
    match e.act {
      case StartAct(closest) =>
        if StartResultOf(r.w.p, closest).Started? {
          SendAllKeepsOk(r, closest + r.w.p.extraNodes, e.at);
        }
      case Elsewhere(to, request) =>
        SentKeepsOk(r.w.s, to, request, e.at);
        assert Sent(r.w.s, to, request, e.at).replies == r.w.s.replies;
        OtherSocketKeepsOk(r, Sent(r.w.s, to, request, e.at), e.at);
      case Arrive(packet) =>
        ArriveKeepsOk(r, packet, e.at);
    }
  }

  lemma {:induction false} StepSends(r: PutRun, e: Event)
    ensures |r.w.s.sent| <= |Step(r, e).w.s.sent|
  {
    if e.act.StartAct? {
      SendAllCount(r.w, e.act.closest + r.w.p.extraNodes, e.at);
    }
  }

  lemma {:induction false} RunKeepsOk(r: PutRun, es: seq<Event>, start: nat)
    requires PutOk(r, start) && InTime(es, start) && |Run(r, es).w.s.sent| <= TID_SPACE
    ensures PutOk(Run(r, es), EndTime(es, start))
  {
    if es != [] {
      var n := |es| - 1;
      StepSends(Run(r, es[..n]), es[n]);
      RunKeepsOk(r, es[..n], start);
      LaterPutIsOk(Run(r, es[..n]), EndTime(es[..n], start), es[n].at);
      StepKeepsOk(Run(r, es[..n]), es[n]);
    }
  }

  /** No more was counted than was sent; the acknowledgements are counted exactly up to 255, the errors exactly as
      long as no code came more than 255 times. */
  ghost predicate Balanced(r: PutRun)
  {
    && r.w.p.storedAt as int + Sum(r.w.p.errors) <= |r.w.p.inflight|
    && (r.w.p.storedAt == r.acks <==> r.acks <= 255)
    && TallyOk(r.w.p.errors, r.errs)
  }

  /** The counts are those of the replies exactly as long as none overflows, and then in order. */
  ghost predicate TallyOk(errors: seq<Tally>, replies: seq<ErrorSpecific>)
  {
    && (CountsReplies(errors, replies) <==> NoOverflow(replies))
    && (NoOverflow(replies) ==> DistinctCodes(errors) && NonIncreasing(errors) && Sum(errors) == |replies|)
  }

  lemma {:induction false} TallyBalanced(errs: seq<ErrorSpecific>)
    ensures Sum(TallyAll(errs)) <= |errs| && TallyOk(TallyAll(errs), errs)
  {
    TallyAtMost(errs);
    TallyExactIff(errs);
    if NoOverflow(errs) {
      TallyIsExact(errs);
    }
  }

  lemma {:induction false} OkIsBalanced(r: PutRun, now: nat)
    requires PutOk(r, now)
    ensures Balanced(r)
  {
    RepliedBound(r.w);
    TallyBalanced(r.errs);
    CountsAtMost(r.w.p, r.acks, r.errs, |Replied(r.w)|);
  }

  lemma {:induction false} CountsAtMost(p: Put, acks: nat, errs: seq<ErrorSpecific>, replied: nat)
    requires p.storedAt == acks % 256 && p.errors == TallyAll(errs) && Sum(TallyAll(errs)) <= |errs|
    requires acks + |errs| <= replied <= |p.inflight|
    ensures p.storedAt as int + Sum(p.errors) <= |p.inflight| && (p.storedAt == acks <==> acks <= 255)
  {
  }

  /** Conservation in every run: the acknowledgements and all error counts together never exceed the requests, and
      the counters are exact exactly as long as none overflows. */
  lemma {:induction false} RepliesConserved(r: PutRun, es: seq<Event>, start: nat)
    requires PutOk(r, start) && InTime(es, start) && |Run(r, es).w.s.sent| <= TID_SPACE
    ensures Balanced(Run(r, es))
  {
    RunKeepsOk(r, es, start);
    OkIsBalanced(Run(r, es), EndTime(es, start));
  }

  /** With at most 255 requests none overflows. */
  lemma {:induction false} FewRequests(r: PutRun, now: nat)
    requires PutOk(r, now) && |r.w.p.inflight| <= 255
    ensures r.acks <= 255 && NoOverflow(r.errs)
  {
    RepliedBound(r.w);
  }

  // === What the verdicts mean ===

  ghost predicate Over(w: World, i: nat, later: nat)
    requires i < |w.p.inflight| && w.p.inflight[i] < |w.s.sent|
  {
    HasReply(w.s, w.p.inflight[i]) || Elapsed(w.s.sent[w.p.inflight[i]].at, later) >= w.s.timeout
  }

  ghost predicate AllOver(w: World, later: nat)
  {
    forall i :: 0 <= i < |w.p.inflight| ==> w.p.inflight[i] < |w.s.sent| && Over(w, i, later)
  }

  lemma {:induction false} AllOverIff(r: PutRun, now: nat, later: nat)
    requires PutOk(r, now) && now <= later
    ensures NoneAwaited(r.w.p, r.w.s, later) <==> AllOver(r.w, later)
  {
    forall i | 0 <= i < |r.w.p.inflight|
      ensures OwnId(r.w, i) && (Awaited(r.w.s.inflight, r.w.s.timeout, r.w.p.inflight[i], later)
          <==> !Over(r.w, i, later))
    {
      assert OwnId(r.w, i);
      AwaitedIff(r.w.s, now, later, r.w.p.inflight[i]);
    }
  }

  /** Success: every request of the query got its reply or timed out, and the 8-bit count of the acknowledgements
      is not zero. */
  lemma {:induction false} DoneIff(r: PutRun, now: nat, later: nat)
    requires PutOk(r, now) && now <= later
    ensures TickPut(r.w.p, r.w.s, later) == Done <==> HasStarted(r.w.p) && AllOver(r.w, later) && r.acks % 256 > 0
  {
    AllOverIff(r, now, later);
  }

  /** Rejection while requests are pending: exactly for a mutable put whose leading error is 301 (or 302) and has the
      threshold; below 510 requests, exactly when more than half of the contacted nodes sent it. */
  lemma {:induction false} EarlyRejectionIff(r: PutRun, now: nat, later: nat)
    requires PutOk(r, now) && now <= later && NoOverflow(r.errs)
    requires HasStarted(r.w.p) && !AllOver(r.w, later)
    ensures var t, n := TickPut(r.w.p, r.w.s, later), |r.w.p.inflight|;
      && t in {Pending, Failed(CasFailed), Failed(NotMostRecent)}
      && (t == Failed(CasFailed) <==>
        r.w.p.request.PutMutable? && Leader(r.errs) == Some(301) && CountCode(r.errs, 301) >= Majority(n))
      && (t == Failed(NotMostRecent) <==>
        r.w.p.request.PutMutable? && Leader(r.errs) == Some(302) && CountCode(r.errs, 302) >= Majority(n))
      && (n < 510 ==>
        && (t == Failed(CasFailed) <==> r.w.p.request.PutMutable? && 2 * CountCode(r.errs, 301) > n)
        && (t == Failed(NotMostRecent) <==> r.w.p.request.PutMutable? && 2 * CountCode(r.errs, 302) > n))
  {
    AllOverIff(r, now, later);
    RepliedBound(r.w);
    ThresholdIff(r.errs, |r.w.p.inflight|);
    if |r.w.p.inflight| < 510 {
      MajorityIff(r.errs, |r.w.p.inflight|);
    }
  }

  /** Failure at the end: exactly when the count of acknowledgements is zero. It is a concurrency error exactly when
      the code that reached the highest count first is 301 (or 302); anything else, also error replies of other
      kinds, is reported as a timeout. */
  lemma {:induction false} FinalFailure(r: PutRun, now: nat, later: nat)
    requires PutOk(r, now) && now <= later && NoOverflow(r.errs)
    requires HasStarted(r.w.p) && AllOver(r.w, later)
    ensures var t, none := TickPut(r.w.p, r.w.s, later), r.acks % 256 == 0;
      && (t.Failed? <==> none)
      && (t == Failed(CasFailed) <==> none && Leader(r.errs) == Some(301))
      && (t == Failed(NotMostRecent) <==> none && Leader(r.errs) == Some(302))
      && (t == Failed(Timeout) <==> none && Leader(r.errs) != Some(301) && Leader(r.errs) != Some(302))
  {
    AllOverIff(r, now, later);
    ThresholdIff(r.errs, 0);
    if r.errs != [] {
      FirstIsLeader(r.errs);
    }
  }

  // === What a start sends ===

  /** The nodes that have a token. */
  function Tokened(nodes: seq<Node>): (r: seq<Node>)
    ensures forall n :: n in r <==> n in nodes && n.token.Some?
  {
    if nodes == [] then []
    else
      var n := nodes[|nodes| - 1];
      Tokened(nodes[..|nodes| - 1]) + (if n.token.Some? then [n] else [])
  }

  /** Datagram n + j stores the request at node j with its token. */
  ghost predicate StoresAt(w: World, nodes: seq<Node>, n: nat, m: nat, j: nat, now: nat)
    requires j < |nodes| && n + j < |w.s.sent| && m + j < |w.p.inflight|
  {
    var d := w.s.sent[n + j];
    && d.to == nodes[j].address && d.at == now && w.p.inflight[m + j] == d.tid
    && nodes[j].token.Some? && d.request.requestType == PutRequest(nodes[j].token.value, w.p.request)
  }

  /** A start sends the request to every node with a token, in order, to no other, and notes the ids. */
  lemma {:induction false} SendsToTokened(w: World, nodes: seq<Node>, now: nat)
    ensures var w', k := SendAll(w, nodes, now), |Tokened(nodes)|;
      && w'.p == w.p.(inflight := w'.p.inflight)
      && w.s.sent <= w'.s.sent && |w'.s.sent| == |w.s.sent| + k
      && w.p.inflight <= w'.p.inflight && |w'.p.inflight| == |w.p.inflight| + k
      && forall j :: 0 <= j < k ==> StoresAt(w', Tokened(nodes), |w.s.sent|, |w.p.inflight|, j, now)
  {
    if nodes != [] {
      var n := |nodes| - 1;
      var v, w', ts, ts' := SendAll(w, nodes[..n], now), SendAll(w, nodes, now), Tokened(nodes[..n]), Tokened(nodes);
      SendsToTokened(w, nodes[..n], now);
      forall j | 0 <= j < |ts'| ensures StoresAt(w', ts', |w.s.sent|, |w.p.inflight|, j, now) {
        if j < |ts| {
          assert StoresAt(v, ts, |w.s.sent|, |w.p.inflight|, j, now);
        }
      }
    }
  }

  /** A start that is accepted leaves the query started if and only if some node has a token: otherwise nothing
      is sent and no tick will ever report it. */
  lemma {:induction false} StartsIff(w: World, closest: seq<Node>, now: nat, later: nat)
    requires StartResultOf(w.p, closest).Started?
    ensures var w' := StartPut(w, closest, now);
      && (HasStarted(w'.p) <==> exists n :: n in closest + w.p.extraNodes && n.token.Some?)
      && (!HasStarted(w'.p) ==> w' == w && TickPut(w'.p, w'.s, later) == Pending)
  {
    var nodes := closest + w.p.extraNodes;
    SendsToTokened(w, nodes, now);
    NoTokenNoChange(w, nodes, now);
    assert Tokened(nodes) != [] ==> Tokened(nodes)[0] in Tokened(nodes);
  }

  lemma {:induction false} NoTokenNoChange(w: World, nodes: seq<Node>, now: nat)
    ensures Tokened(nodes) == [] ==> SendAll(w, nodes, now) == w
  {
    if nodes != [] {
      NoTokenNoChange(w, nodes[..|nodes| - 1], now);
    }
  }
}
