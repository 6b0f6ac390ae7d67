/** Runs of the actor loop (rust/mainline/src/dht.rs, `run`) as runs of its node, and where each answer comes from. */
module ActorRuns {
  import opened Bytes
  import opened Ids
  import opened Nodes
  import opened Messages
  import opened Sockets
  import opened Rpcs
  import opened RpcInvariants
  import opened NodeParts
  import opened PutProgress
  import opened Actors
  import opened ActorSafety
  import L = Lookups
  import P = PutQueries
  import V = Servers

  // === The node inside the loop ===

  function OpOf(m: ActorMessage, now: nat): Op
  {
    match m
    case PutMessage(put, _, extra) => DoPut(put, extra, now)
    case GetMessage(get, _) => DoGet(get, now)
    case SeedRouting(nodes) => DoSeed(nodes, now)
  }

  /** What the rounds do to the node, in order. */
  function OpsOf(rs: seq<RoundInput>): seq<Op>
  {
    if rs == [] then []
    else
      var r := rs[|rs| - 1];
      OpsOf(rs[..|rs| - 1]) + (if r.message.Some? then [OpOf(r.message.value, r.tick.now)] else []) + [DoTick(r.tick)]
  }

  lemma {:induction false} RunAppend(cfg: Config, st: State, ops: seq<Op>, op: Op)
    ensures RunNode(cfg, st, ops + [op]) == StepNode(cfg, RunNode(cfg, st, ops), op)
  {
    assert (ops + [op])[..|ops|] == ops;
  }

  lemma {:induction false} MessageNode(cfg: Config, a: Actor, m: ActorMessage, now: nat)
    ensures OnMessage(cfg, a, m, now).node == StepNode(cfg, a.node, OpOf(m, now))
  {
  }

  /** A run of the loop is a run of the node. */
  lemma {:induction false} RunActorIsRunNode(cfg: Config, a: Actor, rs: seq<RoundInput>)
    ensures RunActor(cfg, a, rs).node == RunNode(cfg, a.node, OpsOf(rs))
  {
    if rs != [] {
      var n := |rs| - 1;
      var v, before := RunActor(cfg, a, rs[..n]), OpsOf(rs[..n]);
      RunActorIsRunNode(cfg, a, rs[..n]);
      RoundNode(cfg, v, rs[n].message, rs[n].tick);
      var m := rs[n].message;
      if m.Some? {
        MessageNode(cfg, v, m.value, rs[n].tick.now);
        RunAppend(cfg, a.node, before, OpOf(m.value, rs[n].tick.now));
        RunAppend(cfg, a.node, before + [OpOf(m.value, rs[n].tick.now)], DoTick(rs[n].tick));
      } else {
        assert before + [] == before;
        RunAppend(cfg, a.node, before, DoTick(rs[n].tick));
      }
    }
  }

  /** Whatever a loop over a new node is told, its node is in order after every round. */
  lemma {:induction false} ActorRunInOrder(cfg: Config, own: Id, timeout: nat, random: nat -> Id, serverMode: bool,
      store: V.Store, now: nat, rs: seq<RoundInput>)
    requires V.StoreOk(store)
    ensures var st := NewNode(own, timeout, random, serverMode, store, now);
            InOrder(RunActor(cfg, Actor(st, map[], map[], []), rs).node)
  {
    var st := NewNode(own, timeout, random, serverMode, store, now);
    RunActorIsRunNode(cfg, Actor(st, map[], map[], []), rs);
    NodeRunInOrder(cfg, own, timeout, random, serverMode, store, now, OpsOf(rs));
  }

  // === Where an answer comes from ===

  /** What a put caller is told: the result that was reported for its own target, or the refusal of its own put. */
  ghost predicate PutSourced(answer: Answer, done: DonePuts, calls: map<Caller, Id>)
  {
    answer.PutDone? ==>
      && answer.caller in calls && calls[answer.caller] == answer.target
      && exists k :: 0 <= k < |done| && done[k] == (answer.target, answer.error)
  }

  /** What a get caller is told: a response or the nodes that were reported for its own target. */
  ghost predicate GetSourced(answer: Answer, response: Option<(Id, L.Response)>, done: DoneGets, calls: map<Caller, Id>)
  {
    && (answer.Value? ==> answer.caller in calls && response == Some((calls[answer.caller], answer.response)))
    && (answer.ClosestFound? ==>
      answer.caller in calls && exists k :: 0 <= k < |done| && done[k] == (calls[answer.caller], answer.nodes))
    && (answer.Closed? ==> answer.caller in calls && calls[answer.caller] in IdsOf(done))
  }

  lemma {:induction false} MoreDone<X>(done: seq<(Id, X)>, n: nat, id: Id)
    requires n <= |done| && id in IdsOf(done[..n])
    ensures id in IdsOf(done)
  {
    var k :| 0 <= k < n && done[..n][k].0 == id;
    assert done[k].0 == id;
  }

  lemma {:induction false} PutSourcedLater(answer: Answer, done: DonePuts, n: nat, calls: map<Caller, Id>)
    requires n <= |done| && PutSourced(answer, done[..n], calls)
    ensures PutSourced(answer, done, calls)
  {
    if answer.PutDone? {
      var k :| 0 <= k < n && done[..n][k] == (answer.target, answer.error);
      assert done[k] == (answer.target, answer.error);
    }
  }

  lemma {:induction false} GetSourcedLater(answer: Answer, response: Option<(Id, L.Response)>, done: DoneGets, n: nat,
      calls: map<Caller, Id>)
    requires n <= |done| && GetSourced(answer, response, done[..n], calls)
    ensures GetSourced(answer, response, done, calls)
  {
    if answer.ClosestFound? {
      var k :| 0 <= k < n && done[..n][k] == (calls[answer.caller], answer.nodes);
      assert done[k] == (calls[answer.caller], answer.nodes);
    }
    if answer.Closed? {
      MoreDone(done, n, calls[answer.caller]);
    }
  }

  /** Answers to put callers, each with the result of its own target. */
  ghost predicate PutAnswers(xs: seq<Answer>, done: DonePuts, calls: map<Caller, Id>)
  {
    forall k :: 0 <= k < |xs| ==> xs[k].PutDone? && PutSourced(xs[k], done, calls)
  }

  /** Answers to get callers, each about its own target. */
  ghost predicate GetAnswers(xs: seq<Answer>, response: Option<(Id, L.Response)>, done: DoneGets,
      calls: map<Caller, Id>)
  {
    forall k :: 0 <= k < |xs| ==> !xs[k].PutDone? && GetSourced(xs[k], response, done, calls)
  }

  lemma {:induction false} PutAnswersLater(xs: seq<Answer>, done: DonePuts, n: nat, calls: map<Caller, Id>)
    requires n <= |done| && PutAnswers(xs, done[..n], calls)
    ensures PutAnswers(xs, done, calls)
  {
    forall k | 0 <= k < |xs| ensures PutSourced(xs[k], done, calls) {
      PutSourcedLater(xs[k], done, n, calls);
    }
  }

  lemma {:induction false} GetAnswersLater(xs: seq<Answer>, response: Option<(Id, L.Response)>, done: DoneGets, n: nat,
      calls: map<Caller, Id>)
    requires n <= |done| && GetAnswers(xs, response, done[..n], calls)
    ensures GetAnswers(xs, response, done, calls)
  {
    forall k | 0 <= k < |xs| ensures GetSourced(xs[k], response, done, calls) {
      GetSourcedLater(xs[k], response, done, n, calls);
    }
  }

  lemma {:induction false} OnePutSourced(v: Actor, done: DonePuts, n: nat, calls: map<Caller, Id>)
    requires n < |done| && PutBook(v, calls)
    ensures PutAnswers(EndPut(Listed(v.putSenders, done[n].0), done[n].0, done[n].1), done, calls)
  {
    var id, error := done[n].0, done[n].1;
    var senders := Listed(v.putSenders, id);
    forall k | 0 <= k < |senders| ensures PutSourced(PutDone(senders[k], id, error), done, calls) {
      assert PendingOk(v.putSenders[id], id, PutEnded(v.answers), calls);
      assert senders[k] in senders;
      assert done[n] == (id, error);
    }
  }

  /** Ending puts adds answers to puts only, each with the result of its own target. */
  lemma {:induction false} EndPutsSourced(a: Actor, done: DonePuts, calls: map<Caller, Id>) returns (xs: seq<Answer>)
    requires PutBook(a, calls)
    ensures EndPuts(a, done).answers == a.answers + xs && PutAnswers(xs, done, calls)
  {
    if done == [] {
      xs := [];
    } else {
      var n := |done| - 1;
      var v := EndPuts(a, done[..n]);
      var before := EndPutsSourced(a, done[..n], calls);
      EndPutsBook(a, done[..n], calls);
      OnePutSourced(v, done, n, calls);
      PutAnswersLater(before, done, n, calls);
      xs := before + EndPut(Listed(v.putSenders, done[n].0), done[n].0, done[n].1);
      PutAnswersAppend(before, xs[|before|..], done, calls);
      EndPutsStep(a, done, before);
    }
  }

  lemma {:induction false} PutAnswersAppend(xs: seq<Answer>, ys: seq<Answer>, done: DonePuts, calls: map<Caller, Id>)
    requires PutAnswers(xs, done, calls) && PutAnswers(ys, done, calls)
    ensures PutAnswers(xs + ys, done, calls)
  {
  }

  lemma {:induction false} EndPutsStep(a: Actor, done: DonePuts, xs: seq<Answer>)
    requires done != [] && EndPuts(a, done[..|done| - 1]).answers == a.answers + xs
    ensures var v, last := EndPuts(a, done[..|done| - 1]), done[|done| - 1];
      EndPuts(a, done).answers == a.answers + (xs + EndPut(Listed(v.putSenders, last.0), last.0, last.1))
  {
  }

  lemma {:induction false} EndGetAnswers(senders: seq<GetSender>, nodes: seq<Node>)
    ensures forall k :: 0 <= k < |EndGet(senders, nodes)| ==>
      var x := EndGet(senders, nodes)[k];
      (x.Closed? || (x.ClosestFound? && x.nodes == nodes)) && x.caller in CallersOf(senders)
  {
    if senders != [] {
      var n := |senders| - 1;
      EndGetAnswers(senders[..n], nodes);
      assert CallersOf(senders) == CallersOf(senders[..n]) + [senders[n].caller];
    }
  }

  lemma {:induction false} OneEndSourced(v: Actor, done: DoneGets, n: nat, response: Option<(Id, L.Response)>,
      calls: map<Caller, Id>)
    requires n < |done| && GetBook(v, calls)
    ensures GetAnswers(EndGet(Listed(v.getSenders, done[n].0), done[n].1), response, done, calls)
  {
    var id, nodes := done[n].0, done[n].1;
    var more := EndGet(Listed(v.getSenders, id), nodes);
    EndGetAnswers(Listed(v.getSenders, id), nodes);
    forall k | 0 <= k < |more| ensures !more[k].PutDone? && GetSourced(more[k], response, done, calls) {
      assert PendingOk(GetPending(v.getSenders)[id], id, GetEnded(v.answers), calls);
      assert done[n] == (id, nodes);
    }
  }

  /** Ending gets adds answers to gets only, each with the nodes of its own target. */
  lemma {:induction false} EndGetsSourced(a: Actor, done: DoneGets, response: Option<(Id, L.Response)>,
      calls: map<Caller, Id>) returns (xs: seq<Answer>)
    requires GetBook(a, calls)
    ensures EndGets(a, done).answers == a.answers + xs && GetAnswers(xs, response, done, calls)
  {
    if done == [] {
      xs := [];
    } else {
      var n := |done| - 1;
      var v := EndGets(a, done[..n]);
      var before := EndGetsSourced(a, done[..n], response, calls);
      EndGetsBook(a, done[..n], calls);
      OneEndSourced(v, done, n, response, calls);
      GetAnswersLater(before, response, done, n, calls);
      xs := before + EndGet(Listed(v.getSenders, done[n].0), done[n].1);
      GetAnswersAppend(before, xs[|before|..], response, done, calls);
      EndGetsStep(a, done, before);
    }
  }

  lemma {:induction false} GetAnswersAppend(xs: seq<Answer>, ys: seq<Answer>, response: Option<(Id, L.Response)>,
      done: DoneGets, calls: map<Caller, Id>)
    requires GetAnswers(xs, response, done, calls) && GetAnswers(ys, response, done, calls)
    ensures GetAnswers(xs + ys, response, done, calls)
  {
  }

  lemma {:induction false} EndGetsStep(a: Actor, done: DoneGets, xs: seq<Answer>)
    requires done != [] && EndGets(a, done[..|done| - 1]).answers == a.answers + xs
    ensures var v, last := EndGets(a, done[..|done| - 1]), done[|done| - 1];
      EndGets(a, done).answers == a.answers + (xs + EndGet(Listed(v.getSenders, last.0), last.1))
  {
  }

  lemma {:induction false} BroadcastAnswers(senders: seq<GetSender>, r: L.Response)
    ensures forall k :: 0 <= k < |Broadcast(senders, r)| ==>
      var x := Broadcast(senders, r)[k]; x.Value? && x.response == r && x.caller in CallersOf(senders)
  {
    if senders != [] {
      var n := |senders| - 1;
      BroadcastAnswers(senders[..n], r);
      assert CallersOf(senders) == CallersOf(senders[..n]) + [senders[n].caller];
    }
  }

  /** A response goes to callers of its own target only. */
  lemma {:induction false} RespondedSourced(a: Actor, response: Option<(Id, L.Response)>, done: DoneGets,
      calls: map<Caller, Id>) returns (xs: seq<Answer>)
    requires GetBook(a, calls)
    ensures Responded(a, response).answers == a.answers + xs && GetAnswers(xs, response, done, calls)
  {
    xs := [];
    if response.Some? {
      var (id, r) := response.value;
      xs := Broadcast(Listed(a.getSenders, id), r);
      BroadcastAnswers(Listed(a.getSenders, id), r);
      forall k | 0 <= k < |xs| ensures !xs[k].PutDone? && GetSourced(xs[k], response, done, calls) {
        assert PendingOk(GetPending(a.getSenders)[id], id, GetEnded(a.answers), calls);
      }
    }
  }

  /** The answers beyond the first n say what the report says about the caller's own target. */
  ghost predicate NewAnswers(answers: seq<Answer>, n: nat, report: Rpcs.Report, putCalls: map<Caller, Id>,
      getCalls: map<Caller, Id>)
  {
    forall k :: n <= k < |answers| ==>
      PutSourced(answers[k], report.donePuts, putCalls)
      && GetSourced(answers[k], report.response, report.doneGets, getCalls)
  }

  lemma {:induction false} Joined(before: seq<Answer>, xs: seq<Answer>, ys: seq<Answer>, zs: seq<Answer>,
      report: Rpcs.Report, putCalls: map<Caller, Id>, getCalls: map<Caller, Id>)
    requires GetAnswers(xs, report.response, report.doneGets, getCalls)
    requires GetAnswers(ys, report.response, report.doneGets, getCalls)
    requires PutAnswers(zs, report.donePuts, putCalls)
    ensures NewAnswers(before + xs + ys + zs, |before|, report, putCalls, getCalls)
  {
  }

  /** Handing out a report: what was answered before stays, and every new answer is what the report says about the
      caller's own target. */
  lemma {:induction false} ReportSourced(a: Actor, st: State, report: Rpcs.Report, putCalls: map<Caller, Id>,
      getCalls: map<Caller, Id>)
    requires PutBook(a, putCalls) && GetBook(a, getCalls)
    ensures var v := EndPuts(EndGets(Responded(a.(node := st), report.response), report.doneGets), report.donePuts);
      a.answers <= v.answers && NewAnswers(v.answers, |a.answers|, report, putCalls, getCalls)
  {
    var a0 := a.(node := st);
    var a1 := Responded(a0, report.response);
    var a2 := EndGets(a1, report.doneGets);
    RespondedKeeps(a0, report.response, putCalls, getCalls);
    EndGetsBook(a1, report.doneGets, getCalls);
    var xs := RespondedSourced(a0, report.response, report.doneGets, getCalls);
    var ys := EndGetsSourced(a1, report.doneGets, report.response, getCalls);
    var zs := EndPutsSourced(a2, report.donePuts, putCalls);
    Joined(a.answers, xs, ys, zs, report, putCalls, getCalls);
  }

  /** The answers given while a message is taken: the refusal of a put, or what is known for a get. */
  ghost predicate MessageSourced(cfg: Config, a: Actor, m: Option<ActorMessage>, now: nat, answer: Answer)
  {
    match m
    case Some(PutMessage(put, caller, extra)) =>
      var r := PutStep(cfg, a.node, put, extra, now).1;
      r.PutErr? && answer == PutDone(caller, PutTarget(put), Some(r.error))
    case Some(GetMessage(get, sender)) =>
      && answer.Value? && answer.caller == sender.caller
      && GetAnswer(a.node, get).Some? && answer.response in GetAnswer(a.node, get).value
    case _ => false
  }

  lemma {:induction false} SendEachAnswers(s: GetSender, rs: seq<L.Response>)
    ensures forall k :: 0 <= k < |SendEach(s, rs)| ==>
      var x := SendEach(s, rs)[k]; x.Value? && x.caller == s.caller && x.response in rs
  {
    if rs != [] {
      var n := |rs| - 1;
      SendEachAnswers(s, rs[..n]);
      assert rs == rs[..n] + [rs[n]];
    }
  }

  lemma {:induction false} MessageAnswers(cfg: Config, a: Actor, m: ActorMessage, now: nat)
    ensures var v := OnMessage(cfg, a, m, now);
      a.answers <= v.answers
      && forall k :: |a.answers| <= k < |v.answers| ==> MessageSourced(cfg, a, Some(m), now, v.answers[k])
  {
    match m {
      case PutMessage(put, _, extra) =>
      case GetMessage(get, sender) =>
        var first := GetAnswer(a.node, get);
        if first.Some? {
          SendEachAnswers(sender, first.value);
          var v := OnMessage(cfg, a, m, now);
          forall k | |a.answers| <= k < |v.answers| ensures MessageSourced(cfg, a, Some(m), now, v.answers[k]) {
            assert v.answers[k] == SendEach(sender, first.value)[k - |a.answers|];
          }
        }
      case SeedRouting(_) =>
    }
  }

  function AfterMessage(cfg: Config, a: Actor, r: RoundInput): Actor
  {
    if r.message.Some? then OnMessage(cfg, a, r.message.value, r.tick.now) else a
  }

  /** Every answer of a round is given by its message or says what its report says about the caller's own target. */
  lemma {:induction false} RoundSourced(cfg: Config, a: Actor, r: RoundInput, putCalls: map<Caller, Id>,
      getCalls: map<Caller, Id>)
    requires ActorOk(a, putCalls, getCalls) && NewCaller(r.message, putCalls, getCalls)
    requires !AfterMessage(cfg, a, r).node.crashed
    ensures var v, report := Round(cfg, a, r.message, r.tick), Tick(cfg, AfterMessage(cfg, a, r).node, r.tick).1;
      && a.answers <= v.answers
      && forall k :: |a.answers| <= k < |v.answers| ==>
        MessageSourced(cfg, a, r.message, r.tick.now, v.answers[k])
        || (PutSourced(v.answers[k], report.donePuts, PutCallsAfter(r.message, putCalls))
            && GetSourced(v.answers[k], report.response, report.doneGets, GetCallsAfter(r.message, getCalls)))
  {
    var a1, v := AfterMessage(cfg, a, r), Round(cfg, a, r.message, r.tick);
    var (st, report) := Tick(cfg, a1.node, r.tick);
    MessageOk(cfg, a, r.message, r.tick.now, putCalls, getCalls);
    if r.message.Some? {
      MessageAnswers(cfg, a, r.message.value, r.tick.now);
    }
    ReportSourced(a1, st, report, PutCallsAfter(r.message, putCalls), GetCallsAfter(r.message, getCalls));
    forall k | |a.answers| <= k < |a1.answers| ensures MessageSourced(cfg, a, r.message, r.tick.now, v.answers[k]) {
      assert v.answers[k] == a1.answers[k];
    }
  }

  // === Whole runs ===

  /** Answer k of a run was given in round n. */
  ghost predicate GivenInRound(cfg: Config, a0: Actor, rs: seq<RoundInput>, answer: Answer, n: nat)
    requires n < |rs|
  {
    var a, r := RunActor(cfg, a0, rs[..n]), rs[n];
    var report := Tick(cfg, AfterMessage(cfg, a, r).node, r.tick).1;
    MessageSourced(cfg, a, r.message, r.tick.now, answer)
    || (PutSourced(answer, report.donePuts, PutCalls(rs[..n + 1]))
        && GetSourced(answer, report.response, report.doneGets, GetCalls(rs[..n + 1])))
  }

  lemma {:induction false} GivenInPrefix(cfg: Config, a0: Actor, rs: seq<RoundInput>, m: nat, answer: Answer, n: nat)
    requires n < m <= |rs| && GivenInRound(cfg, a0, rs[..m], answer, n)
    ensures GivenInRound(cfg, a0, rs, answer, n)
  {
    assert rs[..m][..n] == rs[..n] && rs[..m][..n + 1] == rs[..n + 1] && rs[..m][n] == rs[n];
  }

  ghost predicate Given(cfg: Config, a0: Actor, rs: seq<RoundInput>, answer: Answer)
  {
    exists n :: 0 <= n < |rs| && GivenInRound(cfg, a0, rs, answer, n)
  }

  lemma {:induction false} GivenBefore(cfg: Config, a0: Actor, rs: seq<RoundInput>, m: nat, answer: Answer)
    requires m <= |rs| && Given(cfg, a0, rs[..m], answer)
    ensures Given(cfg, a0, rs, answer)
  {
    var n :| 0 <= n < m && GivenInRound(cfg, a0, rs[..m], answer, n);
    GivenInPrefix(cfg, a0, rs, m, answer, n);
  }

  lemma {:induction false} LastRoundSourced(cfg: Config, a0: Actor, rs: seq<RoundInput>, k: nat)
    requires rs != [] && OwnChannels(rs) && !RunActor(cfg, a0, rs).node.crashed
    requires var before := rs[..|rs| - 1];
      && ActorOk(RunActor(cfg, a0, before), PutCalls(before), GetCalls(before))
      && |RunActor(cfg, a0, before).answers| <= k < |RunActor(cfg, a0, rs).answers|
    ensures Given(cfg, a0, rs, RunActor(cfg, a0, rs).answers[k])
  {
    var m := |rs| - 1;
    var a, r := RunActor(cfg, a0, rs[..m]), rs[m];
    NotCrashedBefore(cfg, a, r);
    RoundSourced(cfg, a, r, PutCalls(rs[..m]), GetCalls(rs[..m]));
    assert rs[..m + 1] == rs;
    assert GivenInRound(cfg, a0, rs, RunActor(cfg, a0, rs).answers[k], m);
  }

  lemma {:induction false} AnswersStay(cfg: Config, a0: Actor, rs: seq<RoundInput>)
    requires rs != [] && OwnChannels(rs) && !RunActor(cfg, a0, rs).node.crashed
    requires var before := rs[..|rs| - 1]; ActorOk(RunActor(cfg, a0, before), PutCalls(before), GetCalls(before))
    ensures RunActor(cfg, a0, rs[..|rs| - 1]).answers <= RunActor(cfg, a0, rs).answers
  {
    var m := |rs| - 1;
    NotCrashedBefore(cfg, RunActor(cfg, a0, rs[..m]), rs[m]);
    RoundSourced(cfg, RunActor(cfg, a0, rs[..m]), rs[m], PutCalls(rs[..m]), GetCalls(rs[..m]));
  }

  /** In every run of the loop that has not panicked, whatever any caller was ever told is the refusal of its own put,
      an answer known when it asked, or what the node reported in some round for the target it asked about. */
  lemma {:induction false} EveryAnswerIsSourced(cfg: Config, st: State, rs: seq<RoundInput>)
    requires st.puts == map[] && OwnChannels(rs)
    requires !RunActor(cfg, Actor(st, map[], map[], []), rs).node.crashed
    ensures var a0 := Actor(st, map[], map[], []);
      var answers := RunActor(cfg, a0, rs).answers;
      forall k :: 0 <= k < |answers| ==> Given(cfg, a0, rs, answers[k])
  {
    var a0 := Actor(st, map[], map[], []);
    if rs != [] {
      var m := |rs| - 1;
      var before, answers := RunActor(cfg, a0, rs[..m]).answers, RunActor(cfg, a0, rs).answers;
      RoundCrashes(cfg, RunActor(cfg, a0, rs[..m]), rs[m].message, rs[m].tick);
      EveryAnswerIsSourced(cfg, st, rs[..m]);
      RunIsSafe(cfg, st, rs[..m]);
      AnswersStay(cfg, a0, rs);
      forall k | 0 <= k < |answers| ensures Given(cfg, a0, rs, answers[k]) {
        if k < |before| {
          assert answers[k] == before[k];
          GivenBefore(cfg, a0, rs, m, before[k]);
        } else {
          LastRoundSourced(cfg, a0, rs, k);
        }
      }
    }
  }

  lemma {:induction false} NotCrashedBefore(cfg: Config, a: Actor, r: RoundInput)
    requires !Round(cfg, a, r.message, r.tick).node.crashed
    ensures !AfterMessage(cfg, a, r).node.crashed
  {
    RoundNode(cfg, a, r.message, r.tick);
    TickCrashes(cfg, AfterMessage(cfg, a, r).node, r.tick);
  }
}
