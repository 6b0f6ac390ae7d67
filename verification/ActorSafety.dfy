/** Over every run of the actor loop: no caller is orphaned, and each is answered once. */
module ActorSafety {
  import opened Bytes
  import opened Ids
  import opened Nodes
  import opened Messages
  import opened Rpcs
  import opened RpcInvariants
  import opened PutProgress
  import opened Actors
  import L = Lookups
  import P = PutQueries

  // === A book of callers: each call is pending at its target, or ended, and never twice ===

  ghost predicate NoRepeats(s: seq<Caller>) { forall i, j :: 0 <= i < j < |s| ==> s[i] != s[j] }

  ghost predicate BookOk(pending: map<Id, seq<Caller>>, ended: seq<Caller>, calls: map<Caller, Id>)
  {
    && (forall id :: id in pending ==> PendingOk(pending[id], id, ended, calls))
    && (forall c :: c in calls ==> c in Listed(pending, calls[c]) || c in ended)
    && NoRepeats(ended)
    && (forall c :: c in ended ==> c in calls)
  }

  ghost predicate PendingOk(cs: seq<Caller>, id: Id, ended: seq<Caller>, calls: map<Caller, Id>)
  {
    NoRepeats(cs) && forall c :: c in cs ==> c in calls && calls[c] == id && c !in ended
  }

  lemma {:induction false} Joins(pending: map<Id, seq<Caller>>, ended: seq<Caller>, calls: map<Caller, Id>, id: Id,
      c: Caller)
    requires BookOk(pending, ended, calls) && c !in calls
    ensures BookOk(pending[id := Listed(pending, id) + [c]], ended, calls[c := id])
  {
    var pending', calls' := pending[id := Listed(pending, id) + [c]], calls[c := id];
    forall j | j in pending' ensures PendingOk(pending'[j], j, ended, calls') {
      assert j in pending ==> PendingOk(pending[j], j, ended, calls);
    }
  }

  lemma {:induction false} Refused(pending: map<Id, seq<Caller>>, ended: seq<Caller>, calls: map<Caller, Id>, id: Id,
      c: Caller)
    requires BookOk(pending, ended, calls) && c !in calls
    ensures BookOk(pending, ended + [c], calls[c := id])
  {
    forall j | j in pending ensures PendingOk(pending[j], j, ended + [c], calls[c := id]) {
      assert PendingOk(pending[j], j, ended, calls);
    }
  }

  lemma {:induction false} NoRepeatsConcat(a: seq<Caller>, b: seq<Caller>)
    requires NoRepeats(a) && NoRepeats(b) && forall c :: c in b ==> c !in a
    ensures NoRepeats(a + b)
  {
    var s := a + b;
    forall i, j | 0 <= i < j < |s| ensures s[i] != s[j] {
      if i < |a| && |a| <= j {
        assert s[i] in a && s[j] in b;
      }
    }
  }

  lemma {:induction false} Leaves(pending: map<Id, seq<Caller>>, ended: seq<Caller>, calls: map<Caller, Id>, id: Id)
    requires BookOk(pending, ended, calls)
    ensures BookOk(pending - {id}, ended + Listed(pending, id), calls)
  {
    var pending', ended' := pending - {id}, ended + Listed(pending, id);
    if id in pending {
      assert PendingOk(pending[id], id, ended, calls);
    }
    NoRepeatsConcat(ended, Listed(pending, id));
    forall j | j in pending' ensures PendingOk(pending'[j], j, ended', calls) {
      assert PendingOk(pending[j], j, ended, calls);
    }
  }

  // === The two books of the actor ===

  /** Put callers in the order they were answered. */
  function PutEnded(answers: seq<Answer>): seq<Caller>
  {
    if answers == [] then []
    else PutEnded(answers[..|answers| - 1]) + (if answers[|answers| - 1].PutDone?
        then [answers[|answers| - 1].caller] else [])
  }

  /** Get callers in the order they were let go. */
  function GetEnded(answers: seq<Answer>): seq<Caller>
  {
    if answers == [] then []
    else GetEnded(answers[..|answers| - 1]) + (if answers[|answers| - 1].Closed? then [answers[|answers| - 1].caller]
        else [])
  }

  lemma {:induction false} EndedAppend(a: seq<Answer>, b: seq<Answer>)
    ensures PutEnded(a + b) == PutEnded(a) + PutEnded(b)
    ensures GetEnded(a + b) == GetEnded(a) + GetEnded(b)
  {
    if b == [] {
      assert a + b == a;
    } else {
      var n := |b| - 1;
      assert (a + b)[..|a + b| - 1] == a + b[..n];
      EndedAppend(a, b[..n]);
    }
  }

  function CallersOf(senders: seq<GetSender>): (r: seq<Caller>)
    ensures |r| == |senders|
  {
    seq(|senders|, i requires 0 <= i < |senders| => senders[i].caller)
  }

  function GetPending(m: map<Id, seq<GetSender>>): map<Id, seq<Caller>>
  {
    map id | id in m :: CallersOf(m[id])
  }

  /** Every waiting caller's query is live: no one waits for an answer that cannot come from the report. */
  ghost predicate KeysOk(a: Actor)
  {
    a.putSenders.Keys == a.node.puts.Keys && a.getSenders.Keys <= a.node.queries.Keys
  }

  ghost predicate ActorOk(a: Actor, putCalls: map<Caller, Id>, getCalls: map<Caller, Id>)
  {
    KeysOk(a) && PutBook(a, putCalls) && GetBook(a, getCalls)
  }

  ghost predicate PutBook(a: Actor, calls: map<Caller, Id>) { BookOk(a.putSenders, PutEnded(a.answers), calls) }

  ghost predicate GetBook(a: Actor, calls: map<Caller, Id>)
  {
    BookOk(GetPending(a.getSenders), GetEnded(a.answers), calls)
  }

  // === What goes out ===

  lemma {:induction false} ValuesEndNothing(s: GetSender, senders: seq<GetSender>, rs: seq<L.Response>, r: L.Response)
    ensures PutEnded(SendTo(s, r)) == [] && GetEnded(SendTo(s, r)) == []
  {
    var x := SendTo(s, r);
    if x != [] {
      assert x == [x[0]] && x[..0] == [];
    }
  }

  lemma {:induction false} SendEachEndsNothing(s: GetSender, rs: seq<L.Response>)
    ensures PutEnded(SendEach(s, rs)) == [] && GetEnded(SendEach(s, rs)) == []
  {
    if rs != [] {
      var n := |rs| - 1;
      SendEachEndsNothing(s, rs[..n]);
      ValuesEndNothing(s, [], [], rs[n]);
      EndedAppend(SendEach(s, rs[..n]), SendTo(s, rs[n]));
    }
  }

  lemma {:induction false} BroadcastEndsNothing(senders: seq<GetSender>, r: L.Response)
    ensures PutEnded(Broadcast(senders, r)) == [] && GetEnded(Broadcast(senders, r)) == []
  {
    if senders != [] {
      var n := |senders| - 1;
      BroadcastEndsNothing(senders[..n], r);
      ValuesEndNothing(senders[n], [], [], r);
      EndedAppend(Broadcast(senders[..n], r), SendTo(senders[n], r));
    }
  }

  lemma {:induction false} EndPutEnds(senders: seq<Caller>, id: Id, error: Option<P.PutError>)
    ensures PutEnded(EndPut(senders, id, error)) == senders && GetEnded(EndPut(senders, id, error)) == []
  {
    var all := EndPut(senders, id, error);
    if senders != [] {
      var n := |senders| - 1;
      assert all[..n] == EndPut(senders[..n], id, error);
      EndPutEnds(senders[..n], id, error);
      assert senders == senders[..n] + [senders[n]];
    }
  }

  lemma {:induction false} EndOneEnds(s: GetSender, nodes: seq<Node>)
    ensures PutEnded(EndOne(s, nodes)) == [] && GetEnded(EndOne(s, nodes)) == [s.caller]
  {
    var found: seq<Answer> := if s.kind.ToClosestNodes? then [ClosestFound(s.caller, nodes)] else [];
    var closed := [Closed(s.caller)];
    assert closed[..0] == [];
    if found != [] {
      assert found[..0] == [];
    }
    EndedAppend(found, closed);
  }

  lemma {:induction false} EndGetEnds(senders: seq<GetSender>, nodes: seq<Node>)
    ensures PutEnded(EndGet(senders, nodes)) == [] && GetEnded(EndGet(senders, nodes)) == CallersOf(senders)
  {
    if senders != [] {
      var n := |senders| - 1;
      var before := EndGet(senders[..n], nodes);
      EndGetEnds(senders[..n], nodes);
      EndOneEnds(senders[n], nodes);
      EndedAppend(before, EndOne(senders[n], nodes));
      assert CallersOf(senders) == CallersOf(senders[..n]) + [senders[n].caller];
    }
  }

  // === Ending queries ===

  lemma {:induction false} EndPutsBook(a: Actor, done: DonePuts, putCalls: map<Caller, Id>)
    requires BookOk(a.putSenders, PutEnded(a.answers), putCalls)
    ensures var v := EndPuts(a, done);
      && BookOk(v.putSenders, PutEnded(v.answers), putCalls) && GetEnded(v.answers) == GetEnded(a.answers)
      && v.putSenders.Keys == a.putSenders.Keys - IdsOf(done) && v.getSenders == a.getSenders && v.node == a.node
  {
    if done == [] {
      assert IdsOf(done) == {};
    } else {
      var n := |done| - 1;
      var v, id := EndPuts(a, done[..n]), done[n].0;
      EndPutsBook(a, done[..n], putCalls);
      Leaves(v.putSenders, PutEnded(v.answers), putCalls, id);
      EndPutEnds(Listed(v.putSenders, id), id, done[n].1);
      EndedAppend(v.answers, EndPut(Listed(v.putSenders, id), id, done[n].1));
      IdsLast(done);
    }
  }

  lemma {:induction false} GetPendingWithout(m: map<Id, seq<GetSender>>, id: Id)
    ensures GetPending(m - {id}) == GetPending(m) - {id}
    ensures Listed(GetPending(m), id) == CallersOf(Listed(m, id))
  {
  }

  lemma {:induction false} EndGetsBook(a: Actor, done: DoneGets, getCalls: map<Caller, Id>)
    requires BookOk(GetPending(a.getSenders), GetEnded(a.answers), getCalls)
    ensures var v := EndGets(a, done);
      && BookOk(GetPending(v.getSenders), GetEnded(v.answers), getCalls) && PutEnded(v.answers) == PutEnded(a.answers)
      && v.getSenders.Keys == a.getSenders.Keys - IdsOf(done) && v.putSenders == a.putSenders && v.node == a.node
  {
    if done == [] {
      assert IdsOf(done) == {};
    } else {
      var n := |done| - 1;
      var v, id := EndGets(a, done[..n]), done[n].0;
      EndGetsBook(a, done[..n], getCalls);
      EndGetEnds(Listed(v.getSenders, id), done[n].1);
      GetsLeave(v, EndGets(a, done), id, EndGet(Listed(v.getSenders, id), done[n].1), getCalls);
      IdsLast(done);
    }
  }

  /** The get senders of one target leave the book. */
  lemma {:induction false} GetsLeave(a: Actor, v: Actor, id: Id, more: seq<Answer>, getCalls: map<Caller, Id>)
    requires BookOk(GetPending(a.getSenders), GetEnded(a.answers), getCalls)
    requires v.getSenders == a.getSenders - {id} && v.answers == a.answers + more
    requires GetEnded(more) == CallersOf(Listed(a.getSenders, id)) && PutEnded(more) == []
    ensures BookOk(GetPending(v.getSenders), GetEnded(v.answers), getCalls)
    ensures PutEnded(v.answers) == PutEnded(a.answers)
  {
    GetPendingWithout(a.getSenders, id);
    EndedAppend(a.answers, more);
    Leaves(GetPending(a.getSenders), GetEnded(a.answers), getCalls, id);
  }

  // === Messages ===

  function PutCallsAfter(m: Option<ActorMessage>, calls: map<Caller, Id>): map<Caller, Id>
  {
    match m
    case Some(PutMessage(put, caller, _)) => calls[caller := PutTarget(put)]
    case _ => calls
  }

  function GetCallsAfter(m: Option<ActorMessage>, calls: map<Caller, Id>): map<Caller, Id>
  {
    match m
    case Some(GetMessage(get, sender)) => calls[sender.caller := get.target]
    case _ => calls
  }

  /** A message comes on a channel of its own. */
  predicate NewCaller(m: Option<ActorMessage>, putCalls: map<Caller, Id>, getCalls: map<Caller, Id>)
  {
    match m
    case Some(PutMessage(_, caller, _)) => caller !in putCalls
    case Some(GetMessage(_, sender)) => sender.caller !in getCalls
    case _ => true
  }

  lemma {:induction false} GetPendingJoins(m: map<Id, seq<GetSender>>, id: Id, s: GetSender)
    ensures GetPending(m[id := Listed(m, id) + [s]]) == GetPending(m)[id := Listed(GetPending(m), id) + [s.caller]]
  {
    assert CallersOf(Listed(m, id) + [s]) == CallersOf(Listed(m, id)) + [s.caller];
  }

  lemma {:induction false} PutBookKept(a: Actor, v: Actor, more: seq<Answer>, calls: map<Caller, Id>)
    requires PutBook(a, calls) && v.putSenders == a.putSenders && v.answers == a.answers + more && PutEnded(more) == []
    ensures PutBook(v, calls)
  {
    EndedAppend(a.answers, more);
  }

  lemma {:induction false} GetBookKept(a: Actor, v: Actor, more: seq<Answer>, calls: map<Caller, Id>)
    requires GetBook(a, calls) && v.getSenders == a.getSenders && v.answers == a.answers + more && GetEnded(more) == []
    ensures GetBook(v, calls)
  {
    EndedAppend(a.answers, more);
  }

  /** An accepted put waits, a refused one is answered at once. */
  lemma {:induction false} PutBookAfter(a: Actor, v: Actor, target: Id, caller: Caller, error: Option<P.PutError>,
      calls: map<Caller, Id>)
    requires PutBook(a, calls) && caller !in calls
    requires if error.None? then v.putSenders == a.putSenders[target := Listed(a.putSenders, target) + [caller]]
        && v.answers == a.answers
             else v.putSenders == a.putSenders && v.answers == a.answers + [PutDone(caller, target, error)]
    ensures PutBook(v, calls[caller := target])
  {
    if error.None? {
      Joins(a.putSenders, PutEnded(a.answers), calls, target, caller);
    } else {
      Refused(a.putSenders, PutEnded(a.answers), calls, target, caller);
      assert [PutDone(caller, target, error)][..0] == [];
      EndedAppend(a.answers, [PutDone(caller, target, error)]);
    }
  }

  lemma {:induction false} PutMessageOk(cfg: Config, a: Actor, put: PutRequestSpecific, caller: Caller,
      extra: seq<Node>, now: nat,
                                        putCalls: map<Caller, Id>, getCalls: map<Caller, Id>)
    requires ActorOk(a, putCalls, getCalls) && caller !in putCalls
    ensures var v := OnMessage(cfg, a, PutMessage(put, caller, extra), now);
            !v.node.crashed ==> ActorOk(v, putCalls[caller := PutTarget(put)], getCalls)
  {
    var target, r := PutTarget(put), PutStep(cfg, a.node, put, extra, now).1;
    var v := OnMessage(cfg, a, PutMessage(put, caller, extra), now);
    PutKeys(cfg, a.node, put, extra, now);
    PutCrashes(cfg, a.node, put, extra, now);
    if !r.PutCrash? {
      var error := if r.PutErr? then Some(r.error) else None;
      var more := if r.PutErr? then [PutDone(caller, target, error)] else [];
      PutBookAfter(a, v, target, caller, error, putCalls);
      NoneClosed(more);
      GetBookKept(a, v, more, getCalls);
    }
  }

  lemma {:induction false} NoneClosed(more: seq<Answer>)
    requires forall i :: 0 <= i < |more| ==> !more[i].Closed?
    ensures GetEnded(more) == []
  {
    if more != [] {
      NoneClosed(more[..|more| - 1]);
    }
  }

  lemma {:induction false} PutCrashes(cfg: Config, st: State, put: PutRequestSpecific, extra: seq<Node>, now: nat)
    ensures PutStep(cfg, st, put, extra, now).1.PutCrash? ==> PutStep(cfg, st, put, extra, now).0.crashed
    ensures st.crashed ==> PutStep(cfg, st, put, extra, now).0.crashed
  {
    match ConflictOf(st, put) {
      case Override => FreshEffect(cfg, st.(puts := st.puts - {PutTarget(put)}), put, extra, now);
      case NoConflict => FreshEffect(cfg, st, put, extra, now);
      case _ =>
    }
  }

  lemma {:induction false} GetBookJoins(a: Actor, v: Actor, more: seq<Answer>, id: Id, sender: GetSender,
      calls: map<Caller, Id>)
    requires GetBook(a, calls) && sender.caller !in calls && GetEnded(more) == []
    requires v.getSenders == a.getSenders[id := Listed(a.getSenders, id) + [sender]] && v.answers == a.answers + more
    ensures GetBook(v, calls[sender.caller := id])
  {
    EndedAppend(a.answers, more);
    GetPendingJoins(a.getSenders, id, sender);
    Joins(GetPending(a.getSenders), GetEnded(a.answers), calls, id, sender.caller);
  }

  lemma {:induction false} GetMessageOk(cfg: Config, a: Actor, get: L.GetRequest, sender: GetSender, now: nat,
                                        putCalls: map<Caller, Id>, getCalls: map<Caller, Id>)
    requires ActorOk(a, putCalls, getCalls) && sender.caller !in getCalls
    ensures ActorOk(OnMessage(cfg, a, GetMessage(get, sender), now), putCalls, getCalls[sender.caller := get.target])
  {
    var first, v := GetAnswer(a.node, get), OnMessage(cfg, a, GetMessage(get, sender), now);
    var more := if first.Some? then SendEach(sender, first.value) else [];
    GetEffect(cfg, a.node, get, [], now);
    SendEachEndsNothing(sender, if first.Some? then first.value else []);
    GetBookJoins(a, v, more, get.target, sender, getCalls);
    PutBookKept(a, v, more, putCalls);
  }

  lemma {:induction false} MessageOk(cfg: Config, a: Actor, m: Option<ActorMessage>, now: nat, putCalls: map<Caller,
      Id>, getCalls: map<Caller, Id>)
    requires ActorOk(a, putCalls, getCalls) && NewCaller(m, putCalls, getCalls)
    ensures var v := if m.Some? then OnMessage(cfg, a, m.value, now) else a;
            !v.node.crashed ==> ActorOk(v, PutCallsAfter(m, putCalls), GetCallsAfter(m, getCalls))
  {
    match m {
      case None =>
      case Some(PutMessage(put, caller, extra)) => PutMessageOk(cfg, a, put, caller, extra, now, putCalls, getCalls);
      case Some(GetMessage(get, sender)) => GetMessageOk(cfg, a, get, sender, now, putCalls, getCalls);
      case Some(SeedRouting(nodes)) => SeedOnlyTable(a.node, nodes, now);
    }
  }

  // === Rounds and runs ===

  lemma {:induction false} TickCrashes(cfg: Config, st: State, i: Input)
    ensures st.crashed ==> Tick(cfg, st, i).0.crashed
  {
    var (st1, doneGets) := TickGets(cfg, st, i.getOrder, i.now, i.later);
    TickGetsQuiet(cfg, st, i.getOrder, i.now, i.later);
    CleanGetsEffect(cfg, st1, doneGets, i.votes, i.later);
    AfterCleanup(cfg, st, i);
  }

  lemma {:induction false} MessageCrashes(cfg: Config, a: Actor, m: ActorMessage, now: nat)
    ensures a.node.crashed ==> OnMessage(cfg, a, m, now).node.crashed
  {
    match m {
      case PutMessage(put, _, extra) => PutCrashes(cfg, a.node, put, extra, now);
      case GetMessage(get, _) => GetEffect(cfg, a.node, get, [], now);
      case SeedRouting(nodes) => SeedOnlyTable(a.node, nodes, now);
    }
  }

  lemma {:induction false} RespondedKeeps(a: Actor, response: Option<(Id, L.Response)>, putCalls: map<Caller, Id>,
      getCalls: map<Caller, Id>)
    requires PutBook(a, putCalls) && GetBook(a, getCalls)
    ensures var v := Responded(a, response);
      && PutBook(v, putCalls) && GetBook(v, getCalls)
      && v.node == a.node && v.putSenders == a.putSenders && v.getSenders == a.getSenders
  {
    if response.Some? {
      var (id, r) := response.value;
      var more, v := Broadcast(Listed(a.getSenders, id), r), Responded(a, response);
      BroadcastEndsNothing(Listed(a.getSenders, id), r);
      PutBookKept(a, v, more, putCalls);
      GetBookKept(a, v, more, getCalls);
    }
  }

  lemma {:induction false} ReportOk(a: Actor, st: State, report: Rpcs.Report, putCalls: map<Caller, Id>,
      getCalls: map<Caller, Id>)
    requires ActorOk(a, putCalls, getCalls)
    requires st.puts.Keys == a.node.puts.Keys - IdsOf(report.donePuts)
    requires a.node.queries.Keys - IdsOf(report.doneGets) <= st.queries.Keys
    ensures ActorOk(EndPuts(EndGets(Responded(a.(node := st), report.response), report.doneGets), report.donePuts),
        putCalls, getCalls)
  {
    var a1 := Responded(a.(node := st), report.response);
    RespondedKeeps(a.(node := st), report.response, putCalls, getCalls);
    EndGetsBook(a1, report.doneGets, getCalls);
    EndPutsBook(EndGets(a1, report.doneGets), report.donePuts, putCalls);
  }

  /** One round keeps both books, and at its end every waiting caller has a live query. */
  lemma {:induction false} RoundOk(cfg: Config, a: Actor, m: Option<ActorMessage>, i: Input, putCalls: map<Caller,
      Id>, getCalls: map<Caller, Id>)
    requires ActorOk(a, putCalls, getCalls) && NewCaller(m, putCalls, getCalls) && !Round(cfg, a, m, i).node.crashed
    ensures ActorOk(Round(cfg, a, m, i), PutCallsAfter(m, putCalls), GetCallsAfter(m, getCalls))
  {
    var a1 := if m.Some? then OnMessage(cfg, a, m.value, i.now) else a;
    var (st, report) := Tick(cfg, a1.node, i);
    RoundNode(cfg, a, m, i);
    TickCrashes(cfg, a1.node, i);
    MessageOk(cfg, a, m, i.now, putCalls, getCalls);
    TickKeys(cfg, a1.node, i);
    ReportOk(a1, st, report, PutCallsAfter(m, putCalls), GetCallsAfter(m, getCalls));
  }

  lemma {:induction false} EndGetsKeepsNode(a: Actor, done: DoneGets)
    ensures EndGets(a, done).node == a.node
  {
    if done != [] {
      EndGetsKeepsNode(a, done[..|done| - 1]);
    }
  }

  lemma {:induction false} EndPutsKeepsNode(a: Actor, done: DonePuts)
    ensures EndPuts(a, done).node == a.node
  {
    if done != [] {
      EndPutsKeepsNode(a, done[..|done| - 1]);
    }
  }

  lemma {:induction false} RoundNode(cfg: Config, a: Actor, m: Option<ActorMessage>, i: Input)
    ensures Round(cfg, a, m, i).node == Tick(cfg, (if m.Some? then OnMessage(cfg, a, m.value, i.now) else a).node, i).0
  {
    var a1 := if m.Some? then OnMessage(cfg, a, m.value, i.now) else a;
    var (st, report) := Tick(cfg, a1.node, i);
    var a2 := Responded(a1.(node := st), report.response);
    EndGetsKeepsNode(a2, report.doneGets);
    EndPutsKeepsNode(EndGets(a2, report.doneGets), report.donePuts);
  }

  datatype RoundInput = RoundInput(message: Option<ActorMessage>, tick: Input)

  function RunActor(cfg: Config, a: Actor, rs: seq<RoundInput>): Actor
  {
    if rs == [] then a else Round(cfg, RunActor(cfg, a, rs[..|rs| - 1]), rs[|rs| - 1].message, rs[|rs| - 1].tick)
  }

  function PutCalls(rs: seq<RoundInput>): map<Caller, Id>
  {
    if rs == [] then map[] else PutCallsAfter(rs[|rs| - 1].message, PutCalls(rs[..|rs| - 1]))
  }

  function GetCalls(rs: seq<RoundInput>): map<Caller, Id>
  {
    if rs == [] then map[] else GetCallsAfter(rs[|rs| - 1].message, GetCalls(rs[..|rs| - 1]))
  }

  ghost predicate OwnChannels(rs: seq<RoundInput>)
  {
    rs != [] ==>
      var before := rs[..|rs| - 1];
      OwnChannels(before) && NewCaller(rs[|rs| - 1].message, PutCalls(before), GetCalls(before))
  }

  /** In every run of the loop that has not crashed: the put senders have exactly the targets of the live puts, each
      get sender waits at a live lookup, and every caller of the run is either waiting at its target or was
      answered, exactly once. */
  lemma {:induction false} RunIsSafe(cfg: Config, st: State, rs: seq<RoundInput>)
    requires st.puts == map[] && OwnChannels(rs)
    requires !RunActor(cfg, Actor(st, map[], map[], []), rs).node.crashed
    ensures ActorOk(RunActor(cfg, Actor(st, map[], map[], []), rs), PutCalls(rs), GetCalls(rs))
  {
    var a := Actor(st, map[], map[], []);
    if rs == [] {
      assert GetPending(a.getSenders) == map[];
    } else {
      var n := |rs| - 1;
      var v := RunActor(cfg, a, rs[..n]);
      RoundCrashes(cfg, v, rs[n].message, rs[n].tick);
      RunIsSafe(cfg, st, rs[..n]);
      RoundOk(cfg, v, rs[n].message, rs[n].tick, PutCalls(rs[..n]), GetCalls(rs[..n]));
    }
  }

  lemma {:induction false} RoundCrashes(cfg: Config, a: Actor, m: Option<ActorMessage>, i: Input)
    ensures a.node.crashed ==> Round(cfg, a, m, i).node.crashed
  {
    RoundNode(cfg, a, m, i);
    if m.Some? {
      MessageCrashes(cfg, a, m.value, i.now);
      TickCrashes(cfg, OnMessage(cfg, a, m.value, i.now).node, i);
    } else {
      TickCrashes(cfg, a.node, i);
    }
  }
}
