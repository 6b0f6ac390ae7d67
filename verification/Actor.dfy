/** The actor loop (rust/mainline/src/dht.rs, `run`): callers wait in two maps of senders until the node reports
    their query done. Channels are caller numbers, and what is sent on them is recorded in order. */
module Actors {
  import opened Bytes
  import opened Ids
  import opened Nodes
  import opened Routing
  import opened Messages
  import opened Mutable
  import opened Rpcs
  import opened PutProgress
  import L = Lookups
  import P = PutQueries

  type Caller = nat

  datatype SenderKind = ToClosestNodes | ToPeers | ToMutable | ToImmutable

  datatype GetSender = GetSender(caller: Caller, kind: SenderKind)

  /** What goes out to callers. Dropping a get sender closes its channel. */
  datatype Answer =
    | PutDone(caller: Caller, target: Id, error: Option<P.PutError>)
    | Value(caller: Caller, response: L.Response)
    | ClosestFound(caller: Caller, nodes: seq<Node>)
    | Closed(caller: Caller)

  datatype ActorMessage =
    | PutMessage(put: PutRequestSpecific, putCaller: Caller, extra: seq<Node>)
    | GetMessage(get: L.GetRequest, sender: GetSender)
    | SeedRouting(nodes: seq<Node>)

  datatype Actor = Actor(node: State, putSenders: map<Id, seq<Caller>>, getSenders: map<Id, seq<GetSender>>,
      answers: seq<Answer>)

  /** A response goes to senders of its own kind only. */
  function SendTo(s: GetSender, r: L.Response): seq<Answer>
  {
    match (s.kind, r)
    case (ToPeers, Peers(_)) => [Value(s.caller, r)]
    case (ToMutable, MutableValue(_)) => [Value(s.caller, r)]
    case (ToImmutable, Immutable(_)) => [Value(s.caller, r)]
    case _ => []
  }

  function SendEach(s: GetSender, rs: seq<L.Response>): seq<Answer>
  {
    if rs == [] then [] else SendEach(s, rs[..|rs| - 1]) + SendTo(s, rs[|rs| - 1])
  }

  function Broadcast(senders: seq<GetSender>, r: L.Response): seq<Answer>
  {
    if senders == [] then [] else Broadcast(senders[..|senders| - 1], r) + SendTo(senders[|senders| - 1], r)
  }

  function Listed<T>(m: map<Id, seq<T>>, id: Id): seq<T> { if id in m then m[id] else [] }

  function OnMessage(cfg: Config, a: Actor, m: ActorMessage, now: nat): Actor
  {
    match m
    case PutMessage(put, caller, extra) =>
      var (st, r) := PutStep(cfg, a.node, put, extra, now);
      var target := PutTarget(put);
      (match r
       case PutOk => a.(node := st, putSenders := a.putSenders[target := Listed(a.putSenders, target) + [caller]])
       case PutErr(error) => a.(node := st, answers := a.answers + [PutDone(caller, target, Some(error))])
       case PutCrash => a.(node := st))
    case GetMessage(get, sender) =>
      var first := GetAnswer(a.node, get);
      a.(node := GetStep(cfg, a.node, get, [], now),
         answers := a.answers + (if first.Some? then SendEach(sender, first.value) else []),
         getSenders := a.getSenders[get.target := Listed(a.getSenders, get.target) + [sender]])
    case SeedRouting(nodes) => a.(node := SeedAll(a.node, nodes, now))
  }

  function EndOne(s: GetSender, nodes: seq<Node>): seq<Answer>
  {
    (if s.kind.ToClosestNodes? then [ClosestFound(s.caller, nodes)] else []) + [Closed(s.caller)]
  }

  /** One finished lookup: who asked for the closest nodes gets them, and every sender is dropped. */
  function EndGet(senders: seq<GetSender>, nodes: seq<Node>): seq<Answer>
  {
    if senders == [] then [] else EndGet(senders[..|senders| - 1], nodes) + EndOne(senders[|senders| - 1], nodes)
  }

  function EndGets(a: Actor, done: DoneGets): Actor
  {
    if done == [] then a
    else
      var v, id := EndGets(a, done[..|done| - 1]), done[|done| - 1].0;
      v.(answers := v.answers + EndGet(Listed(v.getSenders, id), done[|done| - 1].1), getSenders := v.getSenders - {id})
  }

  function EndPut(senders: seq<Caller>, id: Id, error: Option<P.PutError>): (r: seq<Answer>)
    ensures |r| == |senders|
  {
    seq(|senders|, i requires 0 <= i < |senders| => PutDone(senders[i], id, error))
  }

  function EndPuts(a: Actor, done: DonePuts): Actor
  {
    if done == [] then a
    else
      var v, id := EndPuts(a, done[..|done| - 1]), done[|done| - 1].0;
      v.(answers := v.answers + EndPut(Listed(v.putSenders, id), id, done[|done| - 1].1),
          putSenders := v.putSenders - {id})
  }

  function Responded(a: Actor, response: Option<(Id, L.Response)>): Actor
  {
    match response
    case None => a
    case Some((id, r)) => a.(answers := a.answers + Broadcast(Listed(a.getSenders, id), r))
  }

  /** One round of the loop: at most one message, one tick, and its report. */
  function Round(cfg: Config, a: Actor, m: Option<ActorMessage>, i: Input): Actor
  {
    var a1 := if m.Some? then OnMessage(cfg, a, m.value, i.now) else a;
    var (st, report) := Tick(cfg, a1.node, i);
    EndPuts(EndGets(Responded(a1.(node := st), report.response), report.doneGets), report.donePuts)
  }

  // === The loop over a mutable actor ===

  class ActorLoop {
    const rpc: Rpc
    var putSenders: map<Id, seq<Caller>>
    var getSenders: map<Id, seq<GetSender>>
    var answers: seq<Answer>

    constructor (rpc: Rpc)
      ensures this.rpc == rpc && putSenders == map[] && getSenders == map[] && answers == []
    {
      this.rpc := rpc;
      putSenders, getSenders, answers := map[], map[], [];
    }

    ghost function Value(): Actor
      reads this, rpc
    {
      Actor(rpc.Value(), putSenders, getSenders, answers)
    }

    method HandlePut(put: PutRequestSpecific, caller: Caller, extra: seq<Node>, now: nat)
      modifies this, rpc
      ensures Value() == OnMessage(rpc.cfg, old(Value()), PutMessage(put, caller, extra), now)
    {
      var r := rpc.Put(put, extra, now);
      var target := PutTarget(put);
      match r {
        case PutOk => putSenders := putSenders[target := Listed(putSenders, target) + [caller]];
        case PutErr(error) => answers := answers + [PutDone(caller, target, Some(error))];
        case PutCrash =>
      }
    }

    method HandleGet(get: L.GetRequest, sender: GetSender, now: nat)
      modifies this, rpc
      ensures Value() == OnMessage(rpc.cfg, old(Value()), GetMessage(get, sender), now)
    {
      var first := rpc.Get(get, [], now);
      if first.Some? {
        SendResponses(sender, first.value);
      }
      getSenders := getSenders[get.target := Listed(getSenders, get.target) + [sender]];
    }

    method SendResponses(sender: GetSender, rs: seq<L.Response>)
      modifies this`answers
      ensures answers == old(answers) + SendEach(sender, rs)
    {
      for k := 0 to |rs|
        invariant answers == old(answers) + SendEach(sender, rs[..k])
      {
        assert rs[..k + 1][..k] == rs[..k];
        answers := answers + SendTo(sender, rs[k]);
      }
      assert rs[..|rs|] == rs;
    }

    method HandleSeed(nodes: seq<Node>, now: nat)
      modifies this, rpc
      ensures Value() == OnMessage(rpc.cfg, old(Value()), SeedRouting(nodes), now)
    {
      for k := 0 to |nodes|
        invariant rpc.Value() == SeedAll(old(rpc.Value()), nodes[..k], now)
        invariant answers == old(answers) && putSenders == old(putSenders) && getSenders == old(getSenders)
      {
        assert nodes[..k + 1][..k] == nodes[..k];
        rpc.routingTable := TableAdd(rpc.id, rpc.routingTable, nodes[k], now).0;
      }
      assert nodes[..|nodes|] == nodes;
    }

    method FinishGets(done: DoneGets)
      modifies this
      ensures Value() == EndGets(old(Value()), done)
    {
      for k := 0 to |done|
        invariant Value() == EndGets(old(Value()), done[..k])
      {
        assert done[..k + 1][..k] == done[..k];
        var senders := Listed(getSenders, done[k].0);
        FinishGet(senders, done[k].1);
        getSenders := getSenders - {done[k].0};
      }
      assert done[..|done|] == done;
    }

    method FinishGet(senders: seq<GetSender>, nodes: seq<Node>)
      modifies this`answers
      ensures answers == old(answers) + EndGet(senders, nodes)
    {
      for j := 0 to |senders|
        invariant answers == old(answers) + EndGet(senders[..j], nodes)
      {
        assert senders[..j + 1][..j] == senders[..j];
        ghost var before := answers;
        if senders[j].kind.ToClosestNodes? {
          answers := answers + [ClosestFound(senders[j].caller, nodes)];
        }
        answers := answers + [Closed(senders[j].caller)];
        assert answers == before + EndOne(senders[j], nodes);
      }
      assert senders[..|senders|] == senders;
    }

    method FinishPuts(done: DonePuts)
      modifies this
      ensures Value() == EndPuts(old(Value()), done)
    {
      for k := 0 to |done|
        invariant Value() == EndPuts(old(Value()), done[..k])
      {
        assert done[..k + 1][..k] == done[..k];
        var (id, error) := done[k];
        FinishPut(Listed(putSenders, id), id, error);
        putSenders := putSenders - {id};
      }
      assert done[..|done|] == done;
    }

    method FinishPut(senders: seq<Caller>, id: Id, error: Option<P.PutError>)
      modifies this`answers
      ensures answers == old(answers) + EndPut(senders, id, error)
    {
      for j := 0 to |senders|
        invariant answers == old(answers) + EndPut(senders, id, error)[..j]
      {
        answers := answers + [PutDone(senders[j], id, error)];
      }
    }

    method OneRound(m: Option<ActorMessage>, i: Input)
      modifies this, rpc
      ensures Value() == Round(rpc.cfg, old(Value()), m, i)
    {
      match m {
        case None =>
        case Some(PutMessage(put, caller, extra)) => HandlePut(put, caller, extra, i.now);
        case Some(GetMessage(get, sender)) => HandleGet(get, sender, i.now);
        case Some(SeedRouting(nodes)) => HandleSeed(nodes, i.now);
      }
      var report := rpc.TickAll(i);
      Report(report.response);
      FinishGets(report.doneGets);
      FinishPuts(report.donePuts);
    }

    method Report(response: Option<(Id, L.Response)>)
      modifies this`answers
      ensures Value() == Responded(old(Value()), response)
    {
      if response.Some? {
        var (id, r) := response.value;
        var senders := Listed(getSenders, id);
        for j := 0 to |senders|
          invariant answers == old(answers) + Broadcast(senders[..j], r)
        {
          assert senders[..j + 1][..j] == senders[..j];
          answers := answers + SendTo(senders[j], r);
        }
        assert senders[..|senders|] == senders;
      }
    }
  }
}
