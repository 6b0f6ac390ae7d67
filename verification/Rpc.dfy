/** The node behind the actor (rust/mainline/src/rpc.rs): lookups and puts by target over one socket, the cache
    of finished lookups, maintenance, and the handling of one packet per tick. The parts it owns are values here;
    the orders in which hash maps are walked are inputs. */
module Rpcs {
  import opened Bytes
  import opened Ids
  import opened Nodes
  import opened SortedLists
  import opened Closest
  import opened Routing
  import opened Messages
  import opened Mutable
  import opened Sockets
  import opened Lrus
  import opened QueryCaches
  import L = Lookups
  import P = PutQueries
  import V = Servers

  const REFRESH_TABLE_INTERVAL := 15 * 60 * 1000
  const PING_TABLE_INTERVAL := 5 * 60 * 1000
  const MIN_PING_BACKOFF_INTERVAL := 10 * 1000

  /** What does not change: the bootstrap addresses, the server's environment, and the two floating-point
      functions of the size estimate. */
  datatype Config = Config(bootstrap: seq<SocketAddr>, env: V.Env, expectedDk: nat -> nat,
      estimate: (Id, seq<Node>) -> real)

  datatype State = State(own: Id, table: Buckets, socket: Socket, queries: map<Id, L.Lookup>, puts: map<Id, P.Put>,
    stats: Stats, publicAddress: Option<SocketAddr>, firewalled: bool, lastRefresh: nat, lastPing: nat,
    store: V.Store, crashed: bool)

  function RespondersEstimate(stats: Stats): nat
  {
    (if stats.respondersSum <= 0.0 then 0 else stats.respondersSum.Floor) / (if stats.respondersCount < 1 then 1
        else stats.respondersCount)
  }

  function AverageSubnets(stats: Stats): nat
  {
    (if stats.subnetsSum < 0 then 0 else stats.subnetsSum) / (if |stats.items| == 0 then 1 else |stats.items|)
  }

  function TakenSecurely(cfg: Config, stats: Stats, target: Id, nodes: seq<Node>): seq<Node>
  {
    UntilSecure(target, nodes, (cfg.expectedDk)(RespondersEstimate(stats)), AverageSubnets(stats))
  }

  /** `closest_secure`. */
  function ClosestSecure(cfg: Config, st: State, target: Id): seq<Node>
  {
    TakenSecurely(cfg, st.stats, target, AddedAll(KeyOf(target), Excludes, [], AllNodes(st.table)))
  }

  // === get ===

  /** The item of a mutable put in flight on the target. */
  function PendingItem(st: State, target: Id): seq<L.Response>
  {
    if target in st.puts && st.puts[target].request.PutMutable?
        then [L.MutableValue(ToItem(st.puts[target].request))] else []
  }

  function CachedNodes(st: State, target: Id): seq<Node>
  {
    match Find(st.stats.items, target)
    case None => []
    case Some(c) => c.closestResponding
  }

  function ReadCache(st: State, target: Id): State { st.(stats := st.stats.(items := Touched(st.stats.items, target))) }

  /** A new lookup: it visits the bootstrap and extra addresses, takes its candidates from the table and the
      cache, and starts. */
  function StartLookup(cfg: Config, st: State, request: L.GetRequest, extra: seq<SocketAddr>, now: nat): L.World
  {
    var near := ClosestSecure(cfg, st, request.target);
    var calls := (if near == [] || |near| < |cfg.bootstrap| then cfg.bootstrap else []) + extra;
    var w := L.VisitAll(L.World(L.NewLookup(st.own, request.target, request), st.socket), calls, now);
    var q := L.WithCandidates(w.q, near + CachedNodes(st, request.target));
    L.ClosestVisited(L.World(q, w.s), now)
  }

  function GetStep(cfg: Config, st: State, request: L.GetRequest, extra: seq<SocketAddr>, now: nat): State
  {
    var target := request.target;
    if target in st.queries then st
    else
      var w := StartLookup(cfg, st, request, extra, now);
      ReadCache(st, target).(queries := st.queries[target := w.q], socket := w.s)
  }

  function GetAnswer(st: State, request: L.GetRequest): Option<seq<L.Response>>
  {
    var pending := PendingItem(st, request.target);
    if request.target in st.queries then Some(st.queries[request.target].responses + pending)
    else if pending == [] then None else Some(pending)
  }

  // === put ===

  datatype Conflict = NoConflict | SameItem | Override | Conflicting(error: P.PutError)

  function ConflictOf(st: State, request: PutRequestSpecific): Conflict
  {
    var target := PutTarget(request);
    if !request.PutMutable? || target !in st.puts || !st.puts[target].request.PutMutable? then NoConflict
    else
      var inflight := st.puts[target].request;
      if request.sig == inflight.sig then SameItem
      else if request.seqNo < inflight.seqNo then Conflicting(P.NotMostRecent)
      else if request.cas.None? then Conflicting(P.ConflictRisk)
      else if request.cas.value == inflight.seqNo then Override
      else Conflicting(P.CasFailed)
  }

  /** Cached nodes are used when one of them was seen in the last five minutes; their tokens are not looked at. */
  predicate UsesCache(st: State, target: Id, now: nat)
  {
    exists i :: 0 <= i < |CachedNodes(st, target)| && ValidToken(CachedNodes(st, target)[i], now)
  }

  datatype PutResult = PutOk | PutErr(error: P.PutError) | PutCrash

  function SaltOf(request: PutRequestSpecific): Option<seq<byte>> { if request.PutMutable? then request.salt else None }

  function PutStep(cfg: Config, st: State, request: PutRequestSpecific, extra: seq<Node>, now: nat): (State, PutResult)
  {
    match ConflictOf(st, request)
    case SameItem => (st, PutOk)
    case Conflicting(error) => (st, PutErr(error))
    case Override => PutFresh(cfg, st.(puts := st.puts - {PutTarget(request)}), request, extra, now)
    case NoConflict => PutFresh(cfg, st, request, extra, now)
  }

  /** Start at once at the cached nodes. */
  function PutAtCached(st: State, p: P.Put, nodes: seq<Node>, now: nat): (State, PutResult)
  {
    match P.StartResultOf(p, nodes)
    case NotStarted(error) => (st, PutErr(error))
    case Panicked => (st.(crashed := true), PutCrash)
    case Started =>
      var w := P.StartPut(P.World(p, st.socket), nodes, now);
      (st.(puts := st.puts[p.target := w.p], socket := w.s), PutOk)
  }

  /** Wait for a value lookup, unless some lookup of the target is active. */
  function PutAfterLookup(cfg: Config, st: State, p: P.Put, now: nat): State
  {
    var st1 := GetStep(cfg, st, L.GetValue(p.target, None, SaltOf(p.request)), [], now);
    st1.(puts := st1.puts[p.target := p])
  }

  /** After the conflict check. */
  function PutFresh(cfg: Config, st: State, request: PutRequestSpecific, extra: seq<Node>, now: nat): (State, PutResult)
  {
    var target := PutTarget(request);
    var p := P.NewPut(target, request, extra);
    if UsesCache(st, target, now) then PutAtCached(ReadCache(st, target), p, CachedNodes(st, target), now)
    else (PutAfterLookup(cfg, ReadCache(st, target), p, now), PutOk)
  }

  // === Seeding ===

  /** Nodes that a caller adds to the table. */
  function SeedAll(st: State, nodes: seq<Node>, now: nat): State
  {
    if nodes == [] then st
    else
      var st1 := SeedAll(st, nodes[..|nodes| - 1], now);
      st1.(table := TableAdd(st1.own, st1.table, nodes[|nodes| - 1], now).0)
  }

  // === tick ===

  type DonePuts = seq<(Id, Option<P.PutError>)>
  type DoneGets = seq<(Id, seq<Node>)>

  function TickOnePut(st: State, id: Id, now: nat): DonePuts
  {
    if id !in st.puts then []
    else
      match P.TickPut(st.puts[id], st.socket, now)
      case Pending => []
      case Done => [(id, None)]
      case Failed(error) => [(id, Some(error))]
  }

  function TickPuts(st: State, order: seq<Id>, now: nat): DonePuts
  {
    if order == [] then [] else TickPuts(st, order[..|order| - 1], now) + TickOnePut(st, order[|order| - 1], now)
  }

  predicate IsFindNode(q: L.Lookup) { q.request.requestType.FindNodeRequest? }

  /** The nodes a finished lookup reports. */
  function ClosestReported(cfg: Config, stats: Stats, q: L.Lookup): seq<Node>
  {
    if IsFindNode(q) then L.FirstNodes(q.closest) else TakenSecurely(cfg, stats, q.target, q.responders)
  }

  function TickOneGet(cfg: Config, st: State, id: Id, now: nat, later: nat): (State, DoneGets)
  {
    if id !in st.queries then (st, [])
    else
      var w := L.ClosestVisited(L.World(st.queries[id], st.socket), now);
      (st.(queries := st.queries[id := w.q], socket := w.s),
       if L.NoneAwaited(w.q, w.s, later) then [(id, ClosestReported(cfg, st.stats, w.q))] else [])
  }

  function TickGets(cfg: Config, st: State, order: seq<Id>, now: nat, later: nat): (State, DoneGets)
  {
    if order == [] then (st, [])
    else
      var (st1, done1) := TickGets(cfg, st, order[..|order| - 1], now, later);
      var (st2, done2) := TickOneGet(cfg, st1, order[|order| - 1], now, later);
      (st2, done1 + done2)
  }

  /** The first address in the walk with the most votes. */
  function BestAddress(votes: map<SocketAddr, u16>, order: seq<SocketAddr>): Option<SocketAddr>
  {
    if order == [] then None
    else
      var best, a := BestAddress(votes, order[..|order| - 1]), order[|order| - 1];
      if a in votes && votes[a] > (if best.Some? && best.value in votes then votes[best.value] else 0) then Some(a)
          else best
  }

  function PingTo(st: State, to: SocketAddr, now: nat): State
  {
    st.(socket := Sent(st.socket, to, RequestSpecific(st.own, PingRequest), now))
  }

  function UpdateAddress(st: State, best: Option<SocketAddr>, now: nat): State
  {
    match best
    case None => st
    case Some(a) =>
      (if st.publicAddress != Some(a) then PingTo(st.(firewalled := true), a, now) else st).(publicAddress := Some(a))
  }

  function CacheEntry(cfg: Config, q: L.Lookup, nodes: seq<Node>): Option<Cached>
  {
    if q.closest == [] then None
    else Some(Cached(nodes, (cfg.estimate)(q.target, q.closest), (cfg.estimate)(q.target, q.responders),
        CountSubnets(q.closest), IsFindNode(q)))
  }

  /** One finished lookup leaves: its votes and nodes are kept. */
  function LookupLeaves(cfg: Config, st: State, id: Id, nodes: seq<Node>, order: seq<SocketAddr>, now: nat): State
    requires id in st.queries
  {
    var q := st.queries[id];
    var st1 := UpdateAddress(st.(queries := st.queries - {id}), BestAddress(q.votes, order), now);
    st1.(stats := CacheQuery(st1.stats, q.target, CacheEntry(cfg, q, nodes)))
  }

  /** The put that waited for the lookup starts. */
  function WaitingPutStarts(st: State, id: Id, nodes: seq<Node>, now: nat): (State, DonePuts)
    requires id in st.puts
  {
    match P.StartResultOf(st.puts[id], nodes)
    case NotStarted(error) => (st, [(id, Some(error))])
    case Panicked => (st.(crashed := true), [])
    case Started =>
      var w := P.StartPut(P.World(st.puts[id], st.socket), nodes, now);
      (st.(puts := st.puts[id := w.p], socket := w.s), [])
  }

  function CleanOne(cfg: Config, st: State, id: Id, nodes: seq<Node>, order: seq<SocketAddr>, now: nat): (State,
      DonePuts)
  {
    if id !in st.queries then (st, [])
    else
      var st1 := LookupLeaves(cfg, st, id, nodes, order, now);
      if IsFindNode(st.queries[id]) || id !in st1.puts || P.HasStarted(st1.puts[id]) then (st1, [])
      else WaitingPutStarts(st1, id, nodes, now)
  }

  function CleanGets(cfg: Config, st: State, done: DoneGets, votes: Id -> seq<SocketAddr>, now: nat): (State, DonePuts)
  {
    if done == [] then (st, [])
    else
      var n := |done| - 1;
      var (st1, failed1) := CleanGets(cfg, st, done[..n], votes, now);
      var (st2, failed2) := CleanOne(cfg, st1, done[n].0, done[n].1, votes(done[n].0), now);
      (st2, failed1 + failed2)
  }

  function IdsOf<X>(done: seq<(Id, X)>): set<Id> { set i | 0 <= i < |done| :: done[i].0 }

  /** `cleanup_done_queries`. */
  function Cleanup(cfg: Config, st: State, doneGets: DoneGets, donePuts: DonePuts, votes: Id -> seq<SocketAddr>,
      now: nat): (State, DonePuts)
  {
    var (st1, failed) := CleanGets(cfg, st, doneGets, votes, now);
    var all := donePuts + failed;
    (st1.(puts := st1.puts - IdsOf(all)), all)
  }

  // === Maintenance ===

  predicate ShouldPing(n: Node, now: nat) { Elapsed(n.lastSeen, now) > MIN_PING_BACKOFF_INTERVAL }

  function PingAndPurge(st: State, nodes: seq<Node>, now: nat): State
  {
    if nodes == [] then st
    else
      var st1, n := PingAndPurge(st, nodes[..|nodes| - 1], now), nodes[|nodes| - 1];
      if IsStale(n, now) then st1.(table := TableRemove(st1.own, st1.table, n.id))
      else if ShouldPing(n, now) then PingTo(st1, n.address, now)
      else st1
  }

  predicate TableIsEmpty(table: Buckets) { forall d :: d in table ==> table[d] == [] }

  function Populate(cfg: Config, st: State, now: nat): State
  {
    var st1 := st.(lastRefresh := now);
    if cfg.bootstrap == [] then st1 else GetStep(cfg, st1, L.FindNode(st.own), [], now)
  }

  function Maintain(cfg: Config, st: State, now: nat): State
  {
    var refresh := Elapsed(st.lastRefresh, now) >= REFRESH_TABLE_INTERVAL;
    var populate := TableIsEmpty(st.table) || refresh;
    var st1 := if refresh && !st.firewalled then st.(socket := st.socket.(serverMode := true)) else st;
    var st2 := if Elapsed(st.lastPing, now) >= PING_TABLE_INTERVAL
        then PingAndPurge(st1.(lastPing := now), AllNodes(st1.table), now) else st1;
    if populate then Populate(cfg, st2, now) else st2
  }

  // === One packet ===

  function DirectoryOf(st: State): V.Directory
  {
    var table := st.table;
    V.Directory(st.own, (target: Id) => ClosestTo(table, target))
  }

  /** The very first node of a network learns of others from their requests. */
  function Seeded(cfg: Config, st: State, from: SocketAddr, r: RequestSpecific, now: nat): State
  {
    if cfg.bootstrap == [] && r.requestType.FindNodeRequest?
    then st.(table := TableAdd(st.own, st.table, Node(r.requestType.target, from, None, now), now).0) else st
  }

  function Served(cfg: Config, st: State, from: SocketAddr, r: RequestSpecific, now: nat, secret: seq<byte>): State
  {
    if st.socket.serverMode then st.(store := V.Handle(st.store, cfg.env, DirectoryOf(st), from, r, now, secret).0)
        else st
  }

  /** A ping from the own public address: not firewalled, and a new id where the old one does not fit the address. */
  function SelfPinged(cfg: Config, st: State, from: SocketAddr, r: RequestSpecific, now: nat, newId: Id): State
  {
    if st.publicAddress != Some(from) || !r.requestType.PingRequest? then st
    else if IsValidForIp(st.own, from.ip) then st.(firewalled := false)
    else GetStep(cfg, st.(firewalled := false), L.FindNode(newId), [], now).(own := newId, table := map[])
  }

  function OnRequest(cfg: Config, st: State, from: SocketAddr, r: RequestSpecific, now: nat, secret: seq<byte>,
      newId: Id): State
  {
    SelfPinged(cfg, Served(cfg, Seeded(cfg, st, from, r, now), from, r, now, secret), from, r, now, newId)
  }

  /** The first map entry in the walk that owns the id. */
  function OwnerOf(ids: map<Id, seq<u32>>, order: seq<Id>, tid: u32): (owner: Option<Id>)
    ensures owner.Some? ==> owner.value in ids && tid in ids[owner.value]
  {
    if order == [] then None
    else if order[0] in ids && tid in ids[order[0]] then Some(order[0])
    else OwnerOf(ids, order[1..], tid)
  }

  function PutIds(st: State): map<Id, seq<u32>> { map id | id in st.puts :: st.puts[id].inflight }

  function QueryIds(st: State): map<Id, seq<u32>> { map id | id in st.queries :: st.queries[id].inflight }

  function PutReply(p: P.Put, t: MessageType): P.Put
  {
    match t
    case Response(PingResponse(_)) => p.(storedAt := (p.storedAt as int + 1) % 256)
    case Error(e) => p.(errors := P.WithError(p.errors, e))
    case _ => p
  }

  /** What a lookup keeps of any response: nodes, the responder's token, the address vote. */
  function Noted(q: L.Lookup, m: Message, from: SocketAddr, now: nat): L.Lookup
  {
    var q1 := match CloserNodes(m) case None => q case Some(ns) => L.WithCandidates(q, ns);
    var q2 := match TokenOf(m) case None => q1 case Some((id, token)) => L.WithResponder(q1,
        Node(id, from, Some(token), now));
    match m.requesterIp case None => q2 case Some(a) => L.WithVote(q2, a)
  }

  /** The value a response brings, if it is one and it checks. */
  function ValueOf(cfg: Config, q: L.Lookup, t: MessageType): Option<L.Response>
  {
    match t
    case Response(GetPeersResponse(_, _, _, values)) => Some(L.Peers(values))
    case Response(GetImmutableResponse(_, _, _, v)) => if V.ValidImmutable(cfg.env, v, q.target)
        then Some(L.Immutable(v)) else None
    case Response(GetMutableResponse(_, _, _, v, k, seqNo, sig)) =>
      var salt := if q.request.requestType.GetValueRequest? then q.request.requestType.salt else None;
      (match FromDhtMessage(cfg.env.scheme, q.target, k, v, seqNo, sig, salt)
       case Accepted(item) => Some(L.MutableValue(item))
       case Refused(_) => None)
    case _ => None
  }

  function WithNode(st: State, id: Option<Id>, from: SocketAddr, now: nat): State
  {
    if id.None? then st else st.(table := TableAdd(st.own, st.table, Node(id.value, from, None, now), now).0)
  }

  function PutTakes(st: State, id: Id, t: MessageType): State
    requires id in st.puts
  {
    st.(puts := st.puts[id := PutReply(st.puts[id], t)])
  }

  /** A lookup takes a response; one that brings a value is reported and its sender not added to the table. */
  function QueryTakes(cfg: Config, st: State, id: Id, from: SocketAddr, m: Message, now: nat): (State,
      Option<(Id, L.Response)>)
    requires id in st.queries
  {
    var q := Noted(st.queries[id], m, from, now);
    match ValueOf(cfg, q, m.messageType)
    case Some(v) => (st.(queries := st.queries[id := L.WithResponse(q, v)]), Some((q.target, v)))
    case None => (WithNode(st.(queries := st.queries[id := q]), AuthorId(m), from, now), None)
  }

  function OnResponse(cfg: Config, st: State, from: SocketAddr, m: Message, putOrder: seq<Id>, getOrder: seq<Id>,
      now: nat): (State, Option<(Id, L.Response)>)
  {
    if m.readOnly then (st, None)
    else
      match OwnerOf(PutIds(st), putOrder, m.transactionId)
      case Some(id) => (PutTakes(st, id, m.messageType), None)
      case None =>
        match OwnerOf(QueryIds(st), getOrder, m.transactionId)
        case Some(id) => QueryTakes(cfg, st, id, from, m, now)
        case None => (st, None)
  }

  /** The inputs of one tick. */
  datatype Input = Input(now: nat, later: nat, putOrder: seq<Id>, getOrder: seq<Id>, votes: Id -> seq<SocketAddr>,
                         packet: Option<Packet>, secret: seq<byte>, newId: Id)

  function HandleMessage(cfg: Config, st: State, i: Input): (State, Option<(Id, L.Response)>)
  {
    var st1 := st.(socket := Received(st.socket, i.packet, i.later));
    if !HandsOn(st.socket, i.packet, i.later) then (st1, None)
    else
      var p := i.packet.value;
      if p.message.messageType.Request?
      then (OnRequest(cfg, st1, p.from, p.message.messageType.request, i.later, i.secret, i.newId), None)
      else OnResponse(cfg, st1, p.from, p.message, i.putOrder, i.getOrder, i.later)
  }

  datatype Report = Report(doneGets: DoneGets, donePuts: DonePuts, response: Option<(Id, L.Response)>)

  function Tick(cfg: Config, st: State, i: Input): (State, Report)
  {
    var donePuts := TickPuts(st, i.putOrder, i.now);
    var (st1, doneGets) := TickGets(cfg, st, i.getOrder, i.now, i.later);
    var (st2, allPuts) := Cleanup(cfg, st1, doneGets, donePuts, i.votes, i.later);
    var st3 := Maintain(cfg, st2, i.later);
    var (st4, response) := HandleMessage(cfg, st3, i);
    (st4, Report(doneGets, allPuts, response))
  }

  // === The node as a mutable object ===

  class Rpc {
    const cfg: Config
    var id: Id
    var routingTable: Buckets
    var socket: Socket
    var iterativeQueries: map<Id, L.Lookup>
    var putQueries: map<Id, P.Put>
    var cache: Stats
    var publicAddress: Option<SocketAddr>
    var firewalled: bool
    var lastTableRefresh: nat
    var lastTablePing: nat
    var server: V.Store
    var crashed: bool

    function Value(): State
      reads this
    {
      State(id, routingTable, socket, iterativeQueries, putQueries, cache, publicAddress, firewalled,
        lastTableRefresh, lastTablePing, server, crashed)
    }

    constructor (cfg: Config, id: Id, socket: Socket, server: V.Store, now: nat)
      ensures Value() == State(id, map[], socket, map[], map[], NewStats(), None, true, now, now, server, false)
          && this.cfg == cfg
    {
      this.cfg, this.id, this.socket, this.server := cfg, id, socket, server;
      routingTable, iterativeQueries, putQueries, cache := map[], map[], map[], NewStats();
      publicAddress, firewalled, lastTableRefresh, lastTablePing, crashed := None, true, now, now, false;
    }

    method Get(request: L.GetRequest, extra: seq<SocketAddr>, now: nat) returns (r: Option<seq<L.Response>>)
      modifies this
      ensures Value() == GetStep(cfg, old(Value()), request, extra, now) && r == GetAnswer(old(Value()), request)
    {
      var target := request.target;
      var pending := PendingItem(Value(), target);
      if target in iterativeQueries {
        return Some(iterativeQueries[target].responses + pending);
      }
      StartQuery(request, extra, now);
      return if pending == [] then None else Some(pending);
    }

    method StartQuery(request: L.GetRequest, extra: seq<SocketAddr>, now: nat)
      requires request.target !in iterativeQueries
      modifies this
      ensures Value() == GetStep(cfg, old(Value()), request, extra, now)
    {
      var w := StartLookup(cfg, Value(), request, extra, now);
      cache := cache.(items := Touched(cache.items, request.target));
      socket := w.s;
      iterativeQueries := iterativeQueries[request.target := w.q];
    }

    method Put(request: PutRequestSpecific, extra: seq<Node>, now: nat) returns (r: PutResult)
      modifies this
      ensures (Value(), r) == PutStep(cfg, old(Value()), request, extra, now)
    {
      match ConflictOf(Value(), request) {
        case SameItem => return PutOk;
        case Conflicting(error) => return PutErr(error);
        case Override => putQueries := putQueries - {PutTarget(request)};
        case NoConflict =>
      }
      r := PutNew(request, extra, now);
    }

    /** The part after the conflict check. */
    method PutNew(request: PutRequestSpecific, extra: seq<Node>, now: nat) returns (r: PutResult)
      modifies this
      ensures (Value(), r) == PutFresh(cfg, old(Value()), request, extra, now)
    {
      var target := PutTarget(request);
      var query := P.NewPut(target, request, extra);
      var nodes, usesCache := CachedNodes(Value(), target), UsesCache(Value(), target, now);
      cache := cache.(items := Touched(cache.items, target));
      if usesCache {
        r := StartAt(query, nodes, now);
      } else {
        var ignored := Get(L.GetValue(target, None, SaltOf(request)), [], now);
        putQueries := putQueries[target := query];
        r := PutOk;
      }
    }

    method StartAt(query: P.Put, nodes: seq<Node>, now: nat) returns (r: PutResult)
      modifies this
      ensures (Value(), r) == PutAtCached(old(Value()), query, nodes, now)
    {
      match P.StartResultOf(query, nodes) {
        case NotStarted(error) => return PutErr(error);
        case Panicked =>
          crashed := true;
          return PutCrash;
        case Started =>
          var w := P.StartPut(P.World(query, socket), nodes, now);
          putQueries, socket := putQueries[query.target := w.p], w.s;
          return PutOk;
      }
    }

    method TickPutQueries(order: seq<Id>, now: nat) returns (done: DonePuts)
      ensures done == TickPuts(Value(), order, now)
    {
      done := [];
      for i := 0 to |order|
        invariant done == TickPuts(Value(), order[..i], now)
      {
        assert order[..i + 1][..i] == order[..i];
        done := done + TickOnePut(Value(), order[i], now);
      }
      assert order[..|order|] == order;
    }

    method TickGetQueries(order: seq<Id>, now: nat, later: nat) returns (done: DoneGets)
      modifies this
      ensures (Value(), done) == TickGets(cfg, old(Value()), order, now, later)
    {
      done := [];
      for i := 0 to |order|
        invariant (Value(), done) == TickGets(cfg, old(Value()), order[..i], now, later)
      {
        assert order[..i + 1][..i] == order[..i];
        var more := TickQuery(order[i], now, later);
        done := done + more;
      }
      assert order[..|order|] == order;
    }

    method TickQuery(id: Id, now: nat, later: nat) returns (done: DoneGets)
      modifies this
      ensures (Value(), done) == TickOneGet(cfg, old(Value()), id, now, later)
    {
      if id !in iterativeQueries {
        return [];
      }
      var w := L.ClosestVisited(L.World(iterativeQueries[id], socket), now);
      iterativeQueries, socket := iterativeQueries[id := w.q], w.s;
      return if L.NoneAwaited(w.q, w.s, later) then [(id, ClosestReported(cfg, cache, w.q))] else [];
    }

    method CleanupDoneQueries(doneGets: DoneGets, donePuts: DonePuts, votes: Id -> seq<SocketAddr>, now: nat)
        returns (all: DonePuts)
      modifies this
      ensures (Value(), all) == Cleanup(cfg, old(Value()), doneGets, donePuts, votes, now)
    {
      var failed: DonePuts := [];
      for i := 0 to |doneGets|
        invariant (Value(), failed) == CleanGets(cfg, old(Value()), doneGets[..i], votes, now)
      {
        assert doneGets[..i + 1][..i] == doneGets[..i];
        var more := CleanupOne(doneGets[i].0, doneGets[i].1, votes(doneGets[i].0), now);
        failed := failed + more;
      }
      assert doneGets[..|doneGets|] == doneGets;
      all := donePuts + failed;
      putQueries := putQueries - IdsOf(all);
    }

    method CleanupOne(id: Id, nodes: seq<Node>, order: seq<SocketAddr>, now: nat) returns (failed: DonePuts)
      modifies this
      ensures (Value(), failed) == CleanOne(cfg, old(Value()), id, nodes, order, now)
    {
      if id !in iterativeQueries {
        return [];
      }
      var isFindNode := IsFindNode(iterativeQueries[id]);
      RemoveLookup(id, nodes, order, now);
      if isFindNode || id !in putQueries || P.HasStarted(putQueries[id]) {
        return [];
      }
      failed := StartWaitingPut(id, nodes, now);
    }

    method RemoveLookup(id: Id, nodes: seq<Node>, order: seq<SocketAddr>, now: nat)
      requires id in iterativeQueries
      modifies this
      ensures Value() == LookupLeaves(cfg, old(Value()), id, nodes, order, now)
    {
      var query := iterativeQueries[id];
      iterativeQueries := iterativeQueries - {id};
      UpdateAddressVotes(BestAddress(query.votes, order), now);
      cache := CacheQuery(cache, query.target, CacheEntry(cfg, query, nodes));
    }

    method StartWaitingPut(id: Id, nodes: seq<Node>, now: nat) returns (failed: DonePuts)
      requires id in putQueries
      modifies this
      ensures (Value(), failed) == WaitingPutStarts(old(Value()), id, nodes, now)
    {
      match P.StartResultOf(putQueries[id], nodes) {
        case NotStarted(error) => return [(id, Some(error))];
        case Panicked => crashed := true;
        case Started =>
          var w := P.StartPut(P.World(putQueries[id], socket), nodes, now);
          putQueries, socket := putQueries[id := w.p], w.s;
      }
      return [];
    }

    method UpdateAddressVotes(best: Option<SocketAddr>, now: nat)
      modifies this
      ensures Value() == UpdateAddress(old(Value()), best, now)
    {
      match best {
        case None =>
        case Some(address) =>
          if publicAddress != Some(address) {
            firewalled := true;
            Ping(address, now);
          }
          publicAddress := Some(address);
      }
    }

    method Ping(address: SocketAddr, now: nat)
      modifies this
      ensures Value() == PingTo(old(Value()), address, now)
    {
      socket := Sent(socket, address, RequestSpecific(id, PingRequest), now);
    }

    method PeriodicNodeMaintenance(now: nat)
      modifies this
      ensures Value() == Maintain(cfg, old(Value()), now)
    {
      var refreshIsDue := Elapsed(lastTableRefresh, now) >= REFRESH_TABLE_INTERVAL;
      var pingIsDue := Elapsed(lastTablePing, now) >= PING_TABLE_INTERVAL;
      var shouldPopulate := TableIsEmpty(routingTable) || refreshIsDue;
      if refreshIsDue {
        TrySwitchingToServerMode();
      }
      if pingIsDue {
        lastTablePing := now;
        PingAndPurgeNodes(AllNodes(routingTable), now);
      }
      if shouldPopulate {
        PopulateTable(now);
      }
    }

    method TrySwitchingToServerMode()
      modifies this`socket
      ensures Value() == old(if firewalled then Value() else Value().(socket := socket.(serverMode := true)))
    {
      if !firewalled {
        socket := socket.(serverMode := true);
      }
    }

    method PopulateTable(now: nat)
      modifies this
      ensures Value() == Populate(cfg, old(Value()), now)
    {
      lastTableRefresh := now;
      if cfg.bootstrap != [] {
        var ignored := Get(L.FindNode(id), [], now);
      }
    }

    method PingAndPurgeNodes(nodes: seq<Node>, now: nat)
      modifies this
      ensures Value() == PingAndPurge(old(Value()), nodes, now)
    {
      for i := 0 to |nodes|
        invariant Value() == PingAndPurge(old(Value()), nodes[..i], now)
      {
        assert nodes[..i + 1][..i] == nodes[..i];
        if IsStale(nodes[i], now) {
          routingTable := TableRemove(id, routingTable, nodes[i].id);
        } else if ShouldPing(nodes[i], now) {
          Ping(nodes[i].address, now);
        }
      }
      assert nodes[..|nodes|] == nodes;
    }

    method HandlePacket(i: Input) returns (r: Option<(Id, L.Response)>)
      modifies this
      ensures (Value(), r) == HandleMessage(cfg, old(Value()), i)
    {
      var handsOn := HandsOn(socket, i.packet, i.later);
      socket := Received(socket, i.packet, i.later);
      if !handsOn {
        return None;
      }
      var p := i.packet.value;
      if p.message.messageType.Request? {
        HandleRequest(p.from, p.message.messageType.request, i.later, i.secret, i.newId);
        return None;
      }
      r := HandleResponse(p.from, p.message, i.putOrder, i.getOrder, i.later);
    }

    method HandleRequest(from: SocketAddr, request: RequestSpecific, now: nat, secret: seq<byte>, newId: Id)
      modifies this
      ensures Value() == OnRequest(cfg, old(Value()), from, request, now, secret, newId)
    {
      SeedFrom(from, request, now);
      if socket.serverMode {
        server := V.Handle(server, cfg.env, DirectoryOf(Value()), from, request, now, secret).0;
      }
      CheckSelfPing(from, request, now, newId);
    }

    method SeedFrom(from: SocketAddr, request: RequestSpecific, now: nat)
      modifies this
      ensures Value() == Seeded(cfg, old(Value()), from, request, now)
    {
      if cfg.bootstrap == [] && request.requestType.FindNodeRequest? {
        routingTable := TableAdd(id, routingTable, Node(request.requestType.target, from, None, now), now).0;
      }
    }

    method CheckSelfPing(from: SocketAddr, request: RequestSpecific, now: nat, newId: Id)
      modifies this
      ensures Value() == SelfPinged(cfg, old(Value()), from, request, now, newId)
    {
      if publicAddress == Some(from) && request.requestType.PingRequest? {
        firewalled := false;
        if !IsValidForIp(id, from.ip) {
          var ignored := Get(L.FindNode(newId), [], now);
          id, routingTable := newId, map[];
        }
      }
    }

    method HandleResponse(from: SocketAddr, m: Message, putOrder: seq<Id>, getOrder: seq<Id>, now: nat)
        returns (r: Option<(Id, L.Response)>)
      modifies this
      ensures (Value(), r) == OnResponse(cfg, old(Value()), from, m, putOrder, getOrder, now)
    {
      if m.readOnly {
        return None;
      }
      var put := OwnerOf(PutIds(Value()), putOrder, m.transactionId);
      if put.Some? {
        putQueries := putQueries[put.value := PutReply(putQueries[put.value], m.messageType)];
        return None;
      }
      var owner := OwnerOf(QueryIds(Value()), getOrder, m.transactionId);
      if owner.None? {
        return None;
      }
      r := HandleLookupResponse(owner.value, from, m, now);
    }

    method HandleLookupResponse(owner: Id, from: SocketAddr, m: Message, now: nat) returns (r: Option<(Id, L.Response)>)
      requires owner in iterativeQueries
      modifies this
      ensures (Value(), r) == QueryTakes(cfg, old(Value()), owner, from, m, now)
    {
      var query := Noted(iterativeQueries[owner], m, from, now);
      match ValueOf(cfg, query, m.messageType) {
        case Some(value) =>
          iterativeQueries := iterativeQueries[owner := L.WithResponse(query, value)];
          return Some((query.target, value));
        case None =>
          iterativeQueries := iterativeQueries[owner := query];
          if AuthorId(m).Some? {
            routingTable := TableAdd(id, routingTable, Node(AuthorId(m).value, from, None, now), now).0;
          }
          return None;
      }
    }

    method TickAll(i: Input) returns (report: Report)
      modifies this
      ensures (Value(), report) == Tick(cfg, old(Value()), i)
    {
      var donePuts := TickPutQueries(i.putOrder, i.now);
      var doneGets := TickGetQueries(i.getOrder, i.now, i.later);
      var allPuts := CleanupDoneQueries(doneGets, donePuts, i.votes, i.later);
      PeriodicNodeMaintenance(i.later);
      var response := HandlePacket(i);
      return Report(doneGets, allPuts, response);
    }
  }
}
