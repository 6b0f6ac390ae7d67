/** Iterative lookups (rust/mainline/src/rpc/iterative_query.rs): visit the closest candidates until no
    request of the lookup is in flight. */
module Lookups {
  import opened Bytes
  import opened Ids
  import opened Nodes
  import opened SortedLists
  import opened Closest
  import opened Messages
  import opened Mutable
  import opened Sockets

  datatype Response = Peers(peers: seq<SocketAddr>) | Immutable(v: seq<byte>) | MutableValue(item: MutableItem)

  datatype GetRequest = FindNode(target: Id) | GetPeers(target: Id) | GetValue(target: Id, seqNo: Option<i64>,
      salt: Option<seq<byte>>)

  datatype Lookup = Lookup(target: Id, request: RequestSpecific, closest: seq<Node>, responders: seq<Node>,
                           inflight: seq<u32>, visited: set<SocketAddr>, responses: seq<Response>,
                               votes: map<SocketAddr, u16>)

  function RequestTypeOf(r: GetRequest): RequestType
  {
    match r
    case FindNode(target) => FindNodeRequest(target)
    case GetPeers(target) => GetPeersRequest(target)
    case GetValue(target, seqNo, salt) => GetValueRequest(target, seqNo, salt)
  }

  function NewLookup(requesterId: Id, target: Id, request: GetRequest): Lookup
  {
    Lookup(target, RequestSpecific(requesterId, RequestTypeOf(request)), [], [], [], {}, [], map[])
  }

  function WithCandidate(q: Lookup, n: Node): Lookup
  {
    q.(closest := Added(KeyOf(q.target), Excludes, q.closest, n))
  }

  function WithCandidates(q: Lookup, ns: seq<Node>): Lookup
  {
    q.(closest := AddedAll(KeyOf(q.target), Excludes, q.closest, ns))
  }

  function WithResponder(q: Lookup, n: Node): Lookup
  {
    q.(responders := Added(KeyOf(q.target), Excludes, q.responders, n))
  }

  /** A 16-bit counter. */
  function WithVote(q: Lookup, a: SocketAddr): Lookup
  {
    q.(votes := q.votes[a := if a in q.votes then (q.votes[a] as int + 1) % 0x1_0000 else 1])
  }

  function WithResponse(q: Lookup, r: Response): Lookup { q.(responses := q.responses + [r]) }

  function Ping(s: Socket): RequestSpecific { RequestSpecific(RandomId(s), PingRequest) }

  datatype World = World(q: Lookup, s: Socket)

  /** A visit sends the request and a ping, and notes both ids and the address. */
  function VisitOne(w: World, a: SocketAddr, now: nat): World
  {
    var s1 := Sent(w.s, a, w.q.request, now);
    World(w.q.(inflight := w.q.inflight + [w.s.nextTid] + [s1.nextTid], visited := w.q.visited + {a}),
          Sent(s1, a, Ping(s1), now))
  }

  function VisitAll(w: World, addresses: seq<SocketAddr>, now: nat): World
    decreases |addresses|
  {
    if addresses == [] then w
    else VisitOne(VisitAll(w, addresses[..|addresses| - 1], now), addresses[|addresses| - 1], now)
  }

  function Unvisited(nodes: seq<Node>, visited: set<SocketAddr>): (r: seq<SocketAddr>)
    ensures forall a :: a in r ==> a !in visited
    ensures forall n :: n in nodes ==> n.address in visited || n.address in r
    ensures forall a :: a in r ==> exists n :: n in nodes && n.address == a
  {
    if nodes == [] then []
    else
      var n := nodes[|nodes| - 1];
      Unvisited(nodes[..|nodes| - 1], visited) + (if n.address in visited then [] else [n.address])
  }

  function FirstNodes(nodes: seq<Node>): seq<Node>
  {
    nodes[..if |nodes| < MAX_BUCKET_SIZE_K then |nodes| else MAX_BUCKET_SIZE_K]
  }

  function ToVisit(q: Lookup): seq<SocketAddr> { Unvisited(FirstNodes(q.closest), q.visited) }

  function ClosestVisited(w: World, now: nat): World { VisitAll(w, ToVisit(w.q), now) }

  predicate NoneAwaited(q: Lookup, s: Socket, now: nat)
  {
    forall i :: 0 <= i < |q.inflight| ==> !Awaited(s.inflight, s.timeout, q.inflight[i], now)
  }

  // === The query as a mutable object ===

  class IterativeQuery {
    const request: RequestSpecific
    const closest: ClosestNodes
    const responders: ClosestNodes
    var inflightRequests: seq<u32>
    var visited: set<SocketAddr>
    var responses: seq<Response>
    var publicAddressVotes: map<SocketAddr, u16>

    ghost predicate Valid()
      reads this, closest, responders
    {
      closest != responders && closest.Valid() && responders.Valid() && closest.target == responders.target
    }

    ghost function Value(): Lookup
      reads this, closest, responders
    {
      Lookup(responders.target, request, closest.nodes, responders.nodes, inflightRequests, visited, responses,
          publicAddressVotes)
    }

    constructor (requesterId: Id, target: Id, r: GetRequest)
      ensures Valid() && fresh(closest) && fresh(responders) && Value() == NewLookup(requesterId, target, r)
    {
      request := RequestSpecific(requesterId, RequestTypeOf(r));
      closest := new ClosestNodes(target);
      responders := new ClosestNodes(target);
      inflightRequests, visited, responses, publicAddressVotes := [], {}, [], map[];
    }

    method AddCandidate(node: Node)
      requires Valid()
      modifies closest
      ensures Valid() && Value() == WithCandidate(old(Value()), node)
    {
      closest.Add(node);
    }

    method AddRespondingNode(node: Node)
      requires Valid()
      modifies responders
      ensures Valid() && Value() == WithResponder(old(Value()), node)
    {
      responders.Add(node);
    }

    method AddAddressVote(address: SocketAddr)
      requires Valid()
      modifies this
      ensures Valid() && Value() == WithVote(old(Value()), address)
    {
      if address in publicAddressVotes {
        publicAddressVotes := publicAddressVotes[address := (publicAddressVotes[address] as int + 1) % 0x1_0000];
      } else {
        publicAddressVotes := publicAddressVotes[address := 1];
      }
    }

    method Respond(r: Response)
      requires Valid()
      modifies this
      ensures Valid() && Value() == WithResponse(old(Value()), r)
    {
      responses := responses + [r];
    }

    predicate Inflight(tid: u32)
      reads this
    {
      tid in inflightRequests
    }

    method Visit(socket: KrpcSocket, address: SocketAddr, now: nat)
      requires Valid()
      modifies this, socket, socket.inflightRequests
      ensures Valid() && World(Value(), socket.Value()) == VisitOne(old(World(Value(), socket.Value())), address, now)
    {
      var tid := socket.Request(address, request, now);
      inflightRequests := inflightRequests + [tid];
      tid := socket.Request(address, RequestSpecific((socket.random)(|socket.sent|), PingRequest), now);
      inflightRequests := inflightRequests + [tid];
      visited := visited + {address};
    }

    method VisitClosest(socket: KrpcSocket, now: nat)
      requires Valid()
      modifies this, socket, socket.inflightRequests
      ensures Valid() && World(Value(), socket.Value()) == ClosestVisited(old(World(Value(), socket.Value())), now)
    {
      ghost var w := World(Value(), socket.Value());
      var toVisit := Unvisited(FirstNodes(closest.nodes), visited);
      assert toVisit == ToVisit(w.q);
      for i := 0 to |toVisit|
        invariant Valid() && World(Value(), socket.Value()) == VisitAll(w, toVisit[..i], now)
      {
        assert toVisit[..i + 1][..i] == toVisit[..i];
        Visit(socket, toVisit[i], now);
      }
      assert toVisit[..|toVisit|] == toVisit;
    }

    /** `later` is the clock when the requests in flight are looked at. */
    method Tick(socket: KrpcSocket, now: nat, later: nat) returns (done: bool)
      requires Valid()
      modifies this, socket, socket.inflightRequests
      ensures Valid() && World(Value(), socket.Value()) == ClosestVisited(old(World(Value(), socket.Value())), now)
      ensures done <==> NoneAwaited(Value(), socket.Value(), later)
    {
      VisitClosest(socket, now);
      done := true;
      for i := 0 to |inflightRequests|
        invariant done <==> forall k :: 0 <= k < i ==>
          !Awaited(socket.Value().inflight, socket.Value().timeout, inflightRequests[k], later)
      {
        var awaited := socket.Inflight(inflightRequests[i], later);
        done := done && !awaited;
      }
    }

    method Start(socket: KrpcSocket, now: nat)
      requires Valid()
      modifies this, socket, socket.inflightRequests
      ensures Valid() && World(Value(), socket.Value()) == ClosestVisited(old(World(Value(), socket.Value())), now)
    {
      VisitClosest(socket, now);
    }
  }

  // === Invariants of a lookup and the socket it shares ===

  /** Position i holds an own request, each position a later one, to a visited address. */
  ghost predicate OwnRequest(w: World, i: nat)
    requires i < |w.q.inflight|
  {
    var t := w.q.inflight[i];
    t < |w.s.sent| && w.s.sent[t].to in w.q.visited && (i > 0 ==> w.q.inflight[i - 1] < t)
  }

  ghost predicate LookupOk(w: World, now: nat)
  {
    && SocketOk(w.s, now)
    && forall i :: 0 <= i < |w.q.inflight| ==> OwnRequest(w, i)
  }

  lemma OwnBelow(w: World, now: nat)
    requires LookupOk(w, now)
    ensures forall t :: t in w.q.inflight ==> t < |w.s.sent|
  {
    forall t | t in w.q.inflight ensures t < |w.s.sent| {
      var i :| 0 <= i < |w.q.inflight| && w.q.inflight[i] == t;
      assert OwnRequest(w, i);
    }
  }

  /** The history grows, own requests added since are stamped `now`, and only `more` is newly visited. */
  ghost predicate Follows(w: World, w': World, more: set<SocketAddr>, now: nat)
  {
    && w.s.sent <= w'.s.sent && w.q.inflight <= w'.q.inflight && w'.q.visited == w.q.visited + more
    && w'.s.timeout == w.s.timeout && w'.s.replies == w.s.replies && w'.q.closest == w.q.closest
    && forall i :: |w.q.inflight| <= i < |w'.q.inflight| ==> SentSince(w', i, |w.s.sent|, now)
  }

  ghost predicate SentSince(w: World, i: nat, n: nat, now: nat)
    requires i < |w.q.inflight|
  {
    n <= w.q.inflight[i] < |w.s.sent| && w.s.sent[w.q.inflight[i]].at == now
  }

  lemma VisitOneKeepsOk(w: World, a: SocketAddr, now: nat)
    requires LookupOk(w, now) && |w.s.sent| + 2 <= TID_SPACE
    ensures LookupOk(VisitOne(w, a, now), now)
    ensures Follows(w, VisitOne(w, a, now), {a}, now)
  {
    var w', n, m := VisitOne(w, a, now), |w.s.sent|, |w.q.inflight|;
    var s1 := Sent(w.s, a, w.q.request, now);
    SentKeepsOk(w.s, a, w.q.request, now);
    SentKeepsOk(s1, a, Ping(s1), now);
    assert w'.q.inflight[m] == n && w'.q.inflight[m + 1] == n + 1;
    assert w'.s.sent[n].to == a && w'.s.sent[n + 1].to == a;
    forall i | 0 <= i < |w'.q.inflight| ensures OwnRequest(w', i) {
      if i < m {
        assert OwnRequest(w, i);
        assert w'.q.inflight[i] == w.q.inflight[i];
        assert i > 0 ==> w'.q.inflight[i - 1] == w.q.inflight[i - 1];
      } else if m > 0 {
        assert OwnRequest(w, m - 1);
        assert w'.q.inflight[m - 1] == w.q.inflight[m - 1];
      }
    }
  }

  function ToSet(s: seq<SocketAddr>): set<SocketAddr> { set a | a in s }

  lemma FollowsTrans(w: World, v: World, u: World, a: set<SocketAddr>, b: set<SocketAddr>, now: nat)
    requires Follows(w, v, a, now) && Follows(v, u, b, now)
    ensures Follows(w, u, a + b, now)
  {
    forall i | |w.q.inflight| <= i < |u.q.inflight| ensures SentSince(u, i, |w.s.sent|, now) {
      if i < |v.q.inflight| {
        assert SentSince(v, i, |w.s.sent|, now);
        assert u.q.inflight[i] == v.q.inflight[i];
      } else {
        assert SentSince(u, i, |v.s.sent|, now);
      }
    }
  }

  lemma {:induction false} VisitAllCount(w: World, addresses: seq<SocketAddr>, now: nat)
    ensures |VisitAll(w, addresses, now).s.sent| == |w.s.sent| + 2 * |addresses|
    ensures |VisitAll(w, addresses, now).q.inflight| == |w.q.inflight| + 2 * |addresses|
  {
    if addresses != [] {
      VisitAllCount(w, addresses[..|addresses| - 1], now);
    }
  }

  lemma {:induction false} VisitAllKeepsOk(w: World, addresses: seq<SocketAddr>, now: nat)
    requires LookupOk(w, now) && |w.s.sent| + 2 * |addresses| <= TID_SPACE
    ensures LookupOk(VisitAll(w, addresses, now), now)
    ensures Follows(w, VisitAll(w, addresses, now), ToSet(addresses), now)
  {
    if addresses == [] {
      assert ToSet(addresses) == {};
    } else {
      var n := |addresses| - 1;
      var v := VisitAll(w, addresses[..n], now);
      VisitAllKeepsOk(w, addresses[..n], now);
      VisitAllCount(w, addresses[..n], now);
      VisitOneKeepsOk(v, addresses[n], now);
      FollowsTrans(w, v, VisitOne(v, addresses[n], now), ToSet(addresses[..n]), {addresses[n]}, now);
      assert addresses == addresses[..n] + [addresses[n]];
      assert ToSet(addresses) == ToSet(addresses[..n]) + {addresses[n]};
    }
  }

  /** There are ids left for the requests of one tick. */
  ghost predicate Room(w: World) { |w.s.sent| + 2 * |ToVisit(w.q)| <= TID_SPACE }

  lemma TickKeepsOk(w: World, now: nat)
    requires LookupOk(w, now) && Room(w)
    ensures LookupOk(ClosestVisited(w, now), now)
    ensures Follows(w, ClosestVisited(w, now), ToSet(ToVisit(w.q)), now)
  {
    VisitAllKeepsOk(w, ToVisit(w.q), now);
  }

  // === One tick ===

  /** Request i of the lookup has its reply, or its time is over. */
  ghost predicate Over(w: World, i: nat, later: nat)
    requires i < |w.q.inflight| && w.q.inflight[i] < |w.s.sent|
  {
    HasReply(w.s, w.q.inflight[i]) || Elapsed(w.s.sent[w.q.inflight[i]].at, later) >= w.s.timeout
  }

  /** A lookup reports done exactly when each request it ever sent got its reply or timed out. */
  lemma DoneIff(w: World, now: nat, later: nat)
    requires LookupOk(w, now) && now <= later
    ensures forall i :: 0 <= i < |w.q.inflight| ==> OwnRequest(w, i)
    ensures NoneAwaited(w.q, w.s, later)
      <==> forall i :: 0 <= i < |w.q.inflight| ==> OwnRequest(w, i) && Over(w, i, later)
  {
    forall i | 0 <= i < |w.q.inflight|
      ensures OwnRequest(w, i) && (Awaited(w.s.inflight, w.s.timeout, w.q.inflight[i], later) <==> !Over(w, i, later))
    {
      assert OwnRequest(w, i);
      AwaitedIff(w.s, now, later, w.q.inflight[i]);
    }
  }

  /** After a tick each of the first 20 entries has a visited address. */
  lemma FirstNodesVisited(w: World, now: nat)
    requires LookupOk(w, now) && Room(w)
    ensures forall n :: n in FirstNodes(w.q.closest) ==> n.address in ClosestVisited(w, now).q.visited
  {
    TickKeepsOk(w, now);
  }

  /** A tick that sends something strictly grows the visited set. */
  lemma SendingGrows(w: World, now: nat)
    requires LookupOk(w, now) && Room(w) && ToVisit(w.q) != []
    ensures w.q.visited < ClosestVisited(w, now).q.visited
    ensures |ClosestVisited(w, now).q.visited| > |w.q.visited|
  {
    TickKeepsOk(w, now);
    var a := ToVisit(w.q)[0];
    assert a in ToSet(ToVisit(w.q)) && a !in w.q.visited;
    ProperSubsetSize(w.q.visited, ClosestVisited(w, now).q.visited);
  }

  lemma ProperSubsetSize<T>(a: set<T>, b: set<T>)
    requires a < b
    ensures |a| < |b|
  {
    var x :| x in b && x !in a;
    SubsetSize(a, b - {x});
  }

  /** A request just sent is awaited until the timeout. */
  lemma FreshIsAwaited(w: World, now: nat, later: nat)
    requires LookupOk(w, now) && Room(w) && ToVisit(w.q) != [] && now <= later && later - now < w.s.timeout
    ensures !NoneAwaited(ClosestVisited(w, now).q, ClosestVisited(w, now).s, later)
  {
    var w', m := ClosestVisited(w, now), |w.q.inflight|;
    TickKeepsOk(w, now);
    VisitAllCount(w, ToVisit(w.q), now);
    DoneIff(w', now, later);
    NewIsNotOver(w, w', m, now, later);
  }

  lemma NewIsNotOver(w: World, w': World, i: nat, now: nat, later: nat)
    requires SocketOk(w.s, now) && |w.q.inflight| <= i < |w'.q.inflight| && SentSince(w', i, |w.s.sent|, now)
    requires w'.s.replies == w.s.replies && now <= later && later - now < w'.s.timeout
    ensures !Over(w', i, later)
  {
    forall r | 0 <= r < |w.s.replies| ensures w.s.replies[r].tid != w'.q.inflight[i] {
      assert ReplyIsTimely(w.s, r);
    }
  }

  /** Convergence: a tick shorter than the timeout reports done only if it had nothing to send, so that each of
      the first 20 entries had a visited address before, and each own request got its reply or timed out. */
  lemma DoneMeansConverged(w: World, now: nat, later: nat)
    requires LookupOk(w, now) && Room(w) && now <= later && later - now < w.s.timeout
    requires NoneAwaited(ClosestVisited(w, now).q, ClosestVisited(w, now).s, later)
    ensures ClosestVisited(w, now) == w
    ensures forall n :: n in FirstNodes(w.q.closest) ==> n.address in w.q.visited
    ensures forall i :: 0 <= i < |w.q.inflight| ==> OwnRequest(w, i) && Over(w, i, later)
  {
    if ToVisit(w.q) != [] {
      FreshIsAwaited(w, now, later);
    }
    DoneIff(w, now, later);
  }

  // === Runs ===

  datatype Act =
    | Candidate(node: Node)
    | Bootstrap(address: SocketAddr)
    | Tick(later: nat)
    | Elsewhere(to: SocketAddr, request: RequestSpecific)
    | Arrive(packet: Option<Packet>)

  /** An act begins `at` some time; a tick ends when it looks at the requests in flight. */
  datatype Event = Event(at: nat, act: Act)

  function EndOf(e: Event): nat { if e.act.Tick? then e.act.later else e.at }

  function Step(w: World, e: Event): World
  {
    match e.act
    case Candidate(node) => World(WithCandidate(w.q, node), w.s)
    case Bootstrap(address) => VisitOne(w, address, e.at)
    case Tick(_) => ClosestVisited(w, e.at)
    case Elsewhere(to, request) => World(w.q, Sent(w.s, to, request, e.at))
    case Arrive(packet) => World(w.q, Received(w.s, packet, e.at))
  }

  function Run(w: World, es: seq<Event>): World
  {
    if es == [] then w else Step(Run(w, es[..|es| - 1]), es[|es| - 1])
  }

  function EndTime(es: seq<Event>, start: nat): nat { if es == [] then start else EndOf(es[|es| - 1]) }

  ghost predicate InTime(es: seq<Event>, start: nat)
  {
    es != [] ==>
      var n := |es| - 1;
      InTime(es[..n], start) && EndTime(es[..n], start) <= es[n].at <= EndOf(es[n])
  }

  lemma OtherStepKeepsOk(w: World, s': Socket, now: nat)
    requires LookupOk(w, now) && SocketOk(s', now) && w.s.sent <= s'.sent
    ensures LookupOk(World(w.q, s'), now)
  {
    forall i | 0 <= i < |w.q.inflight| ensures OwnRequest(World(w.q, s'), i) {
      assert OwnRequest(w, i);
    }
  }

  lemma LaterWorldIsOk(w: World, now: nat, later: nat)
    requires LookupOk(w, now) && now <= later
    ensures LookupOk(w, later)
  {
    LaterIsOk(w.s, now, later);
  }

  lemma StepKeepsOk(w: World, e: Event)
    requires LookupOk(w, e.at) && e.at <= EndOf(e) && |Step(w, e).s.sent| <= TID_SPACE
    ensures LookupOk(Step(w, e), EndOf(e))
  {
    match e.act {
      case Candidate(node) =>
        forall i | 0 <= i < |w.q.inflight| ensures OwnRequest(Step(w, e), i) {
          assert OwnRequest(w, i);
        }
      case Bootstrap(address) =>
        VisitOneKeepsOk(w, address, e.at);
      case Tick(later) =>
        VisitAllCount(w, ToVisit(w.q), e.at);
        TickKeepsOk(w, e.at);
        LaterWorldIsOk(Step(w, e), e.at, later);
      case Elsewhere(to, request) =>
        SentKeepsOk(w.s, to, request, e.at);
        OtherStepKeepsOk(w, Sent(w.s, to, request, e.at), e.at);
      case Arrive(packet) =>
        ReceivedKeepsOk(w.s, packet, e.at);
        OtherStepKeepsOk(w, Received(w.s, packet, e.at), e.at);
    }
  }

  lemma SentGrows(w: World, e: Event)
    ensures |w.s.sent| <= |Step(w, e).s.sent|
  {
    if e.act.Tick? {
      VisitAllCount(w, ToVisit(w.q), e.at);
    }
  }

  lemma {:induction false} RunKeepsOk(w: World, es: seq<Event>, start: nat)
    requires LookupOk(w, start) && InTime(es, start) && |Run(w, es).s.sent| <= TID_SPACE
    ensures LookupOk(Run(w, es), EndTime(es, start))
  {
    if es != [] {
      var n := |es| - 1;
      var v := Run(w, es[..n]);
      SentGrows(v, es[n]);
      RunKeepsOk(w, es[..n], start);
      LaterWorldIsOk(v, EndTime(es[..n], start), es[n].at);
      StepKeepsOk(v, es[n]);
    }
  }

  /** Every tick of every run: done means nothing was left to visit and nothing is awaited. */
  lemma LookupConverges(w: World, es: seq<Event>, start: nat, now: nat, later: nat)
    requires LookupOk(w, start) && InTime(es + [Event(now, Tick(later))], start)
    requires |Run(w, es + [Event(now, Tick(later))]).s.sent| <= TID_SPACE
    requires var v := Run(w, es + [Event(now, Tick(later))]); NoneAwaited(v.q, v.s, later) && later - now < v.s.timeout
    ensures var v := Run(w, es);
            && Run(w, es + [Event(now, Tick(later))]) == v
            && (forall n :: n in FirstNodes(v.q.closest) ==> n.address in v.q.visited)
            && (forall i :: 0 <= i < |v.q.inflight| ==> OwnRequest(v, i) && Over(v, i, later))
  {
    var e := Event(now, Tick(later));
    assert (es + [e])[..|es|] == es;
    var v := Run(w, es);
    SentGrows(v, e);
    RunKeepsOk(w, es, start);
    LaterWorldIsOk(v, EndTime(es, start), now);
    VisitAllCount(v, ToVisit(v.q), now);
    TickKeepsOk(v, now);
    DoneMeansConverged(v, now, later);
  }

  // === Termination ===

  /** All addresses the lookup may ever hear of. */
  ghost predicate Within(es: seq<Event>, all: set<SocketAddr>)
  {
    forall i :: 0 <= i < |es| ==>
      (es[i].act.Candidate? ==> es[i].act.node.address in all) && (es[i].act.Bootstrap? ==> es[i].act.address in all)
  }

  ghost predicate Knows(q: Lookup, all: set<SocketAddr>)
  {
    q.visited <= all && forall n :: n in q.closest ==> n.address in all
  }

  ghost predicate Sends(w: World, e: Event) { e.act.Tick? && ToVisit(w.q) != [] }

  /** A tick that starts when all requests of the lookup have timed out, and still does not report done. */
  ghost predicate LateAndUnfinished(w: World, e: Event)
  {
    && e.act.Tick? && !NoneAwaited(Step(w, e).q, Step(w, e).s, e.act.later)
    && forall i :: 0 <= i < |w.q.inflight| ==> w.q.inflight[i] < |w.s.sent| && TimedOut(w, i, e.act.later)
  }

  ghost predicate TimedOut(w: World, i: nat, later: nat)
    requires i < |w.q.inflight| && w.q.inflight[i] < |w.s.sent|
  {
    Elapsed(w.s.sent[w.q.inflight[i]].at, later) >= w.s.timeout
  }

  ghost function CountEvents(w: World, es: seq<Event>, p: (World, Event) -> bool): nat
  {
    if es == [] then 0
    else
      var n := |es| - 1;
      CountEvents(w, es[..n], p) + (if p(Run(w, es[..n]), es[n]) then 1 else 0)
  }

  lemma StepKnows(w: World, e: Event, all: set<SocketAddr>)
    requires LookupOk(w, e.at) && e.at <= EndOf(e) && |Step(w, e).s.sent| <= TID_SPACE
    requires Knows(w.q, all) && Within([e], all)
    ensures Knows(Step(w, e).q, all)
    ensures w.q.visited <= Step(w, e).q.visited
  {
    assert [e][0] == e;
    match e.act {
      case Candidate(node) =>
        CandidateKnown(w.q, node, all);
      case Bootstrap(address) =>
      case Tick(later) =>
        VisitAllCount(w, ToVisit(w.q), e.at);
        TickKeepsOk(w, e.at);
        forall a | a in ToSet(ToVisit(w.q)) ensures a in all {
          var n :| n in FirstNodes(w.q.closest) && n.address == a;
          assert n in w.q.closest;
        }
      case Elsewhere(_, _) =>
      case Arrive(_) =>
    }
  }

  lemma CandidateKnown(q: Lookup, node: Node, all: set<SocketAddr>)
    requires Knows(q, all) && node.address in all
    ensures Knows(WithCandidate(q, node), all)
  {
    AddedMembers(KeyOf(q.target), Excludes, q.closest, node);
  }

  lemma AddedMembers<T>(key: T -> int, excludes: (T, T) -> bool, s: seq<T>, x: T)
    ensures forall y :: y in Added(key, excludes, s, x) ==> y in s || y == x
  {
    InsertMembers(key, s, x);
  }

  lemma TimedOutIsDone(w: World, now: nat, later: nat)
    requires LookupOk(w, now) && now <= later
    requires forall i :: 0 <= i < |w.q.inflight| ==> w.q.inflight[i] < |w.s.sent| && TimedOut(w, i, later)
    ensures NoneAwaited(w.q, w.s, later)
  {
    DoneIff(w, now, later);
    forall i | 0 <= i < |w.q.inflight| ensures Over(w, i, later) {
      assert OwnRequest(w, i) && TimedOut(w, i, later);
    }
  }

  /** A late tick that does not report done has sent something. */
  lemma LateSends(w: World, e: Event)
    requires LookupOk(w, e.at) && e.at <= EndOf(e) && LateAndUnfinished(w, e)
    ensures Sends(w, e)
  {
    TimedOutIsDone(w, e.at, e.act.later);
  }

  ghost function SendsEvent(): (World, Event) -> bool { (w, e) => Sends(w, e) }

  ghost function LateEvent(): (World, Event) -> bool { (w, e) => LateAndUnfinished(w, e) }

  /** Termination: with N addresses to hear of, at most N ticks send anything, and at most N ticks that begin
      after all requests have timed out fail to report done. */
  lemma {:induction false} LookupEnds(w: World, es: seq<Event>, start: nat, all: set<SocketAddr>)
    requires LookupOk(w, start) && InTime(es, start) && |Run(w, es).s.sent| <= TID_SPACE
    requires Knows(w.q, all) && Within(es, all)
    ensures Knows(Run(w, es).q, all)
    ensures CountEvents(w, es, LateEvent()) <= CountEvents(w, es, SendsEvent())
    ensures |w.q.visited| + CountEvents(w, es, SendsEvent()) <= |Run(w, es).q.visited| <= |all|
  {
    if es == [] {
      SubsetSize(w.q.visited, all);
    } else {
      var n := |es| - 1;
      var v, e := Run(w, es[..n]), es[n];
      SentGrows(v, e);
      LookupEnds(w, es[..n], start, all);
      RunKeepsOk(w, es[..n], start);
      LaterWorldIsOk(v, EndTime(es[..n], start), e.at);
      StepKnows(v, e, all);
      SubsetSize(v.q.visited, Step(v, e).q.visited);
      SubsetSize(Step(v, e).q.visited, all);
      if Sends(v, e) {
        VisitAllCount(v, ToVisit(v.q), e.at);
        SendingGrows(v, e.at);
      }
      if LateAndUnfinished(v, e) {
        LateSends(v, e);
      }
      assert SendsEvent()(v, e) == Sends(v, e) && LateEvent()(v, e) == LateAndUnfinished(v, e);
    }
  }
}
