/** The public address of a node (rust/mainline/src/rpc.rs and rpc/iterative_query.rs): how responders vote for it, and
    when the node takes it for reachable. */
module Reachability {
  import opened Bytes
  import opened Ids
  import opened Nodes
  import opened Routing
  import opened Messages
  import opened Sockets
  import opened Rpcs
  import opened RpcInvariants
  import opened NodeParts
  import L = Lookups
  import P = PutQueries
  import V = Servers

  // === Votes ===

  function VotedAll(q: L.Lookup, voted: seq<SocketAddr>): L.Lookup
  {
    if voted == [] then q else L.WithVote(VotedAll(q, voted[..|voted| - 1]), voted[|voted| - 1])
  }

  /** How often an address was voted for. */
  function VotesFor(voted: seq<SocketAddr>, a: SocketAddr): nat
  {
    if voted == [] then 0 else VotesFor(voted[..|voted| - 1], a) + if voted[|voted| - 1] == a then 1 else 0
  }

  /** The map of a lookup says how often each address was voted for, in 16 bits. */
  lemma {:induction false} VotesAreCounted(q: L.Lookup, voted: seq<SocketAddr>)
    requires q.votes == map[]
    ensures var v := VotedAll(q, voted);
      v == q.(votes := v.votes) && Counted(v.votes, voted)
  {
    if voted != [] {
      var n := |voted| - 1;
      VotesAreCounted(q, voted[..n]);
      assert voted == voted[..n] + [voted[n]];
      OneVoteMore(VotedAll(q, voted[..n]).votes, voted[..n], voted[n]);
    }
  }

  ghost predicate Counted(votes: map<SocketAddr, u16>, voted: seq<SocketAddr>)
  {
    && (forall a :: a in votes <==> a in voted)
    && forall a :: a in votes ==> votes[a] == VotesFor(voted, a) % 0x1_0000
  }

  lemma {:induction false} VotesAppend(voted: seq<SocketAddr>, a: SocketAddr, b: SocketAddr)
    ensures VotesFor(voted + [a], b) == VotesFor(voted, b) + if b == a then 1 else 0
  {
    assert (voted + [a])[..|voted|] == voted;
  }

  lemma {:induction false} OneVoteMore(votes: map<SocketAddr, u16>, before: seq<SocketAddr>, a: SocketAddr)
    requires Counted(votes, before)
    ensures Counted(votes[a := if a in votes then (votes[a] as int + 1) % 0x1_0000 else 1], before + [a])
  {
    NotVoted(before, a);
    forall b ensures VotesFor(before + [a], b) == VotesFor(before, b) + if b == a then 1 else 0 {
      VotesAppend(before, a, b);
    }
  }

  lemma {:induction false} NotVoted(voted: seq<SocketAddr>, a: SocketAddr)
    ensures VotesFor(voted, a) == 0 <==> a !in voted
  {
    if voted != [] {
      var n := |voted| - 1;
      NotVoted(voted[..n], a);
      assert voted == voted[..n] + [voted[n]];
    }
  }

  /** With fewer than 65536 votes an address, the address taken at the end has the most of all. */
  lemma {:induction false} MostVotedWins(q: L.Lookup, voted: seq<SocketAddr>, order: seq<SocketAddr>)
    requires q.votes == map[] && voted != [] && forall a :: a in voted ==> a in order && VotesFor(voted, a) < 0x1_0000
    ensures var best := BestAddress(VotedAll(q, voted).votes, order);
      && best.Some? && best.value in voted
      && forall a :: VotesFor(voted, a) <= VotesFor(voted, best.value)
  {
    var votes := VotedAll(q, voted).votes;
    var best := BestAddress(votes, order);
    VotesAreCounted(q, voted);
    BestAddressHasMostVotes(votes, order);
    NotVoted(voted, voted[0]);
    assert voted[0] in voted && voted[0] in votes;
    forall a ensures VotesFor(voted, a) <= VotesFor(voted, best.value) {
      NotVoted(voted, a);
    }
  }

  // === The address and the firewalled flag ===

  /** Taking a new address sends one ping, to that address, and makes the node firewalled; the old one again, or none,
      changes nothing. */
  lemma {:induction false} NewAddressIsPinged(st: State, best: Option<SocketAddr>, now: nat)
    ensures var v := UpdateAddress(st, best, now);
      && (best.None? || st.publicAddress == best ==> v == st)
      && (best.Some? && st.publicAddress != best ==>
        && v.publicAddress == best && v.firewalled && |v.socket.sent| == |st.socket.sent| + 1
        && v.socket.sent[|st.socket.sent|].to == best.value
        && v.socket.sent[|st.socket.sent|].request.requestType.PingRequest?)
  {
  }

  ghost predicate SameAddress(st: State, st': State)
  {
    st'.firewalled == st.firewalled && st'.publicAddress == st.publicAddress
  }

  /** Nothing about the address changes, or the node is firewalled. */
  ghost predicate NoClaim(st: State, st': State) { SameAddress(st, st') || st'.firewalled }

  lemma {:induction false} PutSameAddress(cfg: Config, st: State, request: PutRequestSpecific, extra: seq<Node>,
      now: nat)
    ensures SameAddress(st, PutStep(cfg, st, request, extra, now).0)
  {
    match ConflictOf(st, request) {
      case Override => FreshSameAddress(cfg, st.(puts := st.puts - {PutTarget(request)}), request, extra, now);
      case NoConflict => FreshSameAddress(cfg, st, request, extra, now);
      case _ =>
    }
  }

  lemma {:induction false} GetSameAddress(cfg: Config, st: State, request: L.GetRequest, now: nat)
    ensures SameAddress(st, GetStep(cfg, st, request, [], now))
  {
  }

  lemma {:induction false} AtCachedSameAddress(st: State, p: P.Put, nodes: seq<Node>, now: nat)
    ensures SameAddress(st, PutAtCached(st, p, nodes, now).0)
  {
  }

  lemma {:induction false} FreshSameAddress(cfg: Config, st: State, request: PutRequestSpecific, extra: seq<Node>,
      now: nat)
    ensures SameAddress(st, PutFresh(cfg, st, request, extra, now).0)
  {
    var target, st1 := PutTarget(request), ReadCache(st, PutTarget(request));
    if UsesCache(st, target, now) {
      AtCachedSameAddress(st1, P.NewPut(target, request, extra), CachedNodes(st, target), now);
    } else {
      GetSameAddress(cfg, st1, L.GetValue(target, None, SaltOf(request)), now);
    }
  }

  lemma {:induction false} TickGetsSameAddress(cfg: Config, st: State, order: seq<Id>, now: nat, later: nat)
    ensures SameAddress(st, TickGets(cfg, st, order, now, later).0)
  {
    if order != [] {
      TickGetsSameAddress(cfg, st, order[..|order| - 1], now, later);
    }
  }

  lemma {:induction false} CleanOneNoClaim(cfg: Config, st: State, id: Id, nodes: seq<Node>, order: seq<SocketAddr>,
      now: nat)
    ensures NoClaim(st, CleanOne(cfg, st, id, nodes, order, now).0)
  {
    if id in st.queries {
      var st1 := LookupLeaves(cfg, st, id, nodes, order, now);
      NewAddressIsPinged(st.(queries := st.queries - {id}), BestAddress(st.queries[id].votes, order), now);
      assert NoClaim(st, st1);
      assert id in st1.puts ==> SameAddress(st1, WaitingPutStarts(st1, id, nodes, now).0);
    }
  }

  lemma {:induction false} CleanGetsNoClaim(cfg: Config, st: State, done: DoneGets, votes: Id -> seq<SocketAddr>,
      now: nat)
    ensures NoClaim(st, CleanGets(cfg, st, done, votes, now).0)
  {
    if done != [] {
      var n := |done| - 1;
      CleanGetsNoClaim(cfg, st, done[..n], votes, now);
      CleanOneNoClaim(cfg, CleanGets(cfg, st, done[..n], votes, now).0, done[n].0, done[n].1, votes(done[n].0), now);
    }
  }

  lemma {:induction false} PurgeSameAddress(st: State, nodes: seq<Node>, now: nat)
    ensures SameAddress(st, PingAndPurge(st, nodes, now))
  {
    if nodes != [] {
      PurgeSameAddress(st, nodes[..|nodes| - 1], now);
    }
  }

  lemma {:induction false} MaintainSameAddress(cfg: Config, st: State, now: nat)
    ensures SameAddress(st, Maintain(cfg, st, now))
  {
    var refresh := Elapsed(st.lastRefresh, now) >= REFRESH_TABLE_INTERVAL;
    var st1 := if refresh && !st.firewalled then st.(socket := st.socket.(serverMode := true)) else st;
    PurgeSameAddress(st1.(lastPing := now), AllNodes(st1.table), now);
  }

  lemma {:induction false} SeedSameAddress(st: State, nodes: seq<Node>, now: nat)
    ensures SameAddress(st, SeedAll(st, nodes, now))
  {
    SeedOnlyTable(st, nodes, now);
  }

  lemma {:induction false} OnResponseSameAddress(cfg: Config, st: State, from: SocketAddr, m: Message,
      putOrder: seq<Id>, getOrder: seq<Id>, now: nat)
    ensures SameAddress(st, OnResponse(cfg, st, from, m, putOrder, getOrder, now).0)
  {
  }

  /** The packet is a ping from this address. */
  ghost predicate PingsFrom(p: Option<Packet>, a: Option<SocketAddr>)
  {
    p.Some? && a == Some(p.value.from) && p.value.message.messageType.Request?
    && p.value.message.messageType.request.requestType.PingRequest?
  }

  lemma {:induction false} OnRequestClaims(cfg: Config, st: State, from: SocketAddr, r: RequestSpecific, now: nat,
      secret: seq<byte>, newId: Id)
    ensures var v := OnRequest(cfg, st, from, r, now, secret, newId);
      SameAddress(st, v)
      || (v.publicAddress == st.publicAddress == Some(from) && r.requestType.PingRequest?)
  {
    var st1 := Served(cfg, Seeded(cfg, st, from, r, now), from, r, now, secret);
    assert SameAddress(st, st1);
    GetSameAddress(cfg, st1.(firewalled := false), L.FindNode(newId), now);
  }

  lemma {:induction false} PacketClaims(cfg: Config, st: State, i: Input)
    ensures var v := HandleMessage(cfg, st, i).0;
      NoClaim(st, v) || (v.publicAddress == st.publicAddress && PingsFrom(i.packet, v.publicAddress))
  {
    var st1 := st.(socket := Received(st.socket, i.packet, i.later));
    if HandsOn(st.socket, i.packet, i.later) {
      var p := i.packet.value;
      if p.message.messageType.Request? {
        OnRequestClaims(cfg, st1, p.from, p.message.messageType.request, i.later, i.secret, i.newId);
      } else {
        OnResponseSameAddress(cfg, st1, p.from, p.message, i.putOrder, i.getOrder, i.later);
      }
    }
  }

  lemma {:induction false} TickClaims(cfg: Config, st: State, i: Input)
    ensures var v := Tick(cfg, st, i).0; NoClaim(st, v) || PingsFrom(i.packet, v.publicAddress)
  {
    var (st1, doneGets) := TickGets(cfg, st, i.getOrder, i.now, i.later);
    var st2 := Cleanup(cfg, st1, doneGets, TickPuts(st, i.putOrder, i.now), i.votes, i.later).0;
    TickGetsSameAddress(cfg, st, i.getOrder, i.now, i.later);
    CleanGetsNoClaim(cfg, st1, doneGets, i.votes, i.later);
    MaintainSameAddress(cfg, st2, i.later);
    PacketClaims(cfg, Maintain(cfg, st2, i.later), i);
  }

  /** Some tick of the run received a ping from this address. */
  ghost predicate Pinged(ops: seq<Op>, a: Option<SocketAddr>)
  {
    exists k :: 0 <= k < |ops| && ops[k].DoTick? && PingsFrom(ops[k].input.packet, a)
  }

  lemma {:induction false} PingedLonger(ops: seq<Op>, n: nat, a: Option<SocketAddr>)
    requires n <= |ops| && Pinged(ops[..n], a)
    ensures Pinged(ops, a)
  {
    var k :| 0 <= k < n && ops[..n][k].DoTick? && PingsFrom(ops[..n][k].input.packet, a);
    assert ops[k].DoTick? && PingsFrom(ops[k].input.packet, a);
  }

  /** In every run of a new node: it takes itself for reachable only after a ping has come from the very public address
      it has by then. */
  lemma {:induction false} ReachableOnlyIfPinged(cfg: Config, own: Id, timeout: nat, random: nat -> Id,
      serverMode: bool, store: V.Store, now: nat, ops: seq<Op>)
    ensures var v := RunNode(cfg, NewNode(own, timeout, random, serverMode, store, now), ops);
            !v.firewalled ==> Pinged(ops, v.publicAddress)
  {
    var st := NewNode(own, timeout, random, serverMode, store, now);
    if ops != [] {
      var n := |ops| - 1;
      var w, v := RunNode(cfg, st, ops[..n]), RunNode(cfg, st, ops);
      ReachableOnlyIfPinged(cfg, own, timeout, random, serverMode, store, now, ops[..n]);
      StepClaims(cfg, w, ops[n]);
      if !v.firewalled && SameAddress(w, v) {
        PingedLonger(ops, n, v.publicAddress);
      }
    }
  }

  lemma {:induction false} StepClaims(cfg: Config, st: State, op: Op)
    ensures var v := StepNode(cfg, st, op);
      NoClaim(st, v) || (op.DoTick? && PingsFrom(op.input.packet, v.publicAddress))
  {
    match op {
      case DoPut(request, extra, at) => PutSameAddress(cfg, st, request, extra, at);
      case DoGet(get, at) => GetSameAddress(cfg, st, get, at);
      case DoSeed(nodes, at) => SeedSameAddress(st, nodes, at);
      case DoTick(input) => TickClaims(cfg, st, input);
    }
  }
}
