/** The storage side of a node (rust/mainline/src/rpc/server.rs, server/tokens.rs, server/peers.rs): write
    tokens, the BEP 44 rules for mutable values, bounded stores. */
module Servers {
  import opened Bytes
  import opened Ids
  import opened Nodes
  import opened Messages
  import opened Mutable
  import opened Lrus

  /** What the server takes as given: the request filter, the digests, the signature scheme, and whether the random
      number drawn for the peer at an index is below the chance of the free slots among the peers left. */
  datatype Env = Env(allow: (RequestSpecific, SocketAddr) -> bool, digest: seq<byte> -> seq<byte>,
    sha1: seq<byte> -> Id, scheme: Scheme, takes: (nat, nat, nat) -> bool)

  /** The routing table as the server uses it. */
  datatype Directory = Directory(own: Id, closest: Id -> seq<Node>)

  datatype Caps = Caps(infoHashes: nat, peers: nat, mutables: nat, immutables: nat)

  // === Tokens ===

  datatype Tokens = Tokens(prevSecret: seq<byte>, currSecret: seq<byte>, lastUpdated: nat)

  function TokenFor(env: Env, ip: Ipv4, secret: seq<byte>): seq<byte>
  {
    (env.digest)([ip.a, ip.b, ip.c, ip.d] + secret)
  }

  function Generate(env: Env, t: Tokens, from: SocketAddr): seq<byte> { TokenFor(env, from.ip, t.currSecret) }

  predicate Validates(env: Env, t: Tokens, from: SocketAddr, token: seq<byte>)
  {
    token == TokenFor(env, from.ip, t.currSecret) || token == TokenFor(env, from.ip, t.prevSecret)
  }

  predicate ShouldUpdate(t: Tokens, now: nat) { Elapsed(t.lastUpdated, now) > TOKEN_ROTATE_INTERVAL }

  /** Lazily, before a request. */
  function Rotated(t: Tokens, now: nat, secret: seq<byte>): Tokens
  {
    if ShouldUpdate(t, now) then Tokens(t.currSecret, secret, now) else t
  }

  // === The stores ===

  datatype Store = Store(caps: Caps, tokens: Tokens, peers: Items<Id, Items<Id, SocketAddr>>,
                         immutables: Items<Id, seq<byte>>, mutables: Items<Id, MutableItem>)

  function Text(s: string): seq<byte>
  {
    seq(|s|, i requires 0 <= i < |s| => s[i] as int % 256)
  }

  function Failure(code: i32, description: string): MessageType { Error(ErrorSpecific(code, Text(description))) }

  function Ack(dir: Directory): MessageType { Response(PingResponse(dir.own)) }

  function ValidImmutable(env: Env, v: seq<byte>, target: Id): bool { (env.sha1)(Prefixed(v)) == target }

  function Values<K, V>(items: Items<K, V>): seq<V>
  {
    seq(|items|, i requires 0 <= i < |items| => items[i].1)
  }

  const SAMPLE_SIZE := 10

  /** The walk over ten peers or more, from index i on. */
  function Sampled(takes: (nat, nat, nat) -> bool, all: seq<SocketAddr>, i: nat, got: seq<SocketAddr>): seq<SocketAddr>
    requires i <= |all| && |got| <= SAMPLE_SIZE
    decreases |all| - i
  {
    if i == |all| || |got| == SAMPLE_SIZE then got
    else Sampled(takes, all, i + 1, if takes(i, SAMPLE_SIZE - |got|, |all| - i) then got + [all[i]] else got)
  }

  function PeersOfHash(st: Store, env: Env, infoHash: Id): Option<seq<SocketAddr>>
  {
    match Find(st.peers, infoHash)
    case None => None
    case Some(ps) =>
      if ps == [] then None
      else if |ps| < SAMPLE_SIZE then Some(Values(ps))
      else Some(Sampled(env.takes, Values(ps), 0, []))
  }

  function GetPeersReply(st: Store, env: Env, dir: Directory, from: SocketAddr, infoHash: Id): ResponseSpecific
  {
    var token, nodes := Generate(env, st.tokens, from), Some((dir.closest)(infoHash));
    match PeersOfHash(st, env, infoHash)
    case Some(peers) => GetPeersResponse(dir.own, token, nodes, peers)
    case None => NoValuesResponse(dir.own, token, nodes)
  }

  /** `handle_get_mutable`. */
  function GetMutableReply(st: Store, env: Env, dir: Directory, from: SocketAddr, target: Id,
      seqNo: Option<i64>): ResponseSpecific
  {
    var token, nodes := Generate(env, st.tokens, from), Some((dir.closest)(target));
    match Find(st.mutables, target)
    case None => NoValuesResponse(dir.own, token, nodes)
    case Some(item) =>
      if seqNo.Some? && item.seqNo <= seqNo.value then NoMoreRecentValueResponse(dir.own, token, nodes, item.seqNo)
      else GetMutableResponse(dir.own, token, nodes, item.value, item.key, item.seqNo, item.signature)
  }

  function GetValueReply(st: Store, env: Env, dir: Directory, from: SocketAddr, target: Id,
      seqNo: Option<i64>): ResponseSpecific
  {
    if seqNo.None? && Find(st.immutables, target).Some? then
      GetImmutableResponse(dir.own, Generate(env, st.tokens, from), Some((dir.closest)(target)),
          Find(st.immutables, target).value)
    else GetMutableReply(st, env, dir, from, target, seqNo)
  }

  function GetValueStore(st: Store, target: Id, seqNo: Option<i64>): Store
  {
    if seqNo.Some? then st.(mutables := Touched(st.mutables, target))
    else if Find(st.immutables, target).Some? then st.(immutables := Touched(st.immutables, target))
    else st.(mutables := Touched(st.mutables, target))
  }

  function Announced(st: Store, infoHash: Id, requester: Id, peer: SocketAddr): Store
  {
    var known := match Find(st.peers, infoHash) case None => [] case Some(ps) => ps;
    st.(peers := Stored(st.peers, st.caps.infoHashes, infoHash, Stored(known, st.caps.peers, requester, peer)))
  }

  /** Why a mutable put is refused; checks in this order. */
  function PutMutableError(st: Store, env: Env, from: SocketAddr, token: seq<byte>,
      put: PutRequestSpecific): Option<MessageType>
    requires put.PutMutable?
  {
    var previous := Find(st.mutables, put.target);
    if !Validates(env, st.tokens, from, token) then Some(Failure(203, "Bad token"))
    else if |put.v| > 1000 then Some(Failure(205, "Message (v field) too big."))
    else if put.salt.Some? && |put.salt.value| > 64 then Some(Failure(207, "salt (salt field) too big."))
    else if previous.Some? && put.cas.Some? && previous.value.seqNo != put.cas.value
      then Some(Failure(301, "CAS mismatched, re-read value and try again."))
    else if previous.Some? && put.seqNo < previous.value.seqNo
      then Some(Failure(302, "Sequence number less than current."))
    else if FromDhtMessage(env.scheme, put.target, put.k, put.v, put.seqNo, put.sig, put.salt).Refused?
      then Some(Failure(206, "Invalid signature"))
    else None
  }

  /** The stored values are looked at only once token and sizes are right. */
  predicate LooksUp(st: Store, env: Env, from: SocketAddr, token: seq<byte>, put: PutRequestSpecific)
    requires put.PutMutable?
  {
    Validates(env, st.tokens, from, token) && |put.v| <= 1000 && (put.salt.Some? ==> |put.salt.value| <= 64)
  }

  function PutMutableStore(st: Store, env: Env, from: SocketAddr, token: seq<byte>, put: PutRequestSpecific): Store
    requires put.PutMutable?
  {
    var touched := if LooksUp(st, env, from, token, put) then Touched(st.mutables, put.target) else st.mutables;
    if PutMutableError(st, env, from, token, put).Some? then st.(mutables := touched)
    else st.(mutables := Stored(touched, st.caps.mutables, put.target, ToItem(put)))
  }

  function PutStep(st: Store, env: Env, dir: Directory, from: SocketAddr, requester: Id, token: seq<byte>,
      put: PutRequestSpecific): (Store, MessageType)
  {
    match put
    case AnnouncePeer(infoHash, port, implied) =>
      if !Validates(env, st.tokens, from, token) then (st, Failure(203, "Bad token"))
      else (Announced(st, infoHash, requester, if implied == Some(true) then from else SocketAddr(from.ip, port)),
          Ack(dir))
    case PutImmutable(target, v) =>
      if !Validates(env, st.tokens, from, token) then (st, Failure(203, "Bad token"))
      else if |v| > 1000 then (st, Failure(205, "Message (v field) too big."))
      else if !ValidImmutable(env, v, target) then (st, Failure(203, "Target doesn't match the sha1 hash of v field"))
      else (st.(immutables := Stored(st.immutables, st.caps.immutables, target, v)), Ack(dir))
    case PutMutable(_, _, _, _, _, _, _) =>
      var e := PutMutableError(st, env, from, token, put);
      (PutMutableStore(st, env, from, token, put), if e.Some? then e.value else Ack(dir))
  }

  /** `handle_request`: the new store and the answer, if any. `secret` is the random secret in case of rotation. */
  function Handle(st0: Store, env: Env, dir: Directory, from: SocketAddr, request: RequestSpecific, now: nat,
      secret: seq<byte>): (Store, Option<MessageType>)
  {
    if !(env.allow)(request, from) then (st0, None)
    else
      var st := st0.(tokens := Rotated(st0.tokens, now, secret));
      match request.requestType
      case PingRequest => (st, Some(Ack(dir)))
      case FindNodeRequest(target) => (st, Some(Response(FindNodeResponse(dir.own, (dir.closest)(target)))))
      case GetPeersRequest(infoHash) =>
        (st.(peers := Touched(st.peers, infoHash)), Some(Response(GetPeersReply(st, env, dir, from, infoHash))))
      case GetValueRequest(target, seqNo, _) =>
        (GetValueStore(st, target, seqNo), Some(Response(GetValueReply(st, env, dir, from, target, seqNo))))
      case PutRequest(token, put) =>
        var (st', answer) := PutStep(st, env, dir, from, request.requesterId, token, put);
        (st', Some(answer))
  }

  // === The server as a mutable object ===

  class Server {
    const env: Env
    const caps: Caps
    var tokens: Tokens
    const peers: LruCache<Id, Items<Id, SocketAddr>>
    const immutableValues: LruCache<Id, seq<byte>>
    const mutableValues: LruCache<Id, MutableItem>

    ghost predicate Valid()
      reads this
    {
      caps == Caps(peers.cap, caps.peers, mutableValues.cap, immutableValues.cap)
    }

    ghost function Value(): Store
      reads this, peers, immutableValues, mutableValues
    {
      Store(caps, tokens, peers.items, immutableValues.items, mutableValues.items)
    }

    constructor (env: Env, caps: Caps, tokens: Tokens)
      ensures Valid() && Value() == Store(caps, tokens, [], [], []) && this.env == env
    {
      this.env, this.caps, this.tokens := env, caps, tokens;
      peers := new LruCache(caps.infoHashes);
      immutableValues := new LruCache(caps.immutables);
      mutableValues := new LruCache(caps.mutables);
    }

    method HandleRequest(dir: Directory, from: SocketAddr, request: RequestSpecific, now: nat, secret: seq<byte>)
        returns (r: Option<MessageType>)
      requires Valid()
      modifies this, peers, immutableValues, mutableValues
      ensures Valid() && (Value(), r) == Handle(old(Value()), env, dir, from, request, now, secret)
    {
      if !(env.allow)(request, from) {
        return None;
      }
      if ShouldUpdate(tokens, now) {
        tokens := Tokens(tokens.currSecret, secret, now);
      }
      match request.requestType {
        case PingRequest =>
          r := Some(Ack(dir));
        case FindNodeRequest(target) =>
          r := Some(Response(FindNodeResponse(dir.own, (dir.closest)(target))));
        case GetPeersRequest(infoHash) =>
          var ps := GetRandomPeers(infoHash);
          var token := Generate(env, tokens, from);
          var nodes := Some((dir.closest)(infoHash));
          r := Some(Response(if ps.Some? then GetPeersResponse(dir.own, token, nodes, ps.value)
              else NoValuesResponse(dir.own, token, nodes)));
        case GetValueRequest(target, seqNo, _) =>
          var response := HandleGetValue(dir, from, target, seqNo);
          r := Some(Response(response));
        case PutRequest(token, put) =>
          var answer := HandlePut(dir, from, request.requesterId, token, put);
          r := Some(answer);
      }
    }

    method GetRandomPeers(infoHash: Id) returns (r: Option<seq<SocketAddr>>)
      requires Valid()
      modifies peers
      ensures Valid() && Value() == old(Value()).(peers := Touched(old(Value()).peers, infoHash))
      ensures r == PeersOfHash(old(Value()), env, infoHash)
    {
      var ps := peers.Get(infoHash);
      match ps {
        case None => r := None;
        case Some(all) =>
          if all == [] {
            return None;
          }
          if |all| < SAMPLE_SIZE {
            return Some(Values(all));
          }
          var got := SamplePeers(Values(all));
          r := Some(got);
      }
    }

    /** The loop leaves as soon as the sample is full. */
    method SamplePeers(all: seq<SocketAddr>) returns (got: seq<SocketAddr>)
      ensures got == Sampled(env.takes, all, 0, [])
    {
      got := [];
      var i := 0;
      while i < |all| && |got| < SAMPLE_SIZE
        invariant i <= |all| && |got| <= SAMPLE_SIZE
        invariant Sampled(env.takes, all, i, got) == Sampled(env.takes, all, 0, [])
      {
        if (env.takes)(i, SAMPLE_SIZE - |got|, |all| - i) {
          got := got + [all[i]];
        }
        i := i + 1;
      }
    }

    method HandleGetValue(dir: Directory, from: SocketAddr, target: Id, seqNo: Option<i64>)
        returns (r: ResponseSpecific)
      requires Valid()
      modifies immutableValues, mutableValues
      ensures Valid() && Value() == GetValueStore(old(Value()), target, seqNo)
      ensures r == GetValueReply(old(Value()), env, dir, from, target, seqNo)
    {
      if seqNo.Some? {
        r := HandleGetMutable(dir, from, target, seqNo);
      } else {
        var v := immutableValues.Get(target);
        match v {
          case Some(x) => r := GetImmutableResponse(dir.own, Generate(env, tokens, from), Some((dir.closest)(target)),
              x);
          case None => r := HandleGetMutable(dir, from, target, seqNo);
        }
      }
    }

    method HandleGetMutable(dir: Directory, from: SocketAddr, target: Id, seqNo: Option<i64>)
        returns (r: ResponseSpecific)
      requires Valid()
      modifies mutableValues
      ensures Valid() && Value() == old(Value()).(mutables := Touched(old(Value()).mutables, target))
      ensures r == GetMutableReply(old(Value()), env, dir, from, target, seqNo)
    {
      var found := mutableValues.Get(target);
      var token := Generate(env, tokens, from);
      var nodes := Some((dir.closest)(target));
      match found {
        case None => r := NoValuesResponse(dir.own, token, nodes);
        case Some(item) =>
          if seqNo.Some? && item.seqNo <= seqNo.value {
            r := NoMoreRecentValueResponse(dir.own, token, nodes, item.seqNo);
          } else {
            r := GetMutableResponse(dir.own, token, nodes, item.value, item.key, item.seqNo, item.signature);
          }
      }
    }

    method HandlePut(dir: Directory, from: SocketAddr, requester: Id, token: seq<byte>, put: PutRequestSpecific)
        returns (r: MessageType)
      requires Valid()
      modifies peers, immutableValues, mutableValues
      ensures Valid() && (Value(), r) == PutStep(old(Value()), env, dir, from, requester, token, put)
    {
      if !Validates(env, tokens, from, token) {
        return Failure(203, "Bad token");
      }
      match put {
        case AnnouncePeer(infoHash, port, implied) =>
          AddPeer(infoHash, requester, if implied == Some(true) then from else SocketAddr(from.ip, port));
          r := Ack(dir);
        case PutImmutable(target, v) =>
          if |v| > 1000 {
            return Failure(205, "Message (v field) too big.");
          }
          if !ValidImmutable(env, v, target) {
            return Failure(203, "Target doesn't match the sha1 hash of v field");
          }
          var previous := immutableValues.Put(target, v);
          r := Ack(dir);
        case PutMutable(_, _, _, _, _, _, _) =>
          r := HandlePutMutable(dir, from, token, put);
      }
    }

    method AddPeer(infoHash: Id, requester: Id, peer: SocketAddr)
      requires Valid()
      modifies peers
      ensures Valid() && Value() == Announced(old(Value()), infoHash, requester, peer)
    {
      var ps := Find(peers.items, infoHash);
      var all := Stored(if ps.Some? then ps.value else [], caps.peers, requester, peer);
      var previous := peers.Put(infoHash, all);
    }

    method HandlePutMutable(dir: Directory, from: SocketAddr, token: seq<byte>, put: PutRequestSpecific)
        returns (r: MessageType)
      requires Valid() && put.PutMutable? && Validates(env, tokens, from, token)
      modifies mutableValues
      ensures Valid() && (Value(), r) == PutStep(old(Value()), env, dir, from, put.target, token, put)
    {
      var error := CheckMutablePut(from, token, put);
      if error.Some? {
        return error.value;
      }
      var replaced := mutableValues.Put(put.target, ToItem(put));
      r := Ack(dir);
    }

    /** The tests behind that of the token, in order; the stored item is looked at once the sizes are right. */
    method CheckMutablePut(from: SocketAddr, token: seq<byte>, put: PutRequestSpecific)
        returns (error: Option<MessageType>)
      requires Valid() && put.PutMutable? && Validates(env, tokens, from, token)
      modifies mutableValues
      ensures Valid() && error == PutMutableError(old(Value()), env, from, token, put)
      ensures Value() == old(Value()).(mutables := if LooksUp(old(Value()), env, from, token, put)
          then Touched(old(Value()).mutables, put.target) else old(Value()).mutables)
    {
      if |put.v| > 1000 {
        return Some(Failure(205, "Message (v field) too big."));
      }
      if put.salt.Some? && |put.salt.value| > 64 {
        return Some(Failure(207, "salt (salt field) too big."));
      }
      var previous := mutableValues.Get(put.target);
      if previous.Some? {
        if put.cas.Some? && previous.value.seqNo != put.cas.value {
          return Some(Failure(301, "CAS mismatched, re-read value and try again."));
        }
        if put.seqNo < previous.value.seqNo {
          return Some(Failure(302, "Sequence number less than current."));
        }
      }
      var checked := FromDhtMessage(env.scheme, put.target, put.k, put.v, put.seqNo, put.sig, put.salt);
      error := if checked.Refused? then Some(Failure(206, "Invalid signature")) else None;
    }
  }

  // === One request and the mutable store ===

  ghost predicate StoreOk(st: Store) { LruOk(st.mutables, st.caps.mutables) }

  datatype Call = Call(dir: Directory, from: SocketAddr, request: RequestSpecific, now: nat, secret: seq<byte>)

  function Step(st: Store, env: Env, c: Call): Store { Handle(st, env, c.dir, c.from, c.request, c.now, c.secret).0 }

  function Answer(st: Store, env: Env,
      c: Call): Option<MessageType> { Handle(st, env, c.dir, c.from, c.request, c.now, c.secret).1 }

  predicate IsMutablePut(c: Call) { c.request.requestType.PutRequest? && c.request.requestType.put.PutMutable? }

  function PutOf(c: Call): PutRequestSpecific
    requires IsMutablePut(c)
  {
    c.request.requestType.put
  }

  /** The server acknowledges the call as a mutable put. */
  predicate IsAccepted(st: Store, env: Env, c: Call)
  {
    IsMutablePut(c) && Answer(st, env, c) == Some(Ack(c.dir))
  }

  /** The rules of BEP 44 for one put against what is stored. */
  predicate Allowed(st: Store, env: Env, c: Call)
    requires IsMutablePut(c)
  {
    var put, previous := PutOf(c), Find(st.mutables, PutOf(c).target);
    && (env.allow)(c.request, c.from)
    && Validates(env, Rotated(st.tokens, c.now, c.secret), c.from, c.request.requestType.token)
    && |put.v| <= 1000 && (put.salt.Some? ==> |put.salt.value| <= 64)
    && (previous.Some? ==>
      previous.value.seqNo <= put.seqNo && (put.cas.Some? ==> put.cas.value == previous.value.seqNo))
    && env.scheme.validKey(put.k) && env.scheme.verify(put.k, Signable(put.seqNo, put.v, put.salt), put.sig)
  }

  lemma {:induction false} AcceptedIff(st: Store, env: Env, c: Call)
    requires IsMutablePut(c)
    ensures IsAccepted(st, env, c) <==> Allowed(st, env, c)
  {
  }

  /** The put evicts k: a full store and a new target. */
  predicate Drops(st: Store, env: Env, c: Call, k: Id)
  {
    IsAccepted(st, env, c) && Evicts(st.mutables, st.caps.mutables, PutOf(c).target, k)
  }

  /** What a call does to one stored item: only an accepted put changes anything, to exactly its own item, and
      the only other loss is an eviction. */
  lemma {:induction false} StepFinds(st: Store, env: Env, c: Call, k: Id)
    requires StoreOk(st)
    ensures StoreOk(Step(st, env, c)) && Step(st, env, c).caps == st.caps
    ensures Find(Step(st, env, c).mutables, k) ==
      if IsAccepted(st, env, c) && PutOf(c).target == k then Some(ToItem(PutOf(c)))
      else if Drops(st, env, c, k) then None
      else Find(st.mutables, k)
  {
    if IsMutablePut(c) {
      PutFinds(st.(tokens := Rotated(st.tokens, c.now, c.secret)), env, c.from, c.request.requestType.token, PutOf(c),
          k);
    } else {
      OtherStepFinds(st, env, c, k);
    }
  }

  lemma {:induction false} OtherStepFinds(st: Store, env: Env, c: Call, k: Id)
    requires StoreOk(st) && !IsMutablePut(c)
    ensures StoreOk(Step(st, env, c)) && Step(st, env, c).caps == st.caps
    ensures Find(Step(st, env, c).mutables, k) == Find(st.mutables, k)
  {
    OtherMutables(st, env, c);
    if c.request.requestType.GetValueRequest? {
      TouchedFinds(st.mutables, st.caps.mutables, c.request.requestType.target, k);
    }
  }

  lemma {:induction false} OtherMutables(st: Store, env: Env, c: Call)
    requires !IsMutablePut(c)
    ensures Step(st, env, c).caps == st.caps
    ensures Step(st, env, c).mutables == st.mutables
      || (c.request.requestType.GetValueRequest?
          && Step(st, env, c).mutables == Touched(st.mutables, c.request.requestType.target))
  {
  }

  lemma {:induction false} PutFinds(st: Store, env: Env, from: SocketAddr, token: seq<byte>, put: PutRequestSpecific,
      k: Id)
    requires StoreOk(st) && put.PutMutable?
    ensures var st' := PutMutableStore(st, env, from, token, put);
      && StoreOk(st') && st'.caps == st.caps
      && Find(st'.mutables, k) ==
        if PutMutableError(st, env, from, token, put).Some? then Find(st.mutables, k)
        else if put.target == k then Some(ToItem(put))
        else if Evicts(st.mutables, st.caps.mutables, put.target, k) then None
        else Find(st.mutables, k)
  {
    LooksUpFirst(st, env, from, token, put);
    TouchedFinds(st.mutables, st.caps.mutables, put.target, k);
    TouchThenStore(st.mutables, st.caps.mutables, put.target, ToItem(put), k);
  }

  lemma {:induction false} LooksUpFirst(st: Store, env: Env, from: SocketAddr, token: seq<byte>,
      put: PutRequestSpecific)
    requires put.PutMutable?
    ensures PutMutableError(st, env, from, token, put).None? ==> LooksUp(st, env, from, token, put)
  {
  }

  // === Runs ===

  function Run(st: Store, env: Env, cs: seq<Call>): Store
  {
    if cs == [] then st else Step(Run(st, env, cs[..|cs| - 1]), env, cs[|cs| - 1])
  }

  function Before(st: Store, env: Env, cs: seq<Call>, i: nat): Store
    requires i <= |cs|
  {
    Run(st, env, cs[..i])
  }

  lemma {:induction false} BeforeStep(st: Store, env: Env, cs: seq<Call>, i: nat)
    requires i < |cs|
    ensures Before(st, env, cs, i + 1) == Step(Before(st, env, cs, i), env, cs[i])
  {
    assert cs[..i + 1][..i] == cs[..i];
  }

  ghost predicate DroppedAt(st: Store, env: Env, cs: seq<Call>, k: Id, i: nat)
    requires i < |cs|
  {
    Drops(Before(st, env, cs, i), env, cs[i], k)
  }

  ghost predicate NeverDropped(st: Store, env: Env, cs: seq<Call>, k: Id)
  {
    forall i :: 0 <= i < |cs| ==> !DroppedAt(st, env, cs, k, i)
  }

  lemma {:induction false} RunOk(st: Store, env: Env, cs: seq<Call>, i: nat)
    requires StoreOk(st) && i <= |cs|
    ensures StoreOk(Before(st, env, cs, i)) && Before(st, env, cs, i).caps == st.caps
  {
    if i > 0 {
      RunOk(st, env, cs, i - 1);
      BeforeStep(st, env, cs, i - 1);
      StepFinds(Before(st, env, cs, i - 1), env, cs[i - 1], cs[i - 1].dir.own);
    }
  }

  /** While a target is not evicted, its item stays and its sequence number never decreases. */
  lemma {:induction false} SeqNeverDecreases(st: Store, env: Env, cs: seq<Call>, k: Id, i: nat, j: nat)
    requires StoreOk(st) && i <= j <= |cs| && NeverDropped(st, env, cs, k)
    requires Find(Before(st, env, cs, i).mutables, k).Some?
    ensures Find(Before(st, env, cs, j).mutables, k).Some?
    ensures Find(Before(st, env, cs, i).mutables, k).value.seqNo <= Find(Before(st, env, cs, j).mutables, k).value.seqNo
    decreases j
  {
    if i < j {
      SeqNeverDecreases(st, env, cs, k, i, j - 1);
      var v := Before(st, env, cs, j - 1);
      RunOk(st, env, cs, j - 1);
      BeforeStep(st, env, cs, j - 1);
      StepFinds(v, env, cs[j - 1], k);
      assert !DroppedAt(st, env, cs, k, j - 1);
      if IsAccepted(v, env, cs[j - 1]) {
        AcceptedIff(v, env, cs[j - 1]);
      }
    }
  }

  ghost predicate AcceptedAt(st: Store, env: Env, cs: seq<Call>, k: Id, i: nat)
    requires i < |cs|
  {
    IsAccepted(Before(st, env, cs, i), env, cs[i]) && PutOf(cs[i]).target == k
  }

  /** A put that compares with s and goes beyond it. */
  predicate SwapsFrom(c: Call, s: int) { IsMutablePut(c) && PutOf(c).cas.Some? && PutOf(c).cas.value == s
      && PutOf(c).seqNo > s }

  /** Compare and swap: of all puts that name s and go beyond it, a target that is stored accepts one at most. */
  lemma {:induction false} AtMostOneSwap(st: Store, env: Env, cs: seq<Call>, k: Id, s: int, i: nat, j: nat)
    requires StoreOk(st) && NeverDropped(st, env, cs, k) && Find(st.mutables, k).Some?
    requires i < |cs| && j < |cs| && AcceptedAt(st, env, cs, k, i) && AcceptedAt(st, env, cs, k, j)
    requires SwapsFrom(cs[i], s) && SwapsFrom(cs[j], s)
    ensures i == j
  {
    if i < j {
      SecondSwapFails(st, env, cs, k, s, i, j);
    } else if j < i {
      SecondSwapFails(st, env, cs, k, s, j, i);
    }
  }

  lemma {:induction false} SecondSwapFails(st: Store, env: Env, cs: seq<Call>, k: Id, s: int, i: nat, j: nat)
    requires StoreOk(st) && NeverDropped(st, env, cs, k) && i < j < |cs|
    requires AcceptedAt(st, env, cs, k, i) && SwapsFrom(cs[i], s) && SwapsFrom(cs[j], s)
    ensures !AcceptedAt(st, env, cs, k, j)
  {
    RunOk(st, env, cs, i);
    BeforeStep(st, env, cs, i);
    StepFinds(Before(st, env, cs, i), env, cs[i], k);
    SeqNeverDecreases(st, env, cs, k, i + 1, j);
    AcceptedIff(Before(st, env, cs, j), env, cs[j]);
  }

  /** A cell that each step writes, empties or leaves holds what was written last. */
  lemma {:induction false} LastWrite<X>(writes: seq<Option<X>>, cell: seq<Option<X>>) returns (i: nat)
    requires |cell| == |writes| + 1 && cell[0].None? && cell[|writes|].Some?
    requires forall j :: 0 <= j < |writes| ==> CellStep(writes, cell, j)
    ensures i < |writes| && writes[i] == cell[|writes|] && forall j :: i < j < |writes| ==> writes[j].None?
  {
    var n := |writes| - 1;
    assert CellStep(writes, cell, n);
    if writes[n].Some? {
      i := n;
    } else {
      var writes', cell' := writes[..n], cell[..n + 1];
      forall j | 0 <= j < n ensures CellStep(writes', cell', j) {
        assert CellStep(writes, cell, j);
      }
      i := LastWrite(writes', cell');
    }
  }

  ghost predicate CellStep<X>(writes: seq<Option<X>>, cell: seq<Option<X>>, j: nat)
    requires j < |writes| && |cell| == |writes| + 1
  {
    if writes[j].Some? then cell[j + 1] == writes[j] else cell[j + 1] == None || cell[j + 1] == cell[j]
  }

  /** What the call writes under k, if anything. */
  ghost function Writes(st: Store, env: Env, c: Call, k: Id): Option<MutableItem>
  {
    if IsAccepted(st, env, c) && PutOf(c).target == k then Some(ToItem(PutOf(c))) else None
  }

  ghost function AllWrites(st: Store, env: Env, cs: seq<Call>, k: Id): (w: seq<Option<MutableItem>>)
    ensures |w| == |cs|
  {
    seq(|cs|, i requires 0 <= i < |cs| => Writes(Before(st, env, cs, i), env, cs[i], k))
  }

  /** In every run, what is stored under k is the item of the last accepted put of k: a register. */
  lemma {:induction false} StoredIsLastAccepted(st: Store, env: Env, cs: seq<Call>, k: Id) returns (i: nat)
    requires StoreOk(st) && Find(st.mutables, k).None? && Find(Run(st, env, cs).mutables, k).Some?
    ensures i < |cs| && AllWrites(st, env, cs, k)[i] == Find(Run(st, env, cs).mutables, k)
    ensures forall j :: i < j < |cs| ==> AllWrites(st, env, cs, k)[j].None?
  {
    var writes := AllWrites(st, env, cs, k);
    var cell := seq(|cs| + 1, j requires 0 <= j <= |cs| => Find(Before(st, env, cs, j).mutables, k));
    assert cs[..|cs|] == cs;
    forall j | 0 <= j < |cs| ensures CellStep(writes, cell, j) {
      RunOk(st, env, cs, j);
      BeforeStep(st, env, cs, j);
      OneWrite(Before(st, env, cs, j), env, cs[j], k);
    }
    i := LastWrite(writes, cell);
  }

  lemma {:induction false} OneWrite(st: Store, env: Env, c: Call, k: Id)
    requires StoreOk(st)
    ensures var w, after := Writes(st, env, c, k), Find(Step(st, env, c).mutables, k);
            if w.Some? then after == w else after == None || after == Find(st.mutables, k)
  {
    StepFinds(st, env, c, k);
  }

  /** A get that the filter allows and that is answered from the mutable store. */
  predicate ReadsMutable(st: Store, env: Env, c: Call, k: Id)
  {
    && (env.allow)(c.request, c.from) && c.request.requestType.GetValueRequest? && c.request.requestType.target == k
    && (c.request.requestType.seqNo.Some? || Find(st.immutables, k).None?)
  }

  /** The response carries the item as its writer sent it. */
  predicate Carries(r: ResponseSpecific, put: PutRequestSpecific)
  {
    r.GetMutableResponse? && put.PutMutable?
    && r.v == put.v && r.k == put.k && r.seqNo == put.seqNo && r.sig == put.sig
  }

  /** What a reader is sent, in every run: the item of the last accepted put of the target as its writer signed it,
      or, when the reader has it already, its sequence number. */
  lemma {:induction false} ReadsLastAccepted(st: Store, env: Env, cs: seq<Call>, c: Call, k: Id) returns (i: nat)
    requires StoreOk(st) && Find(st.mutables, k).None? && Find(Run(st, env, cs).mutables, k).Some?
    requires ReadsMutable(Run(st, env, cs), env, c, k)
    ensures i < |cs| && AcceptedAt(st, env, cs, k, i) && forall j :: i < j < |cs| ==> !AcceptedAt(st, env, cs, k, j)
    ensures var put, asked, a := PutOf(cs[i]), c.request.requestType.seqNo, Answer(Run(st, env, cs), env, c);
      && a.Some? && a.value.Response?
      && (if asked.Some? && put.seqNo <= asked.value
          then a.value.response.NoMoreRecentValueResponse? && a.value.response.seqNo == put.seqNo
          else Carries(a.value.response, put))
      && env.scheme.verify(put.k, Signable(put.seqNo, put.v, put.salt), put.sig)
  {
    i := StoredIsLastAccepted(st, env, cs, k);
    forall j | i < j < |cs| ensures !AcceptedAt(st, env, cs, k, j) {
      assert AllWrites(st, env, cs, k)[j].None?;
    }
    AcceptedIff(Before(st, env, cs, i), env, cs[i]);
  }

  /** Where nothing is stored, or nothing has ever been accepted, a reader is told that there is no value. */
  lemma {:induction false} NothingToRead(st: Store, env: Env, cs: seq<Call>, c: Call, k: Id)
    requires StoreOk(st) && Find(st.mutables, k).None? && ReadsMutable(Run(st, env, cs), env, c, k)
    requires NeverDropped(st, env, cs, k)
    ensures var a := Answer(Run(st, env, cs), env, c);
      a.Some? && a.value.Response?
      && (a.value.response.NoValuesResponse? <==> forall i :: 0 <= i < |cs| ==> !AcceptedAt(st, env, cs, k, i))
  {
    assert cs[..|cs|] == cs;
    if Find(Run(st, env, cs).mutables, k).Some? {
      var i := StoredIsLastAccepted(st, env, cs, k);
      assert AcceptedAt(st, env, cs, k, i);
    } else {
      forall i | 0 <= i < |cs| ensures !AcceptedAt(st, env, cs, k, i) {
        if AcceptedAt(st, env, cs, k, i) {
          RunOk(st, env, cs, i);
          BeforeStep(st, env, cs, i);
          StepFinds(Before(st, env, cs, i), env, cs[i], k);
          SeqNeverDecreases(st, env, cs, k, i + 1, |cs|);
        }
      }
    }
  }

  // === When nothing is evicted ===

  ghost predicate TargetsIn(cs: seq<Call>, all: set<Id>)
  {
    forall i :: 0 <= i < |cs| && IsMutablePut(cs[i]) ==> PutOf(cs[i]).target in all
  }

  lemma {:induction false} KeysCount<K, V>(items: Items<K, V>)
    requires DistinctKeys(items)
    ensures |Keys(items)| == |items|
  {
    if items == [] {
      assert Keys(items) == {};
    } else {
      var n := |items| - 1;
      KeysCount(items[..n]);
      assert items[n].0 !in Keys(items[..n]);
      assert Keys(items) == Keys(items[..n]) + {items[n].0} by {
        forall k | k in Keys(items) ensures k in Keys(items[..n]) + {items[n].0} {
          var i :| 0 <= i < |items| && items[i].0 == k;
          assert i < n ==> items[..n][i].0 == k;
        }
        forall k | k in Keys(items[..n]) ensures k in Keys(items) {
          var i :| 0 <= i < n && items[..n][i].0 == k;
          assert items[i].0 == k;
        }
      }
    }
  }

  /** A store that has room for every target written never evicts. */
  lemma {:induction false} RoomMeansNoDrop(st: Store, env: Env, c: Call, all: set<Id>, k: Id)
    requires StoreOk(st) && Keys(st.mutables) <= all && |all| <= st.caps.mutables && TargetsIn([c], all)
    ensures !Drops(st, env, c, k)
  {
    if IsMutablePut(c) {
      var t := PutOf(c).target;
      assert [c][0] == c;
      FindIff(st.mutables, t);
      KeysCount(st.mutables);
      if Find(st.mutables, t).None? {
        SubsetSize(Keys(st.mutables), all - {t});
      }
    }
  }

  lemma {:induction false} StepKeys(st: Store, env: Env, c: Call, all: set<Id>)
    requires StoreOk(st) && Keys(st.mutables) <= all && TargetsIn([c], all)
    ensures Keys(Step(st, env, c).mutables) <= all
  {
    assert [c][0] == c;
    forall k | k in Keys(Step(st, env, c).mutables) ensures k in all {
      FindIff(Step(st, env, c).mutables, k);
      FindIff(st.mutables, k);
      StepFinds(st, env, c, k);
    }
  }

  lemma {:induction false} FewTargetsKeys(st: Store, env: Env, cs: seq<Call>, all: set<Id>, i: nat)
    requires StoreOk(st) && Keys(st.mutables) <= all && TargetsIn(cs, all) && i <= |cs|
    ensures Keys(Before(st, env, cs, i).mutables) <= all
  {
    if i > 0 {
      FewTargetsKeys(st, env, cs, all, i - 1);
      RunOk(st, env, cs, i - 1);
      BeforeStep(st, env, cs, i - 1);
      assert [cs[i - 1]][0] == cs[i - 1];
      StepKeys(Before(st, env, cs, i - 1), env, cs[i - 1], all);
    }
  }

  /** With no more targets than the store can hold, no target is ever evicted. */
  lemma {:induction false} FewTargetsNeverDropped(st: Store, env: Env, cs: seq<Call>, all: set<Id>, k: Id)
    requires StoreOk(st) && Keys(st.mutables) <= all && |all| <= st.caps.mutables && TargetsIn(cs, all)
    ensures NeverDropped(st, env, cs, k)
  {
    forall i | 0 <= i < |cs| ensures !DroppedAt(st, env, cs, k, i) {
      FewTargetsKeys(st, env, cs, all, i);
      RunOk(st, env, cs, i);
      assert [cs[i]][0] == cs[i];
      RoomMeansNoDrop(Before(st, env, cs, i), env, cs[i], all, k);
    }
  }
}
