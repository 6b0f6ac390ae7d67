/** KRPC messages (rust/mainline/src/common/messages.rs) and their wire dictionaries
    (rust/mainline/src/common/messages/internal.rs). */
module Messages {
  import opened Bytes
  import opened Ids
  import opened Nodes

  type Bytes4 = s: seq<byte> | |s| == 4 witness seq(4, i => 0)
  type Key32 = s: seq<byte> | |s| == 32 witness seq(32, i => 0)
  type Sig64 = s: seq<byte> | |s| == 64 witness seq(64, i => 0)

  // === Messages ===

  datatype Message = Message(transactionId: u32, version: Option<Bytes4>, requesterIp: Option<SocketAddr>,
                             messageType: MessageType, readOnly: bool)

  datatype MessageType =
    | Request(request: RequestSpecific)
    | Response(response: ResponseSpecific)
    | Error(error: ErrorSpecific)

  /** The description is the UTF-8 of the string. */
  datatype ErrorSpecific = ErrorSpecific(code: i32, description: seq<byte>)

  datatype RequestSpecific = RequestSpecific(requesterId: Id, requestType: RequestType)

  datatype RequestType =
    | PingRequest
    | FindNodeRequest(target: Id)
    | GetPeersRequest(infoHash: Id)
    | GetValueRequest(target: Id, seqNo: Option<i64>, salt: Option<seq<byte>>)
    | PutRequest(token: seq<byte>, put: PutRequestSpecific)

  datatype PutRequestSpecific =
    | AnnouncePeer(infoHash: Id, port: u16, impliedPort: Option<bool>)
    | PutImmutable(target: Id, v: seq<byte>)
    | PutMutable(target: Id, v: seq<byte>, k: Key32, seqNo: i64, sig: Sig64, salt: Option<seq<byte>>, cas: Option<i64>)

  datatype ResponseSpecific =
    | PingResponse(responderId: Id)
    | FindNodeResponse(responderId: Id, nodeList: seq<Node>)
    | GetPeersResponse(responderId: Id, token: seq<byte>, nodes: Option<seq<Node>>, values: seq<SocketAddr>)
    | GetImmutableResponse(responderId: Id, token: seq<byte>, nodes: Option<seq<Node>>, v: seq<byte>)
    | GetMutableResponse(responderId: Id, token: seq<byte>, nodes: Option<seq<Node>>, v: seq<byte>, k: Key32,
        seqNo: i64, sig: Sig64)
    | NoValuesResponse(responderId: Id, token: seq<byte>, nodes: Option<seq<Node>>)
    | NoMoreRecentValueResponse(responderId: Id, token: seq<byte>, nodes: Option<seq<Node>>, seqNo: i64)

  function PutTarget(r: PutRequestSpecific): Id
  {
    match r
    case AnnouncePeer(infoHash, _, _) => infoHash
    case PutImmutable(target, _) => target
    case PutMutable(target, _, _, _, _, _, _) => target
  }

  function AuthorId(m: Message): Option<Id>
  {
    match m.messageType
    case Request(r) => Some(r.requesterId)
    case Response(r) => Some(r.responderId)
    case Error(_) => None
  }

  function CloserNodes(m: Message): Option<seq<Node>>
  {
    if !m.messageType.Response? then None
    else
      match m.messageType.response
      case PingResponse(_) => None
      case FindNodeResponse(_, nodeList) => Some(nodeList)
      case r => r.nodes
  }

  function TokenOf(m: Message): Option<(Id, seq<byte>)>
  {
    if !m.messageType.Response? then None
    else
      match m.messageType.response
      case PingResponse(_) => None
      case FindNodeResponse(_, _) => None
      case r => Some((r.responderId, r.token))
  }

  // === Addresses and nodes as bytes ===

  datatype DecodeError = NoSuchVariant | InvalidNodes4 | Ipv6Unsupported | InvalidSocketAddrEncodingLength

  /** Panics: an `expect` fails and no message is returned. */
  datatype Decoded<+T> = Ok(value: T) | Err(error: DecodeError) | Panics

  function AddrBytes(a: SocketAddr): (r: seq<byte>)
    ensures |r| == 6
  {
    [a.ip.a, a.ip.b, a.ip.c, a.ip.d, a.port / 256, a.port % 256]
  }

  function AddrOf(s: seq<byte>): Decoded<SocketAddr>
  {
    if |s| == 6 then Ok(SocketAddr(Ipv4(s[0], s[1], s[2], s[3]), 256 * s[4] as int + s[5] as int))
    else if |s| == 18 then Err(Ipv6Unsupported)
    else Err(InvalidSocketAddrEncodingLength)
  }

  /** Fill a zeroed buffer: four octets, then the port high byte first. */
  method SockaddrToBytes(a: SocketAddr) returns (r: seq<byte>)
    ensures r == AddrBytes(a)
  {
    var bytes := new byte[6](i => 0);
    bytes[0], bytes[1], bytes[2], bytes[3] := a.ip.a, a.ip.b, a.ip.c, a.ip.d;
    bytes[4], bytes[5] := a.port / 256, a.port % 256;
    r := bytes[..];
  }

  lemma AddrRoundTrip(a: SocketAddr)
    ensures AddrOf(AddrBytes(a)) == Ok(a)
  {
    assert 256 * (a.port / 256) + a.port % 256 == a.port;
  }

  function NodeBytes(n: Node): (r: seq<byte>)
    ensures |r| == 26
  {
    n.id + AddrBytes(n.address)
  }

  function NodesBytes(ns: seq<Node>): (r: seq<byte>)
    ensures |r| == 26 * |ns|
  {
    if ns == [] then [] else NodesBytes(ns[..|ns| - 1]) + NodeBytes(ns[|ns| - 1])
  }

  /** Decoding makes new nodes: seen now, without a token. */
  function Fresh(n: Node, now: nat): Node { Node(n.id, n.address, None, now) }

  function FreshAll(ns: seq<Node>, now: nat): seq<Node>
  {
    seq(|ns|, i requires 0 <= i < |ns| => Fresh(ns[i], now))
  }

  /** The node in 26 bytes. */
  function NodeOf(s: seq<byte>, now: nat): Node
    requires |s| == 26
  {
    Node(s[..20], AddrOf(s[20..]).value, None, now)
  }

  function NodesOf(s: seq<byte>, now: nat): Decoded<seq<Node>>
  {
    if |s| % 26 != 0 then Err(InvalidNodes4)
    else Ok(seq(|s| / 26, i requires 0 <= i < |s| / 26 => NodeOf(Chunk(s, i), now)))
  }

  function Chunk(s: seq<byte>, i: nat): (r: seq<byte>)
    requires i < |s| / 26
    ensures |r| == 26
  {
    s[26 * i..26 * i + 26]
  }

  method Nodes4ToBytes(ns: seq<Node>) returns (r: seq<byte>)
    ensures r == NodesBytes(ns)
  {
    r := [];
    for i := 0 to |ns|
      invariant r == NodesBytes(ns[..i])
    {
      assert ns[..i + 1][..i] == ns[..i];
      r := r + ns[i].id;
      var address := SockaddrToBytes(ns[i].address);
      r := r + address;
    }
    assert ns[..|ns|] == ns;
  }

  method BytesToNodes4(bytes: seq<byte>, now: nat) returns (r: Decoded<seq<Node>>)
    ensures r == NodesOf(bytes, now)
  {
    if |bytes| % 26 != 0 {
      return Err(InvalidNodes4);
    }
    var nodes: seq<Node> := [];
    for k := 0 to |bytes| / 26
      invariant |nodes| == k
      invariant forall j :: 0 <= j < k ==> nodes[j] == NodeOf(Chunk(bytes, j), now)
    {
      var i := k * 26;
      var id := bytes[i..i + 20];
      var address := AddrOf(bytes[i + 20..i + 26]);
      assert Chunk(bytes, k)[..20] == id && Chunk(bytes, k)[20..] == bytes[i + 20..i + 26];
      nodes := nodes + [Node(id, address.value, None, now)];
    }
    assert nodes == NodesOf(bytes, now).value;
    return Ok(nodes);
  }

  lemma NodeRoundTrip(n: Node, now: nat)
    ensures NodeOf(NodeBytes(n), now) == Fresh(n, now)
  {
    AddrRoundTrip(n.address);
    assert NodeBytes(n)[..20] == n.id && NodeBytes(n)[20..] == AddrBytes(n.address);
  }

  lemma {:induction false} ChunkOfNodes(ns: seq<Node>, i: nat)
    requires i < |ns|
    ensures Chunk(NodesBytes(ns), i) == NodeBytes(ns[i])
  {
    var m := |ns| - 1;
    if i < m {
      ChunkOfNodes(ns[..m], i);
      assert Chunk(NodesBytes(ns), i) == Chunk(NodesBytes(ns[..m]), i);
    }
  }

  /** A node list comes back with the same ids and addresses, in order. */
  lemma NodesRoundTrip(ns: seq<Node>, now: nat)
    ensures NodesOf(NodesBytes(ns), now) == Ok(FreshAll(ns, now))
  {
    var s := NodesBytes(ns);
    assert |s| % 26 == 0 && |s| / 26 == |ns|;
    forall i | 0 <= i < |ns| ensures NodeOf(Chunk(s, i), now) == Fresh(ns[i], now) {
      ChunkOfNodes(ns, i);
      NodeRoundTrip(ns[i], now);
    }
    assert NodesOf(s, now).value == FreshAll(ns, now);
  }

  function PeersBytes(ps: seq<SocketAddr>): (r: seq<seq<byte>>)
    ensures |r| == |ps|
  {
    seq(|ps|, i requires 0 <= i < |ps| => AddrBytes(ps[i]))
  }

  /** The first address that does not decode is the error. */
  function PeersOf(s: seq<seq<byte>>): Decoded<seq<SocketAddr>>
  {
    if s == [] then Ok([])
    else
      match AddrOf(s[0])
      case Ok(a) =>
        (match PeersOf(s[1..])
         case Ok(rest) => Ok([a] + rest)
         case Err(e) => Err(e)
         case Panics => Panics)
      case Err(e) => Err(e)
      case Panics => Panics
  }

  lemma {:induction false} PeersRoundTrip(ps: seq<SocketAddr>)
    ensures PeersOf(PeersBytes(ps)) == Ok(ps)
  {
    if ps != [] {
      AddrRoundTrip(ps[0]);
      PeersRoundTrip(ps[1..]);
      assert PeersBytes(ps)[1..] == PeersBytes(ps[1..]);
      assert PeersOf(PeersBytes(ps)).value == [ps[0]] + ps[1..];
      assert [ps[0]] + ps[1..] == ps;
    }
  }

  // === Dictionaries ===

  datatype Field = FId | FTarget | FInfoHash | FToken | FNodes | FValues | FV | FK | FSig | FSeq | FCas | FSalt | FPort
    | FImpliedPort

  /** The dictionary keys on the wire. */
  function WireName(f: Field): string
  {
    match f
    case FId => "id" case FTarget => "target" case FInfoHash => "info_hash" case FToken => "token"
    case FNodes => "nodes" case FValues => "values" case FV => "v" case FK => "k" case FSig => "sig"
    case FSeq => "seq" case FCas => "cas" case FSalt => "salt" case FPort => "port" case FImpliedPort => "implied_port"
  }

  lemma WireNamesDistinct(f: Field, g: Field)
    ensures WireName(f) == WireName(g) ==> f == g
  {
    var a, b := WireName(f), WireName(g);
    if a == b {
      assert a[0] == b[0] && a[|a| - 1] == b[|b| - 1] && (|a| > 2 ==> a[2] == b[2]);
    }
  }

  datatype Value = Str(bytes: seq<byte>) | Num(n: int) | List(items: seq<seq<byte>>)

  type Dict = map<Field, Value>

  predicate HasBytes(d: Dict, f: Field) { f in d && d[f].Str? }

  predicate HasFixed(d: Dict, f: Field, n: nat) { HasBytes(d, f) && |d[f].bytes| == n }

  predicate HasNum(d: Dict, f: Field, lo: int, hi: int) { f in d && d[f].Num? && lo <= d[f].n < hi }

  predicate HasI64(d: Dict, f: Field) { HasNum(d, f, -0x8000_0000_0000_0000, 0x8000_0000_0000_0000) }

  predicate HasList(d: Dict, f: Field) { f in d && d[f].List? }

  function OptBytes(d: Dict, f: Field): Option<seq<byte>>
    requires f !in d || HasBytes(d, f)
  {
    if f in d then Some(d[f].bytes) else None
  }

  function OptI64(d: Dict, f: Field): Option<i64>
    requires f !in d || HasI64(d, f)
  {
    if f in d then Some(d[f].n) else None
  }

  /** Absent options leave no entry. */
  function With(d: Dict, f: Field, v: Option<Value>): Dict
  {
    match v
    case None => d
    case Some(x) => d[f := x]
  }

  function StrOf(o: Option<seq<byte>>): Option<Value> { if o.None? then None else Some(Str(o.value)) }

  function NumOf(o: Option<i64>): Option<Value> { if o.None? then None else Some(Num(o.value)) }

  datatype RequestName = QPing | QFindNode | QGetPeers | QAnnouncePeer | QGet | QPut

  datatype WireVariant =
    | WireRequest(q: RequestName, a: Dict)
    | WireResponse(r: Dict)
    | WireError(code: i32, description: seq<byte>)

  datatype WireMessage = WireMessage(t: Bytes4, v: Option<Bytes4>, variant: WireVariant, ip: Option<seq<byte>>,
      ro: Option<i32>)

  /** `to_be_bytes`: the n low bytes of a number, highest first. */
  function BeBytes(v: nat, n: nat): (r: seq<byte>)
    ensures |r| == n
    decreases n, v
  {
    if n == 0 then [] else BeBytes(v / 256, n - 1) + [v % 256]
  }

  lemma {:induction false} BigEndianAppend(s: seq<byte>, b: byte)
    ensures BigEndian(s + [b]) == 256 * BigEndian(s) + b
  {
    if s == [] {
      assert [b][1..] == [];
    } else {
      BigEndianAppend(s[1..], b);
      assert (s + [b])[1..] == s[1..] + [b];
      var m := 8 * (|s| - 1);
      Pow2Add(8, m);
      assert Pow2(8) == 256;
      Factor(s[0], Pow2(m), 256);
    }
  }

  lemma Factor(x: nat, p: nat, q: nat)
    ensures x * (q * p) == q * (x * p)
  {
  }

  lemma {:induction false} BeRoundTrip(v: nat, n: nat)
    requires v < Pow2(8 * n)
    ensures BigEndian(BeBytes(v, n)) == v
    decreases n
  {
    if n > 0 {
      Pow2Add(8, 8 * (n - 1));
      assert Pow2(8) == 256;
      BeRoundTrip(v / 256, n - 1);
      BigEndianAppend(BeBytes(v / 256, n - 1), v % 256);
    }
  }

  function TidBytes(t: u32): Bytes4 { BeBytes(t, 4) }

  function TidOf(s: Bytes4): u32
  {
    BigEndianBound(s);
    TwoToThe32();
    BigEndian(s)
  }

  lemma TwoToThe32()
    ensures Pow2(32) == 0x1_0000_0000
  {
    assert Pow2(8) == 256;
    Pow2Add(8, 8);
    Pow2Add(16, 16);
  }

  lemma TidRoundTrip(t: u32)
    ensures TidOf(TidBytes(t)) == t
  {
    TwoToThe32();
    BeRoundTrip(t, 4);
  }

  // === Into the wire form ===

  function RequestDict(r: RequestSpecific): (RequestName, Dict)
  {
    var d: Dict := map[FId := Str(r.requesterId)];
    match r.requestType
    case PingRequest => (QPing, d)
    case FindNodeRequest(target) => (QFindNode, d[FTarget := Str(target)])
    case GetPeersRequest(infoHash) => (QGetPeers, d[FInfoHash := Str(infoHash)])
    case GetValueRequest(target, seqNo, _) => (QGet, With(d[FTarget := Str(target)], FSeq, NumOf(seqNo)))
    case PutRequest(token, AnnouncePeer(infoHash, port, impliedPort)) =>
      (QAnnouncePeer, d[FToken := Str(token)][FInfoHash := Str(infoHash)][FPort := Num(port)]
       [FImpliedPort := Num(if impliedPort.Some? then 1 else 0)])
    case PutRequest(token, PutImmutable(target, v)) => (QPut,
        d[FToken := Str(token)][FTarget := Str(target)][FV := Str(v)])
    case PutRequest(token, PutMutable(target, v, k, seqNo, sig, salt, cas)) =>
      (QPut, With(With(d[FToken := Str(token)][FTarget := Str(target)][FV := Str(v)][FK := Str(k)][FSeq := Num(seqNo)]
       [FSig := Str(sig)],
       FSalt, StrOf(salt)), FCas, NumOf(cas)))
  }

  function NodesOpt(ns: Option<seq<Node>>): Option<Value>
  {
    if ns.None? then None else Some(Str(NodesBytes(ns.value)))
  }

  function TokenDict(id: Id, token: seq<byte>, nodes: Option<seq<Node>>): Dict
  {
    With(map[FId := Str(id), FToken := Str(token)], FNodes, NodesOpt(nodes))
  }

  function ResponseDict(r: ResponseSpecific): Dict
  {
    match r
    case PingResponse(id) => map[FId := Str(id)]
    case FindNodeResponse(id, nodes) => map[FId := Str(id), FNodes := Str(NodesBytes(nodes))]
    case GetPeersResponse(id, token, nodes, values) => TokenDict(id, token, nodes)[FValues := List(PeersBytes(values))]
    case GetImmutableResponse(id, token, nodes, v) => TokenDict(id, token, nodes)[FV := Str(v)]
    case GetMutableResponse(id, token, nodes, v, k, seqNo, sig) =>
      TokenDict(id, token, nodes)[FV := Str(v)][FK := Str(k)][FSeq := Num(seqNo)][FSig := Str(sig)]
    case NoValuesResponse(id, token, nodes) => TokenDict(id, token, nodes)
    case NoMoreRecentValueResponse(id, token, nodes, seqNo) => TokenDict(id, token, nodes)[FSeq := Num(seqNo)]
  }

  function IntoSerdeMessage(m: Message): WireMessage
  {
    WireMessage(TidBytes(m.transactionId), m.version,
      match m.messageType {
        case Request(r) => var (q, a) := RequestDict(r); WireRequest(q, a)
        case Response(r) => WireResponse(ResponseDict(r))
        case Error(e) => WireError(e.code, e.description)
      },
      if m.requesterIp.None? then None else Some(AddrBytes(m.requesterIp.value)),
      Some(if m.readOnly then 1 else 0))
  }

  // === From the wire form ===

  datatype ResponseKind = KGetMutable | KNoMoreRecentValue | KGetImmutable | KGetPeers | KNoValues | KFindNode | KPing

  predicate HasTokenFields(d: Dict)
  {
    HasFixed(d, FId, 20) && HasBytes(d, FToken) && (FNodes !in d || HasBytes(d, FNodes))
  }

  /** The dictionary has the required fields of a variant, well typed, and its optional ones well typed if
      present; other entries do not matter. */
  predicate Fits(kind: ResponseKind, d: Dict)
  {
    match kind
    case KGetMutable => HasTokenFields(d) && HasBytes(d, FV) && HasFixed(d, FK, 32) && HasFixed(d, FSig, 64)
        && HasI64(d, FSeq)
    case KNoMoreRecentValue => HasTokenFields(d) && HasI64(d, FSeq)
    case KGetImmutable => HasTokenFields(d) && HasBytes(d, FV)
    case KGetPeers => HasTokenFields(d) && HasList(d, FValues)
    case KNoValues => HasTokenFields(d)
    case KFindNode => HasFixed(d, FId, 20) && HasBytes(d, FNodes)
    case KPing => HasFixed(d, FId, 20)
  }

  /** The order in which the variants of an untagged response are tried. */
  const UNTAGGED_ORDER: seq<ResponseKind> :=
    [KGetMutable, KNoMoreRecentValue, KGetImmutable, KGetPeers, KNoValues, KFindNode, KPing]

  function FirstFit(order: seq<ResponseKind>, d: Dict): (kind: Option<ResponseKind>)
    ensures kind.Some? ==> Fits(kind.value, d)
  {
    if order == [] then None
    else if Fits(order[0], d) then Some(order[0])
    else FirstFit(order[1..], d)
  }

  /** The `?` operator. */
  function Then<A, B>(r: Decoded<A>, f: A -> Decoded<B>): Decoded<B>
  {
    match r
    case Ok(x) => f(x)
    case Err(e) => Err(e)
    case Panics => Panics
  }

  function NodesField(d: Dict, now: nat): Decoded<Option<seq<Node>>>
    requires FNodes !in d || HasBytes(d, FNodes)
  {
    if FNodes !in d then Ok(None) else Then(NodesOf(d[FNodes].bytes, now), ns => Ok(Some(ns)))
  }

  function ReadResponse(kind: ResponseKind, d: Dict, now: nat): Decoded<ResponseSpecific>
    requires Fits(kind, d)
  {
    var id: Id := d[FId].bytes;
    match kind
    case KPing => Ok(PingResponse(id))
    case KFindNode => Then(NodesOf(d[FNodes].bytes, now), ns => Ok(FindNodeResponse(id, ns)))
    case KGetMutable =>
      Then(NodesField(d, now), ns => Ok(GetMutableResponse(id, d[FToken].bytes, ns, d[FV].bytes, d[FK].bytes,
          d[FSeq].n, d[FSig].bytes)))
    case KNoMoreRecentValue => Then(NodesField(d, now),
        ns => Ok(NoMoreRecentValueResponse(id, d[FToken].bytes, ns, d[FSeq].n)))
    case KGetImmutable => Then(NodesField(d, now), ns => Ok(GetImmutableResponse(id, d[FToken].bytes, ns, d[FV].bytes)))
    case KNoValues => Then(NodesField(d, now), ns => Ok(NoValuesResponse(id, d[FToken].bytes, ns)))
    case KGetPeers =>
      Then(NodesField(d, now), ns =>
        Then(PeersOf(d[FValues].items), values => Ok(GetPeersResponse(id, d[FToken].bytes, ns, values))))
  }

  predicate FitsPut(a: Dict)
  {
    && HasFixed(a, FId, 20) && HasFixed(a, FTarget, 20) && HasBytes(a, FToken) && HasBytes(a, FV)
    && (FK !in a || HasFixed(a, FK, 32)) && (FSig !in a || HasFixed(a, FSig, 64))
    && (FSeq !in a || HasI64(a, FSeq)) && (FCas !in a || HasI64(a, FCas)) && (FSalt !in a || HasBytes(a, FSalt))
  }

  predicate FitsRequest(q: RequestName, a: Dict)
  {
    HasFixed(a, FId, 20) &&
    match q
    case QPing => true
    case QFindNode => HasFixed(a, FTarget, 20)
    case QGetPeers => HasFixed(a, FInfoHash, 20)
    case QGet => HasFixed(a, FTarget, 20) && (FSeq !in a || HasI64(a, FSeq))
    case QAnnouncePeer =>
      && HasFixed(a, FInfoHash, 20) && HasBytes(a, FToken) && HasNum(a, FPort, 0, 0x1_0000)
      && (FImpliedPort !in a || HasNum(a, FImpliedPort, 0, 256))
    case QPut => FitsPut(a)
  }

  function ReadRequest(q: RequestName, a: Dict): Decoded<RequestType>
    requires FitsRequest(q, a)
  {
    match q
    case QPing => Ok(PingRequest)
    case QFindNode => Ok(FindNodeRequest(a[FTarget].bytes))
    case QGetPeers => Ok(GetPeersRequest(a[FInfoHash].bytes))
    case QGet => Ok(GetValueRequest(a[FTarget].bytes, OptI64(a, FSeq), None))
    case QAnnouncePeer =>
      var implied := if FImpliedPort in a then Some(a[FImpliedPort].n != 0) else None;
      Ok(PutRequest(a[FToken].bytes, AnnouncePeer(a[FInfoHash].bytes, a[FPort].n, implied)))
    case QPut =>
      if FK !in a then Ok(PutRequest(a[FToken].bytes, PutImmutable(a[FTarget].bytes, a[FV].bytes)))
      else if FSeq !in a || FSig !in a then Panics
      else
        Ok(PutRequest(a[FToken].bytes,
          PutMutable(a[FTarget].bytes, a[FV].bytes, a[FK].bytes, a[FSeq].n, a[FSig].bytes, OptBytes(a, FSalt),
              OptI64(a, FCas))))
  }

  function ReadVariant(variant: WireVariant, now: nat): Decoded<MessageType>
  {
    match variant
    case WireError(code, description) => Ok(Error(ErrorSpecific(code, description)))
    case WireRequest(q, a) =>
      if !FitsRequest(q, a) then Err(NoSuchVariant)
      else Then(ReadRequest(q, a), t => Ok(Request(RequestSpecific(a[FId].bytes, t))))
    case WireResponse(d) =>
      match FirstFit(UNTAGGED_ORDER, d)
      case None => Err(NoSuchVariant)
      case Some(kind) => Then(ReadResponse(kind, d, now), r => Ok(Response(r)))
  }

  function IpField(ip: Option<seq<byte>>): Decoded<Option<SocketAddr>>
  {
    if ip.None? then Ok(None) else Then(AddrOf(ip.value), a => Ok(Some(a)))
  }

  function FromSerdeMessage(w: WireMessage, now: nat): Decoded<Message>
  {
    Then(IpField(w.ip), ip =>
      Then(ReadVariant(w.variant, now), t =>
        Ok(Message(TidOf(w.t), w.v, ip, t, w.ro.Some? && w.ro.value > 0))))
  }

  // === The round trip ===

  /** What the wire keeps of a message: no salt on a get, `implied_port` only as whether it was there, nodes
      without token and time. */
  function Normalised(m: Message, now: nat): Message
  {
    m.(messageType := match m.messageType {
      case Request(r) => Request(r.(requestType := NormalRequest(r.requestType)))
      case Response(r) => Response(NormalResponse(r, now))
      case Error(e) => Error(e)
    })
  }

  function NormalRequest(t: RequestType): RequestType
  {
    match t
    case GetValueRequest(target, seqNo, _) => GetValueRequest(target, seqNo, None)
    case PutRequest(token, AnnouncePeer(infoHash, port, implied)) => PutRequest(token,
        AnnouncePeer(infoHash, port, Some(implied.Some?)))
    case other => other
  }

  function NormalNodes(ns: Option<seq<Node>>, now: nat): Option<seq<Node>>
  {
    if ns.None? then None else Some(FreshAll(ns.value, now))
  }

  function NormalResponse(r: ResponseSpecific, now: nat): ResponseSpecific
  {
    match r
    case PingResponse(_) => r
    case FindNodeResponse(id, ns) => FindNodeResponse(id, FreshAll(ns, now))
    case GetPeersResponse(id, token, ns, values) => GetPeersResponse(id, token, NormalNodes(ns, now), values)
    case GetImmutableResponse(id, token, ns, v) => GetImmutableResponse(id, token, NormalNodes(ns, now), v)
    case GetMutableResponse(id, token, ns, v, k, seqNo, sig) => GetMutableResponse(id, token, NormalNodes(ns, now), v,
        k, seqNo, sig)
    case NoValuesResponse(id, token, ns) => NoValuesResponse(id, token, NormalNodes(ns, now))
    case NoMoreRecentValueResponse(id, token, ns, seqNo) => NoMoreRecentValueResponse(id, token, NormalNodes(ns, now),
        seqNo)
  }

  function KindOf(r: ResponseSpecific): ResponseKind
  {
    match r
    case PingResponse(_) => KPing
    case FindNodeResponse(_, _) => KFindNode
    case GetPeersResponse(_, _, _, _) => KGetPeers
    case GetImmutableResponse(_, _, _, _) => KGetImmutable
    case GetMutableResponse(_, _, _, _, _, _, _) => KGetMutable
    case NoValuesResponse(_, _, _) => KNoValues
    case NoMoreRecentValueResponse(_, _, _, _) => KNoMoreRecentValue
  }

  /** Untagged resolution picks the variant that was written. */
  lemma FirstFitIsWritten(r: ResponseSpecific)
    ensures FirstFit(UNTAGGED_ORDER, ResponseDict(r)) == Some(KindOf(r))
  {
    var d := ResponseDict(r);
    TriedInOrder(d);
  }

  /** The seven tries, one by one. */
  lemma TriedInOrder(d: Dict)
    ensures FirstFit(UNTAGGED_ORDER, d) ==
      if Fits(KGetMutable, d) then Some(KGetMutable)
      else if Fits(KNoMoreRecentValue, d) then Some(KNoMoreRecentValue)
      else if Fits(KGetImmutable, d) then Some(KGetImmutable)
      else if Fits(KGetPeers, d) then Some(KGetPeers)
      else if Fits(KNoValues, d) then Some(KNoValues)
      else if Fits(KFindNode, d) then Some(KFindNode)
      else if Fits(KPing, d) then Some(KPing)
      else None
  {
    var o := UNTAGGED_ORDER;
    FirstFitAt(o, 0, d);
    FirstFitAt(o, 1, d);
    FirstFitAt(o, 2, d);
    FirstFitAt(o, 3, d);
    FirstFitAt(o, 4, d);
    FirstFitAt(o, 5, d);
    FirstFitAt(o, 6, d);
    assert o[0..] == o;
  }

  lemma FirstFitAt(order: seq<ResponseKind>, i: nat, d: Dict)
    requires i < |order|
    ensures FirstFit(order[i..], d) == if Fits(order[i], d) then Some(order[i]) else FirstFit(order[i + 1..], d)
  {
    assert order[i..][1..] == order[i + 1..];
  }

  lemma ResponseRoundTrip(r: ResponseSpecific, now: nat)
    ensures ReadVariant(WireResponse(ResponseDict(r)), now) == Ok(Response(NormalResponse(r, now)))
  {
    FirstFitIsWritten(r);
    match r {
      case PingResponse(_) =>
      case FindNodeResponse(_, ns) => NodesRoundTrip(ns, now);
      case GetPeersResponse(_, _, ns, values) =>
        NodesFieldRoundTrip(r, now);
        PeersRoundTrip(values);
      case other =>
        NodesFieldRoundTrip(r, now);
    }
  }

  lemma NodesFieldRoundTrip(r: ResponseSpecific, now: nat)
    requires !r.PingResponse? && !r.FindNodeResponse?
    ensures HasTokenFields(ResponseDict(r)) && NodesField(ResponseDict(r), now) == Ok(NormalNodes(r.nodes, now))
  {
    if r.nodes.Some? {
      NodesRoundTrip(r.nodes.value, now);
    }
  }

  /** What the decoder makes of the written dictionary. */
  ghost predicate ReadsBack(r: RequestSpecific)
  {
    var (q, a) := RequestDict(r);
    FitsRequest(q, a) && a[FId].bytes == r.requesterId && ReadRequest(q, a) == Ok(NormalRequest(r.requestType))
  }

  lemma MutablePutReadsBack(r: RequestSpecific)
    requires r.requestType.PutRequest? && r.requestType.put.PutMutable?
    ensures ReadsBack(r)
  {
  }

  lemma ImmutablePutReadsBack(r: RequestSpecific)
    requires r.requestType.PutRequest? && r.requestType.put.PutImmutable?
    ensures ReadsBack(r)
  {
  }

  lemma AnnounceReadsBack(r: RequestSpecific)
    requires r.requestType.PutRequest? && r.requestType.put.AnnouncePeer?
    ensures ReadsBack(r)
  {
  }

  lemma GetReadsBack(r: RequestSpecific)
    requires !r.requestType.PutRequest?
    ensures ReadsBack(r)
  {
  }

  lemma RequestReadsBack(r: RequestSpecific)
    ensures ReadsBack(r)
  {
    match r.requestType {
      case PutRequest(_, PutMutable(_, _, _, _, _, _, _)) => MutablePutReadsBack(r);
      case PutRequest(_, PutImmutable(_, _)) => ImmutablePutReadsBack(r);
      case PutRequest(_, AnnouncePeer(_, _, _)) => AnnounceReadsBack(r);
      case _ => GetReadsBack(r);
    }
  }

  lemma RequestRoundTrip(r: RequestSpecific, now: nat)
    ensures ReadVariant(WireRequest(RequestDict(r).0, RequestDict(r).1), now)
         == Ok(Request(RequestSpecific(r.requesterId, NormalRequest(r.requestType))))
  {
    RequestReadsBack(r);
  }

  /** Decoding what was encoded gives the message back up to normalisation. */
  lemma MessageRoundTrip(m: Message, now: nat)
    ensures FromSerdeMessage(IntoSerdeMessage(m), now) == Ok(Normalised(m, now))
  {
    TidRoundTrip(m.transactionId);
    if m.requesterIp.Some? {
      AddrRoundTrip(m.requesterIp.value);
    }
    match m.messageType {
      case Request(r) => RequestRoundTrip(r, now);
      case Response(r) => ResponseRoundTrip(r, now);
      case Error(_) =>
    }
  }

  /** Decoding fails to return in one case only: a put with a key but no sequence number or no signature. */
  lemma PanicsIff(w: WireMessage, now: nat)
    ensures FromSerdeMessage(w, now).Panics? <==>
      && w.variant.WireRequest? && w.variant.q.QPut? && FitsPut(w.variant.a)
      && FK in w.variant.a && (FSeq !in w.variant.a || FSig !in w.variant.a)
      && !IpField(w.ip).Err?
  {
    match w.variant {
      case WireResponse(d) =>
        if FHasItems(d) {
          PeersNeverPanic(d[FValues].items);
        }
      case _ =>
    }
  }

  predicate FHasItems(d: Dict) { HasList(d, FValues) }

  lemma {:induction false} PeersNeverPanic(s: seq<seq<byte>>)
    ensures !PeersOf(s).Panics?
  {
    if s != [] {
      PeersNeverPanic(s[1..]);
    }
  }
}
