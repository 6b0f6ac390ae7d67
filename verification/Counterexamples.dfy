/** Inputs on which the code does not do what its documentation, or a reader, would expect; the theorems with the exact
    conditions are in the modules of the parts. */
module Counterexamples {
  import opened Bytes
  import opened Ids
  import opened Nodes
  import opened SortedLists
  import opened Closest
  import opened Routing
  import opened ClosestExact
  import opened Messages
  import opened Mutable

  function Filled(x: byte): (id: Id)
    ensures forall i :: 0 <= i < 20 ==> id[i] == x
  {
    seq(20, _ => x)
  }

  // === The most recent item ===

  function Item(seqNo: i64): MutableItem
  {
    MutableItem(Filled(0), seq(32, _ => 0), seqNo, [], seq(64, _ => 0), None)
  }

  /** Item 1 arrives before item 2, and is returned. */
  lemma {:induction false} OlderItemWins()
    ensures MostRecentOf([Item(1), Item(2)]) == Some(Item(1))
  {
    MostRecentIsOfFirst([Item(1), Item(2)]);
    assert [Item(1), Item(2)][0] == Item(1);
  }

  // === A message that panics the decoder ===

  /** A put with a key and nothing else that a mutable put needs. */
  function PutWithoutSeq(): WireMessage
  {
    WireMessage([0, 0, 0, 0], None,
      WireRequest(QPut, map[FId := Str(Filled(0)), FToken := Str([]), FTarget := Str(Filled(0)), FV := Str([]),
        FK := Str(seq(32, _ => 0))]), None, None)
  }

  lemma {:induction false} DecoderPanics(now: nat)
    ensures FromSerdeMessage(PutWithoutSeq(), now).Panics?
  {
    PanicsIff(PutWithoutSeq(), now);
  }

  // === A node that comes back ===

  function OwnId(): Id { Filled(0) }

  /** A node of the local network, last seen at a time. */
  function Neighbour(seen: nat): Node { Node(Filled(1), SocketAddr(Ipv4(10, 0, 0, 1), 6881), None, seen) }

  lemma {:induction false} AddsToNewBucket(own: Id, b: Buckets, n: Node, d: nat)
    requires d == DistanceFrom(own)(n) && d > 0 && d !in b && !SomeBucketBlocks(b, n)
    ensures TableAdd(own, b, n, 0).0 == b[d := [n]]
  {
    assert BucketAt(b, d) == [] && BucketAdd([], n, 0).0 == [n];
  }

  lemma {:induction false} FirstAdded(own: Id, n: Node, d: nat)
    requires d == DistanceFrom(own)(n) && d > 0
    ensures RunTable(own, [AddNode(n, 0)]) == map[d := [n]]
  {
    assert [AddNode(n, 0)][..0] == [] && RunTable(own, []) == map[];
    AddsToNewBucket(own, map[], n, d);
  }

  lemma {:induction false} NeighbourFits()
    ensures RunTable(OwnId(), [AddNode(Neighbour(0), 0)]) == map[Distance(OwnId(), Filled(1)) := [Neighbour(0)]]
    ensures Distance(OwnId(), Filled(1)) > 0
  {
    DistanceIsBitLength(OwnId(), Filled(1), 0);
    assert OwnId()[0] != Filled(1)[0];
    FirstAdded(OwnId(), Neighbour(0), Distance(OwnId(), Filled(1)));
  }

  /** A neighbour answers again an hour after it was added: the table still says that it was seen at the start. */
  lemma {:induction false} NeighbourStaysStale()
    ensures var b, hour := RunTable(OwnId(), [AddNode(Neighbour(0), 0)]), 60 * 60 * 1000;
      && Neighbour(0) in AllNodes(b) && TableAdd(OwnId(), b, Neighbour(hour), hour) == (b, false)
      && IsStale(Neighbour(0), hour)
  {
    var b, ops := RunTable(OwnId(), [AddNode(Neighbour(0), 0)]), [AddNode(Neighbour(0), 0)];
    NeighbourFits();
    BetweenMembers(b, 1, MAX_DISTANCE + 1);
    assert Neighbour(0) in b[Distance(OwnId(), Filled(1))];
    KnownIdReentersIff(OwnId(), ops, Neighbour(0), Neighbour(60 * 60 * 1000), 60 * 60 * 1000);
  }

  // === A table whose closest nodes are not all returned ===

  /** An id that is valid for the address. */
  function SecureId(ip: Ipv4): (id: Id)
    ensures IsValidForIp(id, ip) && id[19] == 0
  {
    var p := IdPrefix(ip, 0);
    var id: Id := p + seq(17, _ => 0);
    assert First21Bits(id) == First21Bits(p);
    id
  }

  /** The same with another first byte. */
  function InsecureId(ip: Ipv4): (id: Id)
    ensures id[0] != SecureId(ip)[0] && (!IsLocal(ip) ==> !IsValidForIp(id, ip))
  {
    var s := SecureId(ip);
    var id: Id := s[0 := (s[0] as int + 1) % 256];
    assert First21Bits(id)[0] != First21Bits(s)[0];
    id
  }

  function PublicIp(): Ipv4 { Ipv4(8, 8, 8, 8) }

  function SecureNode(): Node { Node(SecureId(PublicIp()), SocketAddr(PublicIp(), 1), None, 0) }

  function InsecureNode(): Node { Node(InsecureId(PublicIp()), SocketAddr(PublicIp(), 2), None, 0) }

  function Next(i: Id): (id: Id)
    ensures id[0] == i[0] && id != i
  {
    var id: Id := i[19 := (i[19] as int + 1) % 256];
    assert id[19] != i[19];
    id
  }

  /** An own id near the insecure one. */
  function NearInsecure(): Id { Next(InsecureNode().id) }

  lemma {:induction false} FirstByteDecides(a: Id, b: Id)
    ensures a[0] == b[0] ==> Distance(a, b) <= 152
    ensures a[0] != b[0] ==> Distance(a, b) > 152
  {
    XorZero(a[0], b[0]);
    assert XorBytes(a, b)[0] == Xor(a[0], b[0]);
  }

  /** First the secure node is added, then the insecure one. */
  function BothAdded(): seq<TableOp> { [AddNode(SecureNode(), 0), AddNode(InsecureNode(), 0)] }

  lemma {:induction false} TwoAdded(own: Id, a: Node, b: Node, s: nat, i: nat)
    requires s == DistanceFrom(own)(a) && i == DistanceFrom(own)(b) && 0 < i < s && !Excludes(a, b)
    ensures RunTable(own, [AddNode(a, 0), AddNode(b, 0)]) == map[s := [a], i := [b]]
  {
    var ops := [AddNode(a, 0), AddNode(b, 0)];
    var one: Buckets := map[s := [a]];
    assert ops[..1] == [AddNode(a, 0)];
    FirstAdded(own, a, s);
    assert !AlreadyExists(b, one[s]);
    AddsToNewBucket(own, one, b, i);
  }

  lemma {:induction false} BothAreIn()
    ensures var s, i := Distance(NearInsecure(), SecureNode().id), Distance(NearInsecure(), InsecureNode().id);
      && 0 < i < s <= MAX_DISTANCE
      && RunTable(NearInsecure(), BothAdded()) == map[s := [SecureNode()], i := [InsecureNode()]]
  {
    var own, a, b := NearInsecure(), SecureNode(), InsecureNode();
    FirstByteDecides(own, a.id);
    FirstByteDecides(own, b.id);
    DistanceIsBitLength(own, b.id, 0);
    assert First21Bits(a.id)[0] != First21Bits(b.id)[0];
    TwoAdded(own, a, b, Distance(own, a.id), Distance(own, b.id));
  }

  /** What is returned of a list whose second node is shadowed. */
  lemma {:induction false} SecondIsMissed(target: Id, b: Buckets, x: Node, y: Node)
    requires AllNodes(b) == [x, y] && Listable([x, y]) && SameIp(x, y) && !IsSecure(x)
    ensures y !in ClosestTo(b, target) && |ClosestTo(b, target)| < 2
    ensures !AreFirst(KeyOf(target), AllNodes(b), MAX_BUCKET_SIZE_K, ClosestTo(b, target))
  {
    var kept := AddedAll(KeyOf(target), Excludes, [], [x, y]);
    assert Shadowed([x, y], 1);
    KeptIff(target, [x, y], 1);
    UniqueIdsDistinctKeys(target, [x, y]);
    AllNodesKeptIff(target, [x, y]);
    assert !InsecureLast([x, y]) by {
      assert [x, y][0] == x && [x, y][1] == y;
    }
    assert [x, y][..2] == [x, y];
    NoMoreThanGiven(KeyOf(target), Excludes, [x, y], 0, 2);
  }

  lemma {:induction false} BothListed()
    ensures AllNodes(RunTable(NearInsecure(), BothAdded())) == [InsecureNode(), SecureNode()]
  {
    BothAreIn();
    Listing(RunTable(NearInsecure(), BothAdded()), Distance(NearInsecure(), InsecureNode().id),
      Distance(NearInsecure(), SecureNode().id), InsecureNode(), SecureNode());
  }

  lemma {:induction false} ListableNodes(own: Id, ops: seq<TableOp>)
    ensures Listable(AllNodes(RunTable(own, ops)))
  {
    ReachableTable(own, ops);
  }

  lemma {:induction false} OnOneAddress()
    ensures SameIp(InsecureNode(), SecureNode()) && !IsSecure(InsecureNode())
  {
  }

  /** The table holds two nodes, and `closest` returns only the insecure one: not the first two. */
  lemma {:induction false} SecureNodeIsMissed(target: Id)
    ensures var b := RunTable(NearInsecure(), BothAdded());
      && AllNodes(b) == [InsecureNode(), SecureNode()] && SecureNode() !in ClosestTo(b, target)
      && !AreFirst(KeyOf(target), AllNodes(b), MAX_BUCKET_SIZE_K, ClosestTo(b, target))
  {
    BothListed();
    OnOneAddress();
    ListableNodes(NearInsecure(), BothAdded());
    SecondIsMissed(target, RunTable(NearInsecure(), BothAdded()), InsecureNode(), SecureNode());
  }

  /** The bucket that is nearer is listed first. */
  lemma {:induction false} Listing(b: Buckets, i: nat, s: nat, x: Node, y: Node)
    requires 0 < i < s <= MAX_DISTANCE && b == map[s := [y], i := [x]]
    ensures AllNodes(b) == [x, y]
  {
    EmptyUpTo(b, 1, i, MAX_DISTANCE + 1);
    EmptyUpTo(b, i + 1, s, MAX_DISTANCE + 1);
    EmptyUpTo(b, s + 1, MAX_DISTANCE + 1, MAX_DISTANCE + 1);
    assert Between(b, i, MAX_DISTANCE + 1) == BucketAt(b, i) + Between(b, i + 1, MAX_DISTANCE + 1);
    assert Between(b, s, MAX_DISTANCE + 1) == BucketAt(b, s) + Between(b, s + 1, MAX_DISTANCE + 1);
  }

  lemma {:induction false} EmptyUpTo(b: Buckets, lo: nat, mid: nat, hi: nat)
    requires lo <= mid <= hi && forall d :: lo <= d < mid ==> d !in b
    ensures Between(b, lo, hi) == Between(b, mid, hi)
    decreases mid - lo
  {
    if lo < mid {
      EmptyUpTo(b, lo + 1, mid, hi);
      assert BucketAt(b, lo) == [];
    }
  }
}
