/** The list of nodes closest to a target (rust/mainline/src/rpc/closest_nodes.rs): kept sorted by
    security, then XOR distance, each call inserting at most one node at a binary-searched place. */
module Closest {
  import opened Bytes
  import opened Ids
  import opened Nodes
  import opened SortedLists

  /** The comparator given to the binary search: `probe` against the node to insert. */
  function Compare(target: Id, probe: Node, node: Node): Ordering
  {
    if IsSecure(probe) && !IsSecure(node) then Less
    else if !IsSecure(probe) && IsSecure(node) then Greater
    else if probe.id == node.id then Equal
    else if LexLess(XorBytes(probe.id, target), XorBytes(node.id, target)) then Less
    else if LexLess(XorBytes(node.id, target), XorBytes(probe.id, target)) then Greater
    else Equal
  }

  /** 2^160: more than any XOR of two ids. */
  const ID_SPACE := 0x1_0000000000_0000000000_0000000000_0000000000

  lemma XorBelowIdSpace(a: Id, b: Id)
    ensures XorValue(a, b) < ID_SPACE
  {
    BigEndianBound(XorBytes(a, b));
    assert Pow2(5) == 32;
    Doubling(5, 32);
    Doubling(10, 1024);
    Doubling(20, 0x1_00000);
    Doubling(40, 0x1_0000000000);
    Doubling(80, 0x1_0000000000_0000000000);
  }

  lemma Doubling(n: nat, p: nat)
    requires Pow2(n) == p
    ensures Pow2(2 * n) == p * p
  {
    Pow2Add(n, n);
  }

  /** One number that orders nodes the same way: secure nodes first, then by distance. */
  function Key(target: Id, n: Node): int
  {
    (if IsSecure(n) then 0 else ID_SPACE) + XorValue(n.id, target)
  }

  function KeyOf(target: Id): Node -> int { (n: Node) => Key(target, n) }

  lemma CompareIsKeyOrder(target: Id, probe: Node, node: Node)
    ensures Compare(target, probe, node) == Less <==> Key(target, probe) < Key(target, node)
    ensures Compare(target, probe, node) == Equal <==> Key(target, probe) == Key(target, node)
  {
    XorBelowIdSpace(probe.id, target);
    XorBelowIdSpace(node.id, target);
    XorInjective(probe.id, node.id, target);
    LexIsNumeric(XorBytes(probe.id, target), XorBytes(node.id, target));
    LexIsNumeric(XorBytes(node.id, target), XorBytes(probe.id, target));
  }

  /** Nodes of one key have one id and one security. */
  lemma KeyInjective(target: Id, a: Node, b: Node)
    ensures Key(target, a) == Key(target, b) <==> a.id == b.id && IsSecure(a) == IsSecure(b)
  {
    XorBelowIdSpace(a.id, target);
    XorBelowIdSpace(b.id, target);
    XorInjective(a.id, b.id, target);
  }

  // === What additions do ===

  ghost predicate UniqueIds(nodes: seq<Node>)
  {
    forall i, j :: 0 <= i < j < |nodes| ==> nodes[i].id != nodes[j].id
  }

  ghost predicate WellFormed(target: Id, nodes: seq<Node>)
  {
    Sorted(KeyOf(target), nodes) && Pairwise(Compatible, nodes)
  }

  lemma FilterImpliesCompatible()
    ensures forall a, b :: Compatible(a, b) ==> Compatible(b, a)
    ensures forall a, b :: !Excludes(a, b) ==> Compatible(a, b)
  {
    forall a, b | !Excludes(a, b) ensures Compatible(a, b) {
      NotExcludedIsCompatible(a, b);
    }
  }

  /** Any run of additions leaves a strictly sorted list that respects the per-address quota. */
  lemma AdditionsKeepOrderAndQuota(target: Id, nodes: seq<Node>, more: seq<Node>)
    requires WellFormed(target, nodes)
    ensures var r := AddedAll(KeyOf(target), Excludes, nodes, more);
            && WellFormed(target, r)
            && (forall n :: n in r ==> n in nodes || n in more)
            && forall ip :: CountAt(r, ip, false) <= 1 && (!IsLocal(ip) ==> CountAt(r, ip, true) <= 8)
  {
    var r := AddedAll(KeyOf(target), Excludes, nodes, more);
    FilterImpliesCompatible();
    AddedAllKeeps(KeyOf(target), Excludes, nodes, more);
    AddedAllPairwise(KeyOf(target), Excludes, Compatible, nodes, more);
    forall ip ensures CountAt(r, ip, false) <= 1 && (!IsLocal(ip) ==> CountAt(r, ip, true) <= 8) {
      QuotaPerAddress(r, ip);
    }
  }

  lemma UniqueIdsDistinctKeys(target: Id, nodes: seq<Node>)
    requires UniqueIds(nodes)
    ensures DistinctKeys(KeyOf(target), nodes)
  {
    forall i, j | 0 <= i < j < |nodes| ensures Key(target, nodes[i]) != Key(target, nodes[j]) {
      KeyInjective(target, nodes[i], nodes[j]);
    }
  }

  /** No insecure node stands before another node of its address. */
  predicate InsecureLast(nodes: seq<Node>)
  {
    forall i, j :: 0 <= i < j < |nodes| && SameIp(nodes[i], nodes[j]) ==> IsSecure(nodes[i])
  }

  lemma InsecureLastIff(nodes: seq<Node>)
    requires Pairwise(Compatible, nodes)
    ensures InsecureLast(nodes) <==> NoneBlocked(Excludes, nodes)
  {
    forall i, j | 0 <= i < j < |nodes|
      ensures Excludes(nodes[i], nodes[j]) <==> SameIp(nodes[i], nodes[j]) && !IsSecure(nodes[i])
    {
      assert Compatible(nodes[i], nodes[j]);
    }
  }

  /** Adding pairwise compatible nodes with distinct ids keeps them all exactly when no insecure node
      comes before another node of its address. */
  lemma AllNodesKeptIff(target: Id, nodes: seq<Node>)
    requires Pairwise(Compatible, nodes) && UniqueIds(nodes)
    ensures |AddedAll(KeyOf(target), Excludes, [], nodes)| == |nodes| <==> InsecureLast(nodes)
  {
    UniqueIdsDistinctKeys(target, nodes);
    InsecureLastIff(nodes);
    SortedLists.AllKeptIff(KeyOf(target), Excludes, nodes);
  }

  // === The closest nodes do not depend on the order of insertion ===

  /** No address has both secure and insecure nodes. */
  ghost predicate NotMixed(nodes: seq<Node>)
  {
    forall a, b :: a in nodes && b in nodes && SameIp(a, b) ==> IsSecure(a) == IsSecure(b)
  }

  lemma NotMixedIsInsecureLast(nodes: seq<Node>)
    requires NotMixed(nodes) && Pairwise(Compatible, nodes)
    ensures InsecureLast(nodes)
  {
    forall i, j | 0 <= i < j < |nodes| && SameIp(nodes[i], nodes[j]) ensures IsSecure(nodes[i]) {
      assert Compatible(nodes[i], nodes[j]);
      assert nodes[i] in nodes && nodes[j] in nodes;
    }
  }

  /** The first nodes of the list are the first nodes in the order of `Compare` among all given. */
  lemma ListStartsWithClosest(target: Id, nodes: seq<Node>, limit: nat)
    requires Pairwise(Compatible, nodes) && UniqueIds(nodes) && InsecureLast(nodes)
    ensures var all := AddedAll(KeyOf(target), Excludes, [], nodes);
            AreFirst(KeyOf(target), nodes, limit, all[..if |all| < limit then |all| else limit])
  {
    UniqueIdsDistinctKeys(target, nodes);
    InsecureLastIff(nodes);
    SortedLists.AllKeptIff(KeyOf(target), Excludes, nodes);
    AddedAllKeeps(KeyOf(target), Excludes, [], nodes);
    PrefixIsFirst(KeyOf(target), nodes, AddedAll(KeyOf(target), Excludes, [], nodes), limit);
  }

  /** Two orders of the same nodes give the same list. */
  lemma OrderIrrelevant(target: Id, a: seq<Node>, b: seq<Node>)
    requires Pairwise(Compatible, a) && UniqueIds(a) && Pairwise(Compatible, b) && UniqueIds(b)
    requires NotMixed(a) && forall n :: n in a <==> n in b
    ensures AddedAll(KeyOf(target), Excludes, [], a) == AddedAll(KeyOf(target), Excludes, [], b)
  {
    var key := KeyOf(target);
    NotMixedIsInsecureLast(a);
    NotMixedIsInsecureLast(b);
    InsecureLastIff(a);
    InsecureLastIff(b);
    UniqueIdsDistinctKeys(target, a);
    UniqueIdsDistinctKeys(target, b);
    SortedLists.AllKeptIff(key, Excludes, a);
    SortedLists.AllKeptIff(key, Excludes, b);
    AddedAllKeeps(key, Excludes, [], a);
    AddedAllKeeps(key, Excludes, [], b);
    SortedUnique(key, AddedAll(key, Excludes, [], a), AddedAll(key, Excludes, [], b));
  }

  // === The list as a mutable object ===

  /** The six high bits of the address. */
  function Subnet(n: Node): nat { n.address.ip.a / 4 }

  /** The high 128 bits of the XOR. */
  function ShortDistance(target: Id, n: Node): nat { BigEndian(XorBytes(n.id, target)[..16]) }

  function Subnets(nodes: seq<Node>): set<nat> { set i | 0 <= i < |nodes| :: Subnet(nodes[i]) }

  /** Distinct subnets among the first 20 nodes, or 20 for an empty list. */
  function CountSubnets(nodes: seq<Node>): (c: byte)
    ensures c <= 20
  {
    var n := if |nodes| < 20 then |nodes| else 20;
    SubnetsBound(nodes[..n]);
    if nodes == [] then 20 else |Subnets(nodes[..n])|
  }

  lemma {:induction false} SubnetsBound(nodes: seq<Node>)
    ensures |Subnets(nodes)| <= |nodes|
  {
    if nodes != [] {
      var n := |nodes| - 1;
      SubnetsBound(nodes[..n]);
      SubnetsAppend(nodes[..n], nodes[n]);
      assert nodes == nodes[..n] + [nodes[n]];
    }
  }

  /** Node i is far enough and the nodes up to it cover enough subnets. */
  predicate StopsAt(target: Id, nodes: seq<Node>, expectedDk: nat, averageSubnets: nat, i: nat)
    requires i < |nodes|
  {
    ShortDistance(target, nodes[i]) >= expectedDk && |Subnets(nodes[..i + 1])| >= averageSubnets
  }

  /** The first node from i on that stops, or the end of the list. */
  function StopIndex(target: Id, nodes: seq<Node>, expectedDk: nat, averageSubnets: nat, i: nat): (j: nat)
    requires i <= |nodes|
    ensures i <= j <= |nodes|
    ensures j < |nodes| ==> StopsAt(target, nodes, expectedDk, averageSubnets, j)
    ensures forall k :: i <= k < j ==> !StopsAt(target, nodes, expectedDk, averageSubnets, k)
    decreases |nodes| - i
  {
    if i == |nodes| || StopsAt(target, nodes, expectedDk, averageSubnets, i) then i
    else StopIndex(target, nodes, expectedDk, averageSubnets, i + 1)
  }

  /** At least 20 nodes when there are 20, and then on to the first node that satisfies both conditions. */
  function UntilSecure(target: Id, nodes: seq<Node>, expectedDk: nat, averageSubnets: nat): (r: seq<Node>)
    ensures r <= nodes
    ensures |r| >= if |nodes| < MAX_BUCKET_SIZE_K then |nodes| else MAX_BUCKET_SIZE_K
    ensures |r| > MAX_BUCKET_SIZE_K ==>
      forall i :: 0 <= i < |r| ==> !StopsAt(target, nodes, expectedDk, averageSubnets, i)
    ensures |r| < |nodes| ==> exists i :: 0 <= i <= |r| && StopsAt(target, nodes, expectedDk, averageSubnets, i)
  {
    var j := StopIndex(target, nodes, expectedDk, averageSubnets, 0);
    var n := if j < MAX_BUCKET_SIZE_K then MAX_BUCKET_SIZE_K else j;
    nodes[..if n < |nodes| then n else |nodes|]
  }

  lemma SortedIsPartitioned(target: Id, nodes: seq<Node>, node: Node)
    requires Sorted(KeyOf(target), nodes)
    ensures Partitioned((probe: Node) => Compare(target, probe, node), nodes)
  {
    var compare := (probe: Node) => Compare(target, probe, node);
    forall i, j | 0 <= i < j < |nodes|
      ensures (compare(nodes[j]) == Less ==> compare(nodes[i]) == Less)
          && (compare(nodes[i]) == Greater ==> compare(nodes[j]) == Greater)
    {
      assert KeyOf(target)(nodes[i]) < KeyOf(target)(nodes[j]);
      CompareIsKeyOrder(target, nodes[i], node);
      CompareIsKeyOrder(target, nodes[j], node);
    }
  }

  lemma SearchFindsPlace(target: Id, nodes: seq<Node>, node: Node, found: bool, pos: nat)
    requires Sorted(KeyOf(target), nodes) && pos <= |nodes|
    requires found ==> pos < |nodes| && Compare(target, nodes[pos], node) == Equal
    requires !found ==> forall i :: 0 <= i < pos ==> Compare(target, nodes[i], node) == Less
    requires !found ==> forall i :: pos <= i < |nodes| ==> Compare(target, nodes[i], node) == Greater
    ensures Insert(KeyOf(target), nodes, node) == if found then nodes else nodes[..pos] + [node] + nodes[pos..]
  {
    var key := KeyOf(target);
    if found {
      CompareIsKeyOrder(target, nodes[pos], node);
      assert key(nodes[pos]) == key(node);
      InsertSorts(key, nodes, node);
    } else {
      forall i | 0 <= i < |nodes|
        ensures i < pos ==> key(nodes[i]) < key(node)
        ensures pos <= i ==> key(node) < key(nodes[i])
      {
        CompareIsKeyOrder(target, nodes[i], node);
      }
      InsertAtPosition(key, nodes, node, pos);
    }
  }

  class ClosestNodes {
    const target: Id
    var nodes: seq<Node>

    ghost predicate Valid()
      reads this
    {
      WellFormed(target, nodes)
    }

    constructor (target: Id)
      ensures Valid() && this.target == target && nodes == []
    {
      this.target := target;
      this.nodes := [];
    }

    method Add(node: Node)
      requires Valid()
      modifies this
      ensures Valid() && nodes == Added(KeyOf(target), Excludes, old(nodes), node)
    {
      FilterImpliesCompatible();
      AddedKeeps(KeyOf(target), Excludes, nodes, node);
      AddedPairwise(KeyOf(target), Excludes, Compatible, nodes, node);
      if AlreadyExists(node, nodes) {
        return;
      }
      SortedIsPartitioned(target, nodes, node);
      var found, pos := BinarySearchBy(nodes, (probe: Node) => Compare(target, probe, node));
      SearchFindsPlace(target, nodes, node, found, pos);
      if !found {
        nodes := nodes[..pos] + [node] + nodes[pos..];
      }
    }

    method TakeUntilSecure(expectedDk: nat, averageSubnets: nat) returns (r: seq<Node>)
      ensures r == UntilSecure(target, nodes, expectedDk, averageSubnets)
    {
      var untilSecure := 0;
      var subnets: set<nat> := {};
      while untilSecure < |nodes|
        invariant untilSecure <= |nodes|
        invariant subnets == Subnets(nodes[..untilSecure])
        invariant StopIndex(target, nodes, expectedDk, averageSubnets, 0) == StopIndex(target, nodes, expectedDk,
            averageSubnets, untilSecure)
      {
        var node := nodes[untilSecure];
        subnets := subnets + {Subnet(node)};
        assert nodes[..untilSecure + 1] == nodes[..untilSecure] + [node];
        SubnetsAppend(nodes[..untilSecure], node);
        if ShortDistance(target, node) >= expectedDk && |subnets| >= averageSubnets {
          break;
        }
        untilSecure := untilSecure + 1;
      }
      var n := if untilSecure < MAX_BUCKET_SIZE_K then MAX_BUCKET_SIZE_K else untilSecure;
      r := nodes[..if n < |nodes| then n else |nodes|];
    }

    method SubnetsCount() returns (c: nat)
      ensures c == CountSubnets(nodes)
      ensures c <= 20
    {
      if nodes == [] {
        return 20;
      }
      var subnets: set<nat> := {};
      var m := if |nodes| < MAX_BUCKET_SIZE_K then |nodes| else MAX_BUCKET_SIZE_K;
      for i := 0 to m
        invariant subnets == Subnets(nodes[..i]) && |subnets| <= i
      {
        assert nodes[..i + 1] == nodes[..i] + [nodes[i]];
        SubnetsAppend(nodes[..i], nodes[i]);
        subnets := subnets + {Subnet(nodes[i])};
      }
      return |subnets|;
    }
  }

  lemma SubnetsAppend(nodes: seq<Node>, n: Node)
    ensures Subnets(nodes + [n]) == Subnets(nodes) + {Subnet(n)}
  {
    var all := nodes + [n];
    forall x | x in Subnets(nodes) ensures x in Subnets(all) {
      var i :| 0 <= i < |nodes| && Subnet(nodes[i]) == x;
      assert all[i] == nodes[i];
    }
    assert all[|nodes|] == n;
  }
}
