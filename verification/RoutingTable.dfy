/** The Kademlia routing table (rust/mainline/src/common/routing_table.rs): buckets of at most 20 nodes
    indexed by distance from the own id. */
module Routing {
  import opened Bytes
  import opened Ids
  import opened Nodes
  import opened SortedLists
  import opened Closest

  // === What the operations do to plain values ===

  type Buckets = map<nat, seq<Node>>

  function IndexOfId(nodes: seq<Node>, id: Id): (i: nat)
    ensures i <= |nodes|
    ensures i < |nodes| ==> nodes[i].id == id
    ensures forall k :: 0 <= k < i ==> nodes[k].id != id
  {
    if nodes == [] || nodes[0].id == id then 0 else 1 + IndexOfId(nodes[1..], id)
  }

  function BucketAdd(nodes: seq<Node>, incoming: Node, now: nat): (seq<Node>, bool)
  {
    var i := IndexOfId(nodes, incoming.id);
    if i < |nodes| then
      if IsSecure(incoming) || (!IsSecure(nodes[i]) && SameIp(nodes[i], incoming))
      then (nodes[..i] + nodes[i + 1..] + [incoming], true)
      else (nodes, false)
    else if |nodes| < MAX_BUCKET_SIZE_K then (nodes + [incoming], true)
    else if IsStale(nodes[0], now) then (nodes[1..] + [incoming], true)
    else (nodes, false)
  }

  function BucketRemove(nodes: seq<Node>, id: Id): seq<Node>
  {
    if nodes == [] then []
    else (if nodes[0].id == id then [] else [nodes[0]]) + BucketRemove(nodes[1..], id)
  }

  function BucketAt(b: Buckets, d: nat): seq<Node> { if d in b then b[d] else [] }

  predicate SomeBucketBlocks(b: Buckets, node: Node)
  {
    exists d :: d in b && AlreadyExists(node, b[d])
  }

  /** The bucket a node belongs to. */
  function DistanceFrom(own: Id): Node -> nat { (n: Node) => Distance(own, n.id) }

  function TableAdd(own: Id, b: Buckets, node: Node, now: nat): (Buckets, bool)
  {
    var d := DistanceFrom(own)(node);
    if d == 0 || SomeBucketBlocks(b, node) then (b, false)
    else
      var (nodes, added) := BucketAdd(BucketAt(b, d), node, now);
      (b[d := nodes], added)
  }

  function TableRemove(own: Id, b: Buckets, id: Id): Buckets
  {
    var d := Distance(own, id);
    if d in b then b[d := BucketRemove(b[d], id)] else b
  }

  /** The nodes of the buckets lo, lo + 1, .., hi - 1 in this order. */
  function Between(b: Buckets, lo: nat, hi: nat): seq<Node>
    decreases hi - lo, |b|
  {
    if lo >= hi then [] else BucketAt(b, lo) + Between(b, lo + 1, hi)
  }

  function AllNodes(b: Buckets): seq<Node> { Between(b, 1, MAX_DISTANCE + 1) }

  function ClosestTo(b: Buckets, target: Id): seq<Node>
  {
    var all := AddedAll(KeyOf(target), Excludes, [], AllNodes(b));
    all[..if |all| < MAX_BUCKET_SIZE_K then |all| else MAX_BUCKET_SIZE_K]
  }

  // === The table invariant ===

  ghost predicate BucketOk(distance: Node -> nat, d: nat, nodes: seq<Node>)
  {
    && 1 <= d <= MAX_DISTANCE
    && |nodes| <= MAX_BUCKET_SIZE_K
    && UniqueIds(nodes)
    && forall n :: n in nodes ==> distance(n) == d
  }

  ghost predicate TableOk(own: Id, b: Buckets)
  {
    BucketsOk(DistanceFrom(own), b) && Related(Compatible, b)
  }

  ghost predicate BucketsOk(distance: Node -> nat, b: Buckets)
  {
    forall d :: d in b ==> BucketOk(distance, d, b[d])
  }

  /** A relation between any two different nodes of the table. */
  ghost predicate Related(rel: (Node, Node) -> bool, b: Buckets)
  {
    forall d, e, n, m :: d in b && e in b && n in b[d] && m in b[e] && n != m ==> rel(n, m)
  }

  lemma RelatedUpdate(rel: (Node, Node) -> bool, b: Buckets, d: nat, nodes: seq<Node>, node: Node)
    requires Related(rel, b)
    requires forall n :: n in nodes ==> n == node || (d in b && n in b[d])
    requires forall e, m :: e in b && m in b[e] ==> rel(m, node) && rel(node, m)
    ensures Related(rel, b[d := nodes])
  {
  }

  lemma NotBlockedRelates(b: Buckets, node: Node)
    requires !SomeBucketBlocks(b, node)
    ensures forall e, m :: e in b && m in b[e] ==> Compatible(m, node) && Compatible(node, m)
  {
    forall e, m | e in b && m in b[e] ensures Compatible(m, node) && Compatible(node, m) {
      var i :| 0 <= i < |b[e]| && b[e][i] == m;
      assert !AlreadyExists(node, b[e]);
      NotExcludedIsCompatible(b[e][i], node);
      FilterImpliesCompatible();
    }
  }

  lemma BucketAddOk(distance: Node -> nat, d: nat, nodes: seq<Node>, incoming: Node, now: nat)
    requires BucketOk(distance, d, nodes) && distance(incoming) == d
    ensures BucketOk(distance, d, BucketAdd(nodes, incoming, now).0)
    ensures forall n :: n in BucketAdd(nodes, incoming, now).0 ==> n in nodes || n == incoming
  {
  }

  lemma {:induction false} BucketRemoveOk(distance: Node -> nat, d: nat, nodes: seq<Node>, id: Id)
    requires BucketOk(distance, d, nodes)
    ensures BucketOk(distance, d, BucketRemove(nodes, id))
    ensures forall n :: n in BucketRemove(nodes, id) <==> n in nodes && n.id != id
    ensures |BucketRemove(nodes, id)| <= |nodes|
  {
    if nodes != [] {
      assert nodes == [nodes[0]] + nodes[1..];
      BucketRemoveOk(distance, d, nodes[1..], id);
    }
  }

  /** One bucket, changed by at most one node that is related to all others, leaves the table in order. */
  lemma TableUpdateOk(distance: Node -> nat, rel: (Node, Node) -> bool, b: Buckets, d: nat, node: Node, now: nat)
    requires BucketsOk(distance, b) && Related(rel, b) && distance(node) == d && 1 <= d <= MAX_DISTANCE
    requires forall e, m :: e in b && m in b[e] ==> rel(m, node) && rel(node, m)
    ensures var b' := b[d := BucketAdd(BucketAt(b, d), node, now).0];
            BucketsOk(distance, b') && Related(rel, b')
  {
    BucketAddOk(distance, d, BucketAt(b, d), node, now);
    RelatedUpdate(rel, b, d, BucketAdd(BucketAt(b, d), node, now).0, node);
  }

  lemma TableAddOk(own: Id, b: Buckets, node: Node, now: nat)
    requires TableOk(own, b)
    ensures TableOk(own, TableAdd(own, b, node, now).0)
  {
    var d := DistanceFrom(own)(node);
    if d != 0 && !SomeBucketBlocks(b, node) {
      NotBlockedRelates(b, node);
      TableUpdateOk(DistanceFrom(own), Compatible, b, d, node, now);
    }
  }

  lemma TableRemoveOk(own: Id, b: Buckets, id: Id)
    requires TableOk(own, b)
    ensures TableOk(own, TableRemove(own, b, id))
    ensures forall d, n :: d in b && n in b[d] ==> (n in TableRemove(own, b, id)[d] <==> n.id != id)
  {
    var d := Distance(own, id);
    if d in b {
      BucketRemoveOk(DistanceFrom(own), d, b[d], id);
    }
  }

  // === Whole runs ===

  datatype TableOp = AddNode(node: Node, now: nat) | RemoveNode(id: Id)

  function RunTable(own: Id, ops: seq<TableOp>): Buckets
  {
    if ops == [] then map[]
    else
      var b := RunTable(own, ops[..|ops| - 1]);
      match ops[|ops| - 1]
      case AddNode(node, now) => TableAdd(own, b, node, now).0
      case RemoveNode(id) => TableRemove(own, b, id)
  }

  lemma {:induction false} RunKeepsTableOk(own: Id, ops: seq<TableOp>)
    ensures TableOk(own, RunTable(own, ops))
  {
    if ops != [] {
      var b := RunTable(own, ops[..|ops| - 1]);
      RunKeepsTableOk(own, ops[..|ops| - 1]);
      match ops[|ops| - 1]
      case AddNode(node, now) => TableAddOk(own, b, node, now);
      case RemoveNode(id) => TableRemoveOk(own, b, id);
    }
  }

  lemma {:induction false} BetweenMembers(b: Buckets, lo: nat, hi: nat)
    ensures forall n :: n in Between(b, lo, hi) <==> exists d :: d in b && lo <= d < hi && n in b[d]
    decreases hi - lo, |b|
  {
    if lo < hi {
      BetweenMembers(b, lo + 1, hi);
    }
  }

  lemma {:induction false} BetweenLists(own: Id, b: Buckets, lo: nat, hi: nat)
    requires TableOk(own, b)
    ensures UniqueIds(Between(b, lo, hi))
    decreases hi - lo, |b|
  {
    if lo < hi {
      BetweenLists(own, b, lo + 1, hi);
      BetweenMembers(b, lo + 1, hi);
      var head, tail := if lo in b then b[lo] else [], Between(b, lo + 1, hi);
      forall i, j | 0 <= i < |head| && 0 <= j < |tail| ensures head[i].id != tail[j].id {
        assert tail[j] in tail && head[i] in head;
        assert DistanceFrom(own)(head[i]) == lo;
        assert DistanceFrom(own)(tail[j]) > lo;
      }
    }
  }

  /** After any run of additions and removals the listed nodes have distinct ids, none is the own id,
      each sits in the bucket of its distance, no bucket exceeds 20, and per address there is at most
      one insecure node and, on a public address, at most eight secure ones. */
  lemma ReachableTable(own: Id, ops: seq<TableOp>)
    ensures var b := RunTable(own, ops);
            var all := AllNodes(b);
            && UniqueIds(all) && Pairwise(Compatible, all)
            && (forall n :: n in all ==> n.id != own && var d := Distance(own, n.id); d in b && n in b[d])
            && (forall d :: d in b ==> 1 <= d <= MAX_DISTANCE && |b[d]| <= MAX_BUCKET_SIZE_K)
            && (forall d, n :: d in b && n in b[d] ==> n in all)
            && forall ip :: CountAt(all, ip, false) <= 1 && (!IsLocal(ip) ==> CountAt(all, ip, true) <= 8)
  {
    RunKeepsTableOk(own, ops);
    TableOkLists(own, RunTable(own, ops));
    var all := AllNodes(RunTable(own, ops));
    forall ip ensures CountAt(all, ip, false) <= 1 && (!IsLocal(ip) ==> CountAt(all, ip, true) <= 8) {
      QuotaPerAddress(all, ip);
    }
    forall n | n in all ensures n.id != own {
      DistanceIsBitLength(own, n.id, 0);
    }
  }

  lemma TableOkLists(own: Id, b: Buckets)
    requires TableOk(own, b)
    ensures var all := AllNodes(b);
            && UniqueIds(all) && Pairwise(Compatible, all)
            && (forall n :: n in all ==> var d := Distance(own, n.id); d > 0 && d in b && n in b[d])
            && (forall d, n :: d in b && n in b[d] ==> n in all)
  {
    var all := AllNodes(b);
    BetweenMembers(b, 1, MAX_DISTANCE + 1);
    BetweenLists(own, b, 1, MAX_DISTANCE + 1);
    forall i, j | 0 <= i < j < |all| ensures Compatible(all[i], all[j]) {
      assert all[i] in all && all[j] in all;
      assert all[i] != all[j];
    }
  }

  /** It does not matter in which order, nor by which operations, the nodes came to be in the table. */
  lemma ClosestIgnoresHistory(own: Id, ops: seq<TableOp>, own': Id, ops': seq<TableOp>, target: Id)
    requires var a, b := AllNodes(RunTable(own, ops)), AllNodes(RunTable(own', ops'));
             NotMixed(a) && forall n :: n in a <==> n in b
    ensures ClosestTo(RunTable(own, ops), target) == ClosestTo(RunTable(own', ops'), target)
  {
    ReachableTable(own, ops);
    ReachableTable(own', ops');
    OrderIrrelevant(target, AllNodes(RunTable(own, ops)), AllNodes(RunTable(own', ops')));
  }

  /** A node whose id the table knows gets in exactly when nothing excludes it and it is secure, and then
      only from another address: coming back from the known address refreshes nothing. */
  lemma KnownIdReentersIff(own: Id, ops: seq<TableOp>, known: Node, node: Node, now: nat)
    requires var b := RunTable(own, ops); known in AllNodes(b) && known.id == node.id
    ensures var b := RunTable(own, ops);
            && (TableAdd(own, b, node, now).1 <==> !SomeBucketBlocks(b, node) && IsSecure(node))
            && (SameIp(known, node) ==> TableAdd(own, b, node, now) == (b, false))
  {
    var b, d := RunTable(own, ops), Distance(own, node.id);
    RunKeepsTableOk(own, ops);
    TableOkLists(own, b);
    var i :| 0 <= i < |b[d]| && b[d][i] == known;
    assert SameIp(known, node) ==> Excludes(b[d][i], node);
  }

  // === The mutable structures ===

  lemma RemoveStep(kept: seq<Node>, rest: seq<Node>, id: Id)
    requires rest != []
    ensures kept + BucketRemove(rest, id)
         == (if rest[0].id != id then kept + [rest[0]] else kept) + BucketRemove(rest[1..], id)
  {
  }

  class KBucket {
    var nodes: seq<Node>

    constructor ()
      ensures nodes == []
    {
      nodes := [];
    }

    method Add(incoming: Node, now: nat) returns (added: bool)
      modifies this
      ensures (nodes, added) == BucketAdd(old(nodes), incoming, now)
    {
      var index := 0;
      while index < |nodes| && nodes[index].id != incoming.id
        invariant index <= |nodes|
        invariant forall k :: 0 <= k < index ==> nodes[k].id != incoming.id
      {
        index := index + 1;
      }
      if index < |nodes| {
        var existing := nodes[index];
        if IsSecure(incoming) || (!IsSecure(existing) && SameIp(existing, incoming)) {
          nodes := nodes[..index] + nodes[index + 1..];
          nodes := nodes + [incoming];
          added := true;
        } else {
          added := false;
        }
      } else if |nodes| < MAX_BUCKET_SIZE_K {
        nodes := nodes + [incoming];
        added := true;
      } else if IsStale(nodes[0], now) {
        nodes := nodes[1..];
        nodes := nodes + [incoming];
        added := true;
      } else {
        added := false;
      }
    }

    method Remove(id: Id)
      modifies this
      ensures nodes == BucketRemove(old(nodes), id)
    {
      var kept: seq<Node> := [];
      for i := 0 to |nodes|
        invariant nodes == old(nodes)
        invariant kept + BucketRemove(nodes[i..], id) == BucketRemove(nodes, id)
      {
        RemoveStep(kept, nodes[i..], id);
        assert nodes[i..][1..] == nodes[i + 1..];
        if nodes[i].id != id {
          kept := kept + [nodes[i]];
        }
      }
      nodes := kept;
    }
  }

  class RoutingTable {
    const id: Id
    var buckets: map<nat, KBucket>

    ghost function State(): Buckets
      reads this, buckets.Values
    {
      map d | d in buckets :: buckets[d].nodes
    }

    /** No two distances share a bucket object. */
    ghost predicate Separate()
      reads this
    {
      forall d, e :: d in buckets && e in buckets && d != e ==> buckets[d] != buckets[e]
    }

    ghost predicate Valid()
      reads this, buckets.Values
    {
      Separate() && TableOk(id, State())
    }

    constructor (id: Id)
      ensures Valid() && this.id == id && State() == map[] && fresh(buckets.Values)
    {
      this.id := id;
      buckets := map[];
    }

    method Add(node: Node, now: nat) returns (added: bool)
      requires Valid()
      modifies this, buckets.Values
      ensures Valid() && fresh(buckets.Values - old(buckets.Values))
      ensures (State(), added) == TableAdd(id, old(State()), node, now)
    {
      TableAddOk(id, State(), node, now);
      var distance := Distance(id, node.id);
      if distance == 0 {
        return false;
      }
      assert forall d :: d in buckets ==> d in State();
      var blocked := Blocks(node);
      if blocked {
        return false;
      }
      added := AddToBucket(distance, node, now);
    }

    /** The entry at a distance, created when missing, takes the node. */
    method AddToBucket(distance: nat, node: Node, now: nat) returns (added: bool)
      requires Separate()
      modifies this, buckets.Values
      ensures Separate() && fresh(buckets.Values - old(buckets.Values))
      ensures var b := old(State());
              var (nodes, ok) := BucketAdd(BucketAt(b, distance), node, now);
              State() == b[distance := nodes] && added == ok
    {
      if distance !in buckets {
        var bucket := new KBucket();
        buckets := buckets[distance := bucket];
      }
      added := buckets[distance].Add(node, now);
    }

    /** Some bucket holds a node that excludes this one. */
    method Blocks(node: Node) returns (blocked: bool)
      requires forall d :: d in buckets ==> d <= MAX_DISTANCE
      ensures blocked == SomeBucketBlocks(State(), node)
    {
      for d := 0 to MAX_DISTANCE + 1
        invariant forall e :: e in State() && e < d ==> !AlreadyExists(node, State()[e])
      {
        if d in buckets && AlreadyExists(node, buckets[d].nodes) {
          assert AlreadyExists(node, State()[d]);
          return true;
        }
      }
      return false;
    }

    method Remove(nodeId: Id)
      requires Valid()
      modifies buckets.Values
      ensures Valid() && State() == TableRemove(id, old(State()), nodeId)
    {
      TableRemoveOk(id, State(), nodeId);
      var distance := Distance(id, nodeId);
      if distance in buckets {
        buckets[distance].Remove(nodeId);
      }
      assert State() == TableRemove(id, old(State()), nodeId);
    }

    method Closest(target: Id) returns (r: seq<Node>)
      requires Valid()
      ensures r == ClosestTo(State(), target)
      ensures InsecureLast(AllNodes(State())) ==> AreFirst(KeyOf(target), AllNodes(State()), 20, r)
    {
      var closest := Collect(target);
      var n := |closest.nodes|;
      r := closest.nodes[..if n < MAX_BUCKET_SIZE_K then n else MAX_BUCKET_SIZE_K];
      if InsecureLast(AllNodes(State())) {
        TableOkLists(id, State());
        ListStartsWithClosest(target, AllNodes(State()), 20);
      }
    }

    method Collect(target: Id) returns (closest: ClosestNodes)
      ensures fresh(closest) && closest.Valid() && closest.target == target
      ensures closest.nodes == AddedAll(KeyOf(target), Excludes, [], AllNodes(State()))
    {
      closest := new ClosestNodes(target);
      ghost var b, key := State(), KeyOf(target);
      ghost var all := AddedAll(key, Excludes, [], AllNodes(b));
      for d := 1 to MAX_DISTANCE + 1
        invariant fresh(closest) && closest.Valid() && closest.target == target && State() == b
        invariant AddedAll(key, Excludes, closest.nodes, Between(b, d, MAX_DISTANCE + 1)) == all
      {
        AddedAllConcat(key, Excludes, closest.nodes, BucketAt(b, d), Between(b, d + 1, MAX_DISTANCE + 1));
        AddBucket(closest, d);
      }
    }

    method AddBucket(closest: ClosestNodes, distance: nat)
      requires closest.Valid()
      modifies closest
      ensures closest.Valid() && State() == old(State())
      ensures closest.nodes == AddedAll(KeyOf(closest.target), Excludes, old(closest.nodes),
          BucketAt(State(), distance))
    {
      var nodes := Bucket(distance);
      AddEach(closest, nodes);
    }

    static method AddEach(closest: ClosestNodes, nodes: seq<Node>)
      requires closest.Valid()
      modifies closest
      ensures closest.Valid()
      ensures closest.nodes == AddedAll(KeyOf(closest.target), Excludes, old(closest.nodes), nodes)
    {
      ghost var key, before := KeyOf(closest.target), closest.nodes;
      for i := 0 to |nodes|
        invariant closest.Valid() && key == KeyOf(closest.target)
        invariant closest.nodes == AddedAll(key, Excludes, before, nodes[..i])
      {
        assert nodes[..i + 1] == nodes[..i] + [nodes[i]];
        AddedAllAppend(key, Excludes, before, nodes[..i], nodes[i]);
        closest.Add(nodes[i]);
      }
      assert nodes[..|nodes|] == nodes;
    }

    /** The nodes at a distance, none where no bucket was created. */
    method Bucket(distance: nat) returns (nodes: seq<Node>)
      ensures nodes == BucketAt(State(), distance)
    {
      if distance !in buckets {
        return [];
      }
      nodes := buckets[distance].nodes;
      assert State()[distance] == nodes;
    }

    method Size() returns (n: nat)
      requires Valid()
      ensures n == |AllNodes(State())|
    {
      n := 0;
      for d := 1 to MAX_DISTANCE + 1
        invariant n + |Between(State(), d, MAX_DISTANCE + 1)| == |AllNodes(State())|
      {
        var nodes := Bucket(d);
        n := n + |nodes|;
      }
    }
  }

  /** Stepping past the last node of a bucket is stepping to the start of the next one. */
  lemma BucketBoundary(b: Buckets, i: nat, hi: nat)
    requires i < hi
    ensures BucketAt(b, i) <= Between(b, i, hi)
    ensures Between(b, i, hi)[|BucketAt(b, i)|..] == Between(b, i + 1, hi)
  {
  }

  /** The node at a place, and what is still to come behind it. */
  lemma NodeAt(b: Buckets, i: nat, j: nat, hi: nat)
    requires i < hi && j < |BucketAt(b, i)|
    ensures j < |Between(b, i, hi)| && Between(b, i, hi)[j] == BucketAt(b, i)[j]
    ensures Between(b, i, hi)[j..][1..] == Between(b, i, hi)[j + 1..]
    ensures j + 1 == |BucketAt(b, i)| ==> Between(b, i, hi)[j + 1..] == Between(b, i + 1, hi)
  {
    BucketBoundary(b, i, hi);
  }

  /** `RoutingTableIterator`: a bucket index from 1 to 160 and an index into that bucket. */
  class RoutingTableIterator {
    const table: RoutingTable
    var bucketIndex: nat
    var nodeIndex: nat

    ghost predicate Valid()
      reads this, table, table.buckets.Values
    {
      && 1 <= bucketIndex <= MAX_DISTANCE + 1
      && nodeIndex <= |Between(table.State(), bucketIndex, MAX_DISTANCE + 1)|
      && (nodeIndex > 0 ==> nodeIndex < |BucketAt(table.State(), bucketIndex)|)
    }

    /** What is still to come. */
    ghost function Rest(): seq<Node>
      requires Valid()
      reads this, table, table.buckets.Values
    {
      Between(table.State(), bucketIndex, MAX_DISTANCE + 1)[nodeIndex..]
    }

    constructor (table: RoutingTable)
      ensures Valid() && this.table == table && Rest() == AllNodes(table.State())
    {
      this.table := table;
      bucketIndex, nodeIndex := 1, 0;
    }

    /** The node at the current place; the place moves on. */
    method TakeFrom(nodes: seq<Node>) returns (node: Node)
      requires Valid() && bucketIndex <= MAX_DISTANCE
      requires nodes == BucketAt(table.State(), bucketIndex) && nodeIndex < |nodes|
      modifies this
      ensures Valid() && old(Rest()) != [] && node == old(Rest())[0] && Rest() == old(Rest())[1..]
    {
      NodeAt(table.State(), bucketIndex, nodeIndex, MAX_DISTANCE + 1);
      node := nodes[nodeIndex];
      nodeIndex := nodeIndex + 1;
      if nodeIndex == |nodes| {
        nodeIndex := 0;
        bucketIndex := bucketIndex + 1;
      }
    }

    /** Each call yields the next node of the table, none twice, until all have been seen. */
    method Next() returns (r: Option<Node>)
      requires Valid()
      modifies this
      ensures Valid()
      ensures if old(Rest()) == [] then r == None && Rest() == []
              else r == Some(old(Rest())[0]) && Rest() == old(Rest())[1..]
    {
      ghost var b, rest := table.State(), Rest();
      while bucketIndex <= MAX_DISTANCE
        invariant Valid() && table.State() == b && Rest() == rest
        decreases MAX_DISTANCE + 1 - bucketIndex
      {
        BucketBoundary(b, bucketIndex, MAX_DISTANCE + 1);
        var nodes := table.Bucket(bucketIndex);
        if nodeIndex < |nodes| {
          var node := TakeFrom(nodes);
          return Some(node);
        }
        bucketIndex := bucketIndex + 1;
      }
      r := None;
    }
  }
}
