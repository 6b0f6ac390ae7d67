/** Exactly when `closest` (rust/mainline/src/common/routing_table.rs) returns the nodes that come first. */
module ClosestExact {
  import opened Bytes
  import opened Ids
  import opened Nodes
  import opened SortedLists
  import opened Closest
  import opened Routing

  // === Sorted lists and their first elements ===

  /** All elements in key order: insertion that keeps nothing out. */
  function Ranking<T>(key: T -> int, s: seq<T>): seq<T>
  {
    AddedAll(key, (a, b) => false, [], s)
  }

  lemma RankingIsAll<T>(key: T -> int, s: seq<T>)
    requires DistinctKeys(key, s)
    ensures Sorted(key, Ranking(key, s)) && |Ranking(key, s)| == |s|
    ensures forall x :: x in Ranking(key, s) <==> x in s
  {
    AddedAllKeeps(key, (a, b) => false, [], s);
    AllKeptIff(key, (a, b) => false, s);
  }

  function Up(limit: nat, n: nat): nat { if n < limit then n else limit }

  /** A sorted part that holds the first n elements of a sorted list begins with them. */
  lemma {:induction false} BeginsWith<T>(key: T -> int, all: seq<T>, part: seq<T>, n: nat)
    requires Sorted(key, all) && Sorted(key, part) && n <= |all|
    requires forall x :: x in part ==> x in all
    requires forall i :: 0 <= i < n ==> all[i] in part
    ensures n <= |part| && part[..n] == all[..n]
  {
    if n > 0 {
      BeginsWith(key, all, part, n - 1);
      var j :| 0 <= j < |part| && part[j] == all[n - 1];
      NotEarlier(key, all, part, n - 1, j);
      assert part[n - 1] in part;
      var i :| 0 <= i < |all| && all[i] == part[n - 1];
      NotEarlier(key, part, all, n - 1, i);
    }
  }

  lemma PrefixAt<T>(a: seq<T>, b: seq<T>, n: nat)
    requires n <= |a| && n <= |b| && a[..n] == b[..n]
    ensures forall k :: 0 <= k < n ==> a[k] == b[k]
  {
    forall k | 0 <= k < n ensures a[k] == b[k] {
      assert a[..n][k] == b[..n][k];
    }
  }

  lemma NotEarlier<T>(key: T -> int, all: seq<T>, part: seq<T>, n: nat, j: nat)
    requires Sorted(key, all) && n < |all| && n <= |part| && j < |part| && part[..n] == all[..n]
    requires Sorted(key, part) && part[j] == all[n]
    ensures j >= n
  {
    PrefixAt(all, part, n);
  }

  lemma KeyOrder<T>(key: T -> int, all: seq<T>, i: nat, j: nat)
    requires Sorted(key, all) && i < |all| && j < |all| && key(all[i]) < key(all[j])
    ensures i < j
  {
  }

  /** Elements in front of place j are no more than j. */
  lemma {:induction false} AtMostBefore<T>(key: T -> int, all: seq<T>, part: seq<T>, j: nat)
    requires Sorted(key, all) && Sorted(key, part) && j < |all|
    requires forall x :: x in part ==> x in all && key(x) < key(all[j])
    ensures |part| <= j
  {
    if part != [] {
      var last := part[|part| - 1];
      assert last in part;
      var i :| 0 <= i < |all| && all[i] == last;
      KeyOrder(key, all, i, j);
      forall x | x in part[..|part| - 1] ensures x in all && key(x) < key(all[i]) {
        var k :| 0 <= k < |part| - 1 && part[..|part| - 1][k] == x;
        assert part[k] in part && key(part[k]) < key(last);
      }
      AtMostBefore(key, all, part[..|part| - 1], i);
    }
  }

  /** The beginning of a sorted part are the first elements of the whole exactly when it holds them. */
  lemma FirstIff<T(!new)>(key: T -> int, s: seq<T>, all: seq<T>, part: seq<T>, limit: nat)
    requires Sorted(key, all) && |all| == |s| && (forall x :: x in all <==> x in s)
    requires Sorted(key, part) && forall x :: x in part ==> x in s
    ensures AreFirst(key, s, limit, part[..Up(limit, |part|)])
       <==> forall i :: 0 <= i < Up(limit, |all|) ==> all[i] in part
  {
    var n, r := Up(limit, |all|), part[..Up(limit, |part|)];
    if forall i :: 0 <= i < n ==> all[i] in part {
      BeginsWith(key, all, part, n);
      PrefixIsFirst(key, s, all, limit);
      PartIsSmaller(key, all, part);
    } else if AreFirst(key, s, limit, r) {
      var i :| 0 <= i < n && all[i] !in part;
      forall x | x in r ensures x in all && key(x) < key(all[i]) {
        assert x in part;
        assert all[i] in s && all[i] !in r;
      }
      AtMostBefore(key, all, r, i);
    }
  }

  lemma PartIsSmaller<T>(key: T -> int, all: seq<T>, part: seq<T>)
    requires Sorted(key, all) && Sorted(key, part) && forall x :: x in part ==> x in all
    ensures |part| <= |all|
  {
    if part != [] {
      var n := |part| - 1;
      assert part[n] in part;
      var i :| 0 <= i < |all| && all[i] == part[n];
      forall x | x in part[..n] ensures x in all && key(x) < key(all[i]) {
        var k :| 0 <= k < n && part[..n][k] == x;
        assert part[k] in part && key(part[k]) < key(part[n]);
      }
      AtMostBefore(key, all, part[..n], i);
    }
  }

  // === Which nodes the quota keeps ===

  /** An insecure node of its address is listed before it. */
  predicate Shadowed(nodes: seq<Node>, j: nat)
    requires j < |nodes|
  {
    exists i :: 0 <= i < j && SameIp(nodes[i], nodes[j]) && !IsSecure(nodes[i])
  }

  ghost predicate Listable(nodes: seq<Node>) { Pairwise(Compatible, nodes) && UniqueIds(nodes) }

  lemma InsecureIsKept(target: Id, nodes: seq<Node>, i: nat, j: nat)
    requires Listable(nodes) && i < j <= |nodes| && !IsSecure(nodes[i])
    ensures nodes[i] in After(KeyOf(target), Excludes, nodes, j)
  {
    UniqueIdsDistinctKeys(target, nodes);
    AfterStep(KeyOf(target), Excludes, nodes, i);
    NoMoreThanGiven(KeyOf(target), Excludes, nodes, i + 1, j);
    var acc := After(KeyOf(target), Excludes, nodes, i);
    forall k | 0 <= k < |acc| ensures !Excludes(acc[k], nodes[i]) {
      assert acc[k] in acc;
      var h :| 0 <= h < i && nodes[..i][h] == acc[k];
      assert Compatible(nodes[h], nodes[i]);
    }
  }

  lemma BlockedIsShadowed(target: Id, nodes: seq<Node>, j: nat)
    requires Listable(nodes) && j < |nodes|
    requires Blocked(Excludes, After(KeyOf(target), Excludes, nodes, j), nodes[j])
    ensures Shadowed(nodes, j)
  {
    var acc := After(KeyOf(target), Excludes, nodes, j);
    UniqueIdsDistinctKeys(target, nodes);
    AfterStep(KeyOf(target), Excludes, nodes, j);
    var k :| 0 <= k < |acc| && Excludes(acc[k], nodes[j]);
    assert acc[k] in acc;
    var h :| 0 <= h < j && nodes[..j][h] == acc[k];
    assert Compatible(nodes[h], nodes[j]);
  }

  lemma ShadowedIsBlocked(target: Id, nodes: seq<Node>, j: nat)
    requires Listable(nodes) && j < |nodes| && Shadowed(nodes, j)
    ensures Blocked(Excludes, After(KeyOf(target), Excludes, nodes, j), nodes[j])
  {
    var acc := After(KeyOf(target), Excludes, nodes, j);
    var i :| 0 <= i < j && SameIp(nodes[i], nodes[j]) && !IsSecure(nodes[i]);
    InsecureIsKept(target, nodes, i, j);
    var k :| 0 <= k < |acc| && acc[k] == nodes[i];
    assert Excludes(acc[k], nodes[j]);
  }

  /** A node that was not taken when its turn came does not come later. */
  lemma {:induction false} NeverLater(target: Id, nodes: seq<Node>, j: nat, k: nat)
    requires Listable(nodes) && j < k <= |nodes| && nodes[j] !in After(KeyOf(target), Excludes, nodes, j + 1)
    ensures nodes[j] !in After(KeyOf(target), Excludes, nodes, k)
  {
    if j + 1 < k {
      var acc := After(KeyOf(target), Excludes, nodes, k - 1);
      NeverLater(target, nodes, j, k - 1);
      assert nodes[..k] == nodes[..k - 1] + [nodes[k - 1]];
      AddedAllAppend(KeyOf(target), Excludes, [], nodes[..k - 1], nodes[k - 1]);
      InsertMembers(KeyOf(target), acc, nodes[k - 1]);
      assert nodes[j].id != nodes[k - 1].id;
    }
  }

  lemma NotBefore(nodes: seq<Node>, j: nat)
    requires UniqueIds(nodes) && j < |nodes|
    ensures nodes[j] !in nodes[..j]
  {
  }

  lemma KeptIff(target: Id, nodes: seq<Node>, j: nat)
    requires Listable(nodes) && j < |nodes|
    ensures nodes[j] in AddedAll(KeyOf(target), Excludes, [], nodes) <==> !Shadowed(nodes, j)
  {
    assert nodes[..|nodes|] == nodes;
    UniqueIdsDistinctKeys(target, nodes);
    AfterStep(KeyOf(target), Excludes, nodes, j);
    if Shadowed(nodes, j) {
      ShadowedIsBlocked(target, nodes, j);
      NotBefore(nodes, j);
      NeverLater(target, nodes, j, |nodes|);
    } else {
      if Blocked(Excludes, After(KeyOf(target), Excludes, nodes, j), nodes[j]) {
        BlockedIsShadowed(target, nodes, j);
      }
      NoMoreThanGiven(KeyOf(target), Excludes, nodes, j + 1, |nodes|);
    }
  }

  // === The table ===

  /** None of the first nodes in the ranking is listed after an insecure node of its address. */
  ghost predicate FirstUnshadowed(target: Id, nodes: seq<Node>, limit: nat)
  {
    var ranking := Ranking(KeyOf(target), nodes);
    forall j :: 0 <= j < |nodes| && nodes[j] in ranking[..Up(limit, |ranking|)] ==> !Shadowed(nodes, j)
  }

  lemma UnshadowedIff(target: Id, nodes: seq<Node>, limit: nat)
    requires Listable(nodes)
    ensures var all, kept := Ranking(KeyOf(target), nodes), AddedAll(KeyOf(target), Excludes, [], nodes);
      FirstUnshadowed(target, nodes, limit) <==> forall i :: 0 <= i < Up(limit, |all|) ==> all[i] in kept
  {
    var all, kept := Ranking(KeyOf(target), nodes), AddedAll(KeyOf(target), Excludes, [], nodes);
    var first := all[..Up(limit, |all|)];
    UniqueIdsDistinctKeys(target, nodes);
    RankingIsAll(KeyOf(target), nodes);
    if FirstUnshadowed(target, nodes, limit) {
      forall i | 0 <= i < |first| ensures all[i] in kept {
        assert all[i] in all && first[i] in first;
        var j :| 0 <= j < |nodes| && nodes[j] == all[i];
        KeptIff(target, nodes, j);
      }
    }
    if forall i :: 0 <= i < |first| ==> all[i] in kept {
      forall j | 0 <= j < |nodes| && nodes[j] in first ensures !Shadowed(nodes, j) {
        var i :| 0 <= i < |first| && first[i] == nodes[j];
        assert all[i] in kept;
        KeptIff(target, nodes, j);
      }
    }
  }

  lemma ListedFirstIff(target: Id, nodes: seq<Node>, limit: nat)
    requires Listable(nodes)
    ensures var kept := AddedAll(KeyOf(target), Excludes, [], nodes);
      AreFirst(KeyOf(target), nodes, limit, kept[..Up(limit, |kept|)]) <==> FirstUnshadowed(target, nodes, limit)
  {
    UniqueIdsDistinctKeys(target, nodes);
    RankingIsAll(KeyOf(target), nodes);
    AddedAllKeeps(KeyOf(target), Excludes, [], nodes);
    FirstIff(KeyOf(target), nodes, Ranking(KeyOf(target), nodes), AddedAll(KeyOf(target), Excludes, [], nodes), limit);
    UnshadowedIff(target, nodes, limit);
  }

  /** In every reachable table: `closest` returns exactly the first min(20, size) nodes in the order "secure first,
      then nearer" if and only if none of these is listed after an insecure node of its address. */
  lemma ClosestAreFirst(own: Id, ops: seq<TableOp>, target: Id)
    ensures var all := AllNodes(RunTable(own, ops));
      AreFirst(KeyOf(target), all, MAX_BUCKET_SIZE_K, ClosestTo(RunTable(own, ops), target))
      <==> FirstUnshadowed(target, all, MAX_BUCKET_SIZE_K)
  {
    ReachableTable(own, ops);
    ListedFirstIff(target, AllNodes(RunTable(own, ops)), MAX_BUCKET_SIZE_K);
  }
}
