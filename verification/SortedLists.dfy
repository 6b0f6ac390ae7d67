/** Strictly sorted lists for any key: insertion, binary search, and insertion behind a filter that
    lets earlier entries keep later ones out. */
module SortedLists {

  ghost predicate Sorted<T>(key: T -> int, s: seq<T>)
  {
    forall i, j :: 0 <= i < j < |s| ==> key(s[i]) < key(s[j])
  }

  ghost predicate HasKey<T>(key: T -> int, s: seq<T>, k: int)
  {
    exists i :: 0 <= i < |s| && key(s[i]) == k
  }

  /** Insert in front of the first larger key; leave the list alone when the key is there. */
  function Insert<T>(key: T -> int, s: seq<T>, x: T): seq<T>
  {
    if s == [] || key(x) < key(s[0]) then [x] + s
    else if key(x) == key(s[0]) then s
    else [s[0]] + Insert(key, s[1..], x)
  }

  lemma {:induction false} InsertMembers<T>(key: T -> int, s: seq<T>, x: T)
    ensures forall y :: y in s ==> y in Insert(key, s, x)
    ensures forall y :: y in Insert(key, s, x) ==> y in s || y == x
  {
    if s == [] || key(x) < key(s[0]) {
    } else if key(x) == key(s[0]) {
    } else {
      InsertMembers(key, s[1..], x);
      assert s == [s[0]] + s[1..];
    }
  }

  lemma {:induction false} InsertSorts<T>(key: T -> int, s: seq<T>, x: T)
    requires Sorted(key, s)
    ensures Sorted(key, Insert(key, s, x))
    ensures HasKey(key, s, key(x)) ==> Insert(key, s, x) == s
    ensures !HasKey(key, s, key(x)) ==> x in Insert(key, s, x) && |Insert(key, s, x)| == |s| + 1
  {
    if s == [] {
    } else if key(x) < key(s[0]) {
      InsertFront(key, s, x);
    } else if key(x) == key(s[0]) {
    } else {
      InsertSorts(key, s[1..], x);
      TailAbove(key, s, x);
      PrependSorted(key, s[0], Insert(key, s[1..], x));
      HasKeyStep(key, s, key(x));
      InsertBehind(key, s, x, Insert(key, s[1..], x));
    }
  }

  lemma InsertFront<T>(key: T -> int, s: seq<T>, x: T)
    requires Sorted(key, s) && s != [] && key(x) < key(s[0])
    ensures Insert(key, s, x) == [x] + s && Sorted(key, [x] + s) && !HasKey(key, s, key(x))
  {
    HeadIsSmallest(key, s);
  }

  lemma InsertBehind<T>(key: T -> int, s: seq<T>, x: T, r: seq<T>)
    requires s != [] && key(s[0]) < key(x) && r == Insert(key, s[1..], x)
    ensures Insert(key, s, x) == [s[0]] + r && |Insert(key, s, x)| == 1 + |r|
    ensures r == s[1..] ==> Insert(key, s, x) == s
    ensures x in r ==> x in Insert(key, s, x)
  {
  }

  /** What is inserted behind the head stays above it. */
  lemma {:induction false} TailAbove<T>(key: T -> int, s: seq<T>, x: T)
    requires Sorted(key, s) && s != [] && key(s[0]) < key(x)
    ensures forall y :: y in Insert(key, s[1..], x) ==> key(s[0]) < key(y)
  {
    InsertMembers(key, s[1..], x);
    forall y | y in Insert(key, s[1..], x) ensures key(s[0]) < key(y) {
      if y != x {
        var i :| 0 <= i < |s| - 1 && s[1..][i] == y;
        assert s[i + 1] == y;
      }
    }
  }

  lemma PrependSorted<T>(key: T -> int, head: T, r: seq<T>)
    requires Sorted(key, r) && forall y :: y in r ==> key(head) < key(y)
    ensures Sorted(key, [head] + r)
  {
  }

  lemma HeadIsSmallest<T>(key: T -> int, s: seq<T>)
    requires Sorted(key, s) && s != []
    ensures forall i :: 0 <= i < |s| ==> key(s[0]) <= key(s[i])
  {
  }

  lemma HasKeyStep<T>(key: T -> int, s: seq<T>, k: int)
    requires s != []
    ensures HasKey(key, s, k) <==> key(s[0]) == k || HasKey(key, s[1..], k)
  {
    if HasKey(key, s[1..], k) {
      var i :| 0 <= i < |s[1..]| && key(s[1..][i]) == k;
      assert s[i + 1] == s[1..][i];
    }
    if HasKey(key, s, k) {
      var i :| 0 <= i < |s| && key(s[i]) == k;
      assert i > 0 ==> s[1..][i - 1] == s[i];
    }
  }

  /** A position with smaller keys before it and larger keys from it on is where the element goes. */
  lemma {:induction false} InsertAtPosition<T>(key: T -> int, s: seq<T>, x: T, pos: nat)
    requires pos <= |s|
    requires forall i :: 0 <= i < pos ==> key(s[i]) < key(x)
    requires forall i :: pos <= i < |s| ==> key(x) < key(s[i])
    ensures Insert(key, s, x) == s[..pos] + [x] + s[pos..]
  {
    if pos == 0 {
      assert s[..0] + [x] + s[0..] == [x] + s;
    } else {
      InsertAtPosition(key, s[1..], x, pos - 1);
      assert s[..pos] == [s[0]] + s[1..][..pos - 1];
      assert s[pos..] == s[1..][pos - 1..];
    }
  }

  /** A relation between every earlier and every later element. */
  ghost predicate Pairwise<T>(rel: (T, T) -> bool, s: seq<T>)
  {
    forall i, j :: 0 <= i < j < |s| ==> rel(s[i], s[j])
  }

  /** Insertion keeps a symmetric relation that holds between the new element and every old one. */
  lemma {:induction false} InsertKeepsPairwise<T(!new)>(key: T -> int, rel: (T, T) -> bool, s: seq<T>, x: T)
    requires Sorted(key, s) && Pairwise(rel, s)
    requires forall y, z :: rel(y, z) ==> rel(z, y)
    requires forall i :: 0 <= i < |s| ==> rel(s[i], x)
    ensures Pairwise(rel, Insert(key, s, x))
  {
    if s == [] || key(x) < key(s[0]) {
    } else if key(x) == key(s[0]) {
    } else {
      var rest, r := s[1..], Insert(key, s[1..], x);
      InsertKeepsPairwise(key, rel, rest, x);
      InsertMembers(key, rest, x);
      forall j | 0 <= j < |r| ensures rel(s[0], r[j]) {
        if r[j] != x {
          assert r[j] in r;
          var i :| 0 <= i < |rest| && rest[i] == r[j];
          assert s[i + 1] == r[j];
        }
      }
    }
  }

  /** Two strictly sorted lists with the same members are the same list. */
  lemma {:induction false} SortedUnique<T>(key: T -> int, a: seq<T>, b: seq<T>)
    requires Sorted(key, a) && Sorted(key, b)
    requires forall x :: x in a <==> x in b
    ensures a == b
  {
    if a == [] {
      MemberOfNonEmpty(b);
    } else {
      assert a[0] in b;
      assert b[0] in a;
      var i :| 0 <= i < |b| && b[i] == a[0];
      var j :| 0 <= j < |a| && a[j] == b[0];
      assert a[0] == b[0];
      forall x ensures x in a[1..] <==> x in b[1..] {
        TailMembers(key, a, x);
        TailMembers(key, b, x);
      }
      SortedUnique(key, a[1..], b[1..]);
      assert a == [a[0]] + a[1..] && b == [b[0]] + b[1..];
    }
  }

  lemma MemberOfNonEmpty<T>(s: seq<T>)
    ensures s == [] || s[0] in s
  {
  }

  lemma TailMembers<T>(key: T -> int, s: seq<T>, x: T)
    requires Sorted(key, s) && s != []
    ensures x in s[1..] <==> x in s && x != s[0]
  {
    if x in s[1..] {
      var i :| 0 <= i < |s[1..]| && s[1..][i] == x;
      assert s[i + 1] == x;
      assert key(s[0]) < key(s[i + 1]);
    }
    if x in s && x != s[0] {
      var i :| 0 <= i < |s| && s[i] == x;
      assert s[1..][i - 1] == x;
    }
  }

  // === Binary search ===

  datatype Ordering = Less | Equal | Greater

  /** What `binary_search_by` demands: first the elements that compare less, then equal, then greater. */
  ghost predicate Partitioned<T>(compare: T -> Ordering, s: seq<T>)
  {
    forall i, j :: 0 <= i < j < |s| ==>
      (compare(s[j]) == Less ==> compare(s[i]) == Less) && (compare(s[i]) == Greater ==> compare(s[j]) == Greater)
  }

  method BinarySearchBy<T>(s: seq<T>, compare: T -> Ordering) returns (found: bool, pos: nat)
    requires Partitioned(compare, s)
    ensures pos <= |s|
    ensures found ==> pos < |s| && compare(s[pos]) == Equal
    ensures !found ==> forall i :: 0 <= i < pos ==> compare(s[i]) == Less
    ensures !found ==> forall i :: pos <= i < |s| ==> compare(s[i]) == Greater
  {
    var lo, hi := 0, |s|;
    while lo < hi
      invariant lo <= hi <= |s|
      invariant forall i :: 0 <= i < lo ==> compare(s[i]) == Less
      invariant forall i :: hi <= i < |s| ==> compare(s[i]) == Greater
    {
      var mid := lo + (hi - lo) / 2;
      match compare(s[mid]) {
        case Equal => return true, mid;
        case Less => lo := mid + 1;
        case Greater => hi := mid;
      }
    }
    return false, lo;
  }

  // === Insertion behind a filter ===

  /** Some entry keeps x out. */
  predicate Blocked<T>(excludes: (T, T) -> bool, s: seq<T>, x: T)
  {
    exists i :: 0 <= i < |s| && excludes(s[i], x)
  }

  function Added<T>(key: T -> int, excludes: (T, T) -> bool, s: seq<T>, x: T): seq<T>
  {
    if Blocked(excludes, s, x) then s else Insert(key, s, x)
  }

  function AddedAll<T>(key: T -> int, excludes: (T, T) -> bool, s: seq<T>, more: seq<T>): seq<T>
    decreases |more|
  {
    if more == [] then s else AddedAll(key, excludes, Added(key, excludes, s, more[0]), more[1..])
  }

  lemma {:induction false} AddedAllAppend<T>(key: T -> int, excludes: (T, T) -> bool, s: seq<T>, more: seq<T>, x: T)
    ensures AddedAll(key, excludes, s, more + [x]) == Added(key, excludes, AddedAll(key, excludes, s, more), x)
    decreases |more|
  {
    if more == [] {
      assert (more + [x])[1..] == [];
    } else {
      assert (more + [x])[1..] == more[1..] + [x];
      AddedAllAppend(key, excludes, Added(key, excludes, s, more[0]), more[1..], x);
    }
  }

  lemma {:induction false} AddedAllConcat<T>(key: T -> int, excludes: (T, T) -> bool, s: seq<T>, a: seq<T>, b: seq<T>)
    ensures AddedAll(key, excludes, s, a + b) == AddedAll(key, excludes, AddedAll(key, excludes, s, a), b)
    decreases |a|
  {
    if a == [] {
      assert a + b == b;
    } else {
      assert (a + b)[1..] == a[1..] + b;
      AddedAllConcat(key, excludes, Added(key, excludes, s, a[0]), a[1..], b);
    }
  }

  lemma AddedKeeps<T>(key: T -> int, excludes: (T, T) -> bool, s: seq<T>, x: T)
    requires Sorted(key, s)
    ensures Sorted(key, Added(key, excludes, s, x))
    ensures forall y :: y in s ==> y in Added(key, excludes, s, x)
    ensures forall y :: y in Added(key, excludes, s, x) ==> y in s || y == x
    ensures |s| <= |Added(key, excludes, s, x)| <= |s| + 1
  {
    InsertSorts(key, s, x);
    InsertMembers(key, s, x);
  }

  lemma {:induction false} AddedAllKeeps<T>(key: T -> int, excludes: (T, T) -> bool, s: seq<T>, more: seq<T>)
    requires Sorted(key, s)
    ensures Sorted(key, AddedAll(key, excludes, s, more))
    ensures forall y :: y in AddedAll(key, excludes, s, more) ==> y in s || y in more
    decreases |more|
  {
    if more != [] {
      AddedKeeps(key, excludes, s, more[0]);
      AddedAllKeeps(key, excludes, Added(key, excludes, s, more[0]), more[1..]);
    }
  }

  /** The filter makes a symmetric relation hold between all entries when passing it implies the relation. */
  lemma {:induction false} AddedAllPairwise<T(!new)>(key: T -> int, excludes: (T, T) -> bool, rel: (T, T) -> bool,
      s: seq<T>, more: seq<T>)
    requires Sorted(key, s) && Pairwise(rel, s)
    requires forall y, z :: rel(y, z) ==> rel(z, y)
    requires forall y, z :: !excludes(y, z) ==> rel(y, z)
    ensures Pairwise(rel, AddedAll(key, excludes, s, more))
    decreases |more|
  {
    if more != [] {
      AddedPairwise(key, excludes, rel, s, more[0]);
      AddedKeeps(key, excludes, s, more[0]);
      AddedAllPairwise(key, excludes, rel, Added(key, excludes, s, more[0]), more[1..]);
    }
  }

  lemma AddedPairwise<T(!new)>(key: T -> int, excludes: (T, T) -> bool, rel: (T, T) -> bool, s: seq<T>, x: T)
    requires Sorted(key, s) && Pairwise(rel, s)
    requires forall y, z :: rel(y, z) ==> rel(z, y)
    requires forall y, z :: !excludes(y, z) ==> rel(y, z)
    ensures Pairwise(rel, Added(key, excludes, s, x))
  {
    if !Blocked(excludes, s, x) {
      InsertKeepsPairwise(key, rel, s, x);
    }
  }

  /** The list after the first k additions to an empty one. */
  function After<T>(key: T -> int, excludes: (T, T) -> bool, s: seq<T>, k: nat): seq<T>
    requires k <= |s|
  {
    AddedAll(key, excludes, [], s[..k])
  }

  ghost predicate DistinctKeys<T>(key: T -> int, s: seq<T>)
  {
    forall i, j :: 0 <= i < j < |s| ==> key(s[i]) != key(s[j])
  }

  /** No element keeps a later one out. */
  predicate NoneBlocked<T>(excludes: (T, T) -> bool, s: seq<T>)
  {
    forall i, j :: 0 <= i < j < |s| ==> !excludes(s[i], s[j])
  }

  lemma AfterStep<T>(key: T -> int, excludes: (T, T) -> bool, s: seq<T>, k: nat)
    requires k < |s| && DistinctKeys(key, s)
    ensures var acc, next := After(key, excludes, s, k), After(key, excludes, s, k + 1);
            && Sorted(key, acc)
            && (forall y :: y in acc ==> y in s[..k] && y in next)
            && (Blocked(excludes, acc, s[k]) ==> next == acc)
            && (!Blocked(excludes, acc, s[k]) ==> s[k] in next && |next| == |acc| + 1)
  {
    var acc := After(key, excludes, s, k);
    assert s[..k + 1] == s[..k] + [s[k]];
    AddedAllAppend(key, excludes, [], s[..k], s[k]);
    AddedAllKeeps(key, excludes, [], s[..k]);
    AddedKeeps(key, excludes, acc, s[k]);
    forall i | 0 <= i < |acc| ensures key(acc[i]) != key(s[k]) {
      assert acc[i] in s[..k];
    }
    InsertSorts(key, acc, s[k]);
  }

  lemma {:induction false} AllKept<T>(key: T -> int, excludes: (T, T) -> bool, s: seq<T>, k: nat)
    requires k <= |s| && DistinctKeys(key, s) && NoneBlocked(excludes, s)
    ensures |After(key, excludes, s, k)| == k
    ensures forall m :: 0 <= m < k ==> s[m] in After(key, excludes, s, k)
  {
    if k > 0 {
      AllKept(key, excludes, s, k - 1);
      AfterStep(key, excludes, s, k - 1);
      var acc := After(key, excludes, s, k - 1);
      forall i | 0 <= i < |acc| ensures !excludes(acc[i], s[k - 1]) {
        assert acc[i] in s[..k - 1];
      }
    }
  }

  lemma {:induction false} NoMoreThanGiven<T>(key: T -> int, excludes: (T, T) -> bool, s: seq<T>, j: nat, k: nat)
    requires j <= k <= |s| && DistinctKeys(key, s)
    ensures |After(key, excludes, s, k)| <= |After(key, excludes, s, j)| + (k - j)
    ensures forall y :: y in After(key, excludes, s, j) ==> y in After(key, excludes, s, k)
  {
    if j < k {
      NoMoreThanGiven(key, excludes, s, j, k - 1);
      AfterStep(key, excludes, s, k - 1);
    }
  }

  lemma RejectedOnce<T>(key: T -> int, excludes: (T, T) -> bool, s: seq<T>, k: nat)
    requires k < |s| && DistinctKeys(key, s)
    requires Blocked(excludes, After(key, excludes, s, k), s[k])
    ensures |After(key, excludes, s, |s|)| < |s|
  {
    NoMoreThanGiven(key, excludes, s, 0, k);
    AfterStep(key, excludes, s, k);
    NoMoreThanGiven(key, excludes, s, k + 1, |s|);
  }

  lemma BlockerBlocks<T>(key: T -> int, excludes: (T, T) -> bool, s: seq<T>, i: nat, j: nat)
    requires i < j < |s| && DistinctKeys(key, s) && excludes(s[i], s[j])
    ensures |After(key, excludes, s, |s|)| < |s|
  {
    if Blocked(excludes, After(key, excludes, s, i), s[i]) {
      RejectedOnce(key, excludes, s, i);
    } else {
      AfterStep(key, excludes, s, i);
      NoMoreThanGiven(key, excludes, s, i + 1, j);
      assert s[i] in After(key, excludes, s, j);
      RejectedOnce(key, excludes, s, j);
    }
  }

  /** Every element is kept exactly when none keeps a later one out. */
  lemma AllKeptIff<T>(key: T -> int, excludes: (T, T) -> bool, s: seq<T>)
    requires DistinctKeys(key, s)
    ensures |AddedAll(key, excludes, [], s)| == |s| <==> NoneBlocked(excludes, s)
    ensures NoneBlocked(excludes, s) ==> forall y :: y in AddedAll(key, excludes, [], s) <==> y in s
  {
    assert s[..|s|] == s;
    if NoneBlocked(excludes, s) {
      AllKept(key, excludes, s, |s|);
      AddedAllKeeps(key, excludes, [], s);
    } else {
      var i, j :| 0 <= i < j < |s| && excludes(s[i], s[j]);
      BlockerBlocks(key, excludes, s, i, j);
    }
  }

  // === First elements in key order ===

  /** `r` is the first min(limit, |s|) elements of `s` in key order. */
  ghost predicate AreFirst<T(!new)>(key: T -> int, s: seq<T>, limit: nat, r: seq<T>)
  {
    && Sorted(key, r)
    && |r| == (if |s| < limit then |s| else limit)
    && (forall x :: x in r ==> x in s)
    && (forall x, y :: x in s && x !in r && y in r ==> key(y) < key(x))
  }

  lemma PrefixIsFirst<T(!new)>(key: T -> int, s: seq<T>, all: seq<T>, limit: nat)
    requires Sorted(key, all) && |all| == |s| && forall x :: x in all <==> x in s
    ensures AreFirst(key, s, limit, all[..if |all| < limit then |all| else limit])
  {
    var r := all[..if |all| < limit then |all| else limit];
    forall x, y | x in s && x !in r && y in r ensures key(y) < key(x) {
      assert x in all;
      var i :| 0 <= i < |all| && all[i] == x;
      var j :| 0 <= j < |r| && r[j] == y;
      PrefixMember(all, |r|, i);
      assert key(all[j]) < key(all[i]);
    }
    forall x | x in r ensures x in s {
      assert x in all;
    }
  }

  lemma PrefixMember<T>(all: seq<T>, k: nat, i: nat)
    requires k <= |all| && i < |all|
    ensures i < k ==> all[i] in all[..k]
  {
    assert i < k ==> all[..k][i] == all[i];
  }
}
