/** A bounded cache as a recency list, most recent first: get and put move a key to the front, a put into a full
    cache drops the last entry. The servers' stores and the query cache are caches of this kind. */
module Lrus {
  import opened Bytes

  type Items<K, V> = seq<(K, V)>

  function IndexOf<K(==), V>(items: Items<K, V>, k: K): (i: nat)
    ensures i <= |items|
    ensures i < |items| ==> items[i].0 == k
    ensures forall j :: 0 <= j < i ==> items[j].0 != k
  {
    if items == [] || items[0].0 == k then 0 else 1 + IndexOf(items[1..], k)
  }

  function Find<K(==), V>(items: Items<K, V>, k: K): Option<V>
  {
    var i := IndexOf(items, k);
    if i < |items| then Some(items[i].1) else None
  }

  function Without<K(==), V>(items: Items<K, V>, k: K): Items<K, V>
  {
    var i := IndexOf(items, k);
    if i < |items| then items[..i] + items[i + 1..] else items
  }

  /** `get`. */
  function Touched<K(==), V>(items: Items<K, V>, k: K): Items<K, V>
  {
    match Find(items, k)
    case None => items
    case Some(v) => [(k, v)] + Without(items, k)
  }

  /** `put`. */
  function Stored<K(==), V>(items: Items<K, V>, cap: nat, k: K, v: V): Items<K, V>
  {
    if Find(items, k).None? && 0 < |items| && |items| >= cap then [(k, v)] + items[..|items| - 1]
    else [(k, v)] + Without(items, k)
  }

  /** `put` drops this key. */
  predicate Evicts<K(==), V>(items: Items<K, V>, cap: nat, k: K, gone: K)
  {
    Find(items, k).None? && 0 < |items| && |items| >= cap && items[|items| - 1].0 == gone
  }

  ghost predicate DistinctKeys<K, V>(items: Items<K, V>)
  {
    forall i, j :: 0 <= i < j < |items| ==> items[i].0 != items[j].0
  }

  ghost predicate LruOk<K, V>(items: Items<K, V>, cap: nat)
  {
    0 < cap && |items| <= cap && DistinctKeys(items)
  }

  ghost function Keys<K, V>(items: Items<K, V>): set<K> { set i | 0 <= i < |items| :: items[i].0 }

  // === What the operations mean for a reader ===

  lemma {:induction false} FindIs<K, V>(items: Items<K, V>, i: nat)
    requires DistinctKeys(items) && i < |items|
    ensures Find(items, items[i].0) == Some(items[i].1)
  {
  }

  lemma {:induction false} FindIff<K, V>(items: Items<K, V>, k: K)
    ensures Find(items, k).Some? <==> k in Keys(items)
  {
    if k in Keys(items) {
      var i :| 0 <= i < |items| && items[i].0 == k;
    }
  }

  lemma {:induction false} FindAppend<K, V>(a: Items<K, V>, b: Items<K, V>, k: K)
    ensures Find(a + b, k) == if Find(a, k).Some? then Find(a, k) else Find(b, k)
  {
    if a == [] {
      assert a + b == b;
    } else {
      assert (a + b)[1..] == a[1..] + b;
      FindAppend(a[1..], b, k);
    }
  }

  lemma {:induction false} FindOne<K, V>(k: K, v: V, k': K)
    ensures Find([(k, v)], k') == if k' == k then Some(v) else None
  {
  }

  lemma {:induction false} FindNone<K, V>(items: Items<K, V>, k: K)
    requires forall i :: 0 <= i < |items| ==> items[i].0 != k
    ensures Find(items, k) == None
  {
  }

  lemma {:induction false} RemoveOne<K, V>(a: Items<K, V>, x: (K, V), b: Items<K, V>, k: K)
    requires DistinctKeys(a + [x] + b)
    ensures Find(a + b, k) == if k == x.0 then None else Find(a + [x] + b, k)
    ensures DistinctKeys(a + b)
  {
    var all := a + [x] + b;
    assert all == a + ([x] + b);
    FindAppend(a, b, k);
    FindAppend(a, [x] + b, k);
    FindAppend([x], b, k);
    FindOne(x.0, x.1, k);
    forall i | 0 <= i < |a| ensures a[i].0 != x.0 {
      assert all[i] == a[i] && all[|a|] == x;
    }
    forall i | 0 <= i < |b| ensures b[i].0 != x.0 {
      assert all[|a| + 1 + i] == b[i] && all[|a|] == x;
    }
    FindNone(a, x.0);
    FindNone(b, x.0);
    var rest := a + b;
    forall i, j | 0 <= i < j < |rest| ensures rest[i].0 != rest[j].0 {
      assert rest[i] == all[if i < |a| then i else i + 1] && rest[j] == all[if j < |a| then j else j + 1];
    }
  }

  lemma {:induction false} WithoutFinds<K, V>(items: Items<K, V>, k: K, k': K)
    requires DistinctKeys(items)
    ensures Find(Without(items, k), k') == if k' == k then None else Find(items, k')
    ensures DistinctKeys(Without(items, k))
    ensures |Without(items, k)| == |items| - if Find(items, k).Some? then 1 else 0
  {
    var i := IndexOf(items, k);
    if i < |items| {
      assert items == items[..i] + [items[i]] + items[i + 1..];
      RemoveOne(items[..i], items[i], items[i + 1..], k');
    }
  }

  lemma {:induction false} FrontFinds<K, V>(k: K, v: V, rest: Items<K, V>, k': K)
    ensures Find([(k, v)] + rest, k') == if k' == k then Some(v) else Find(rest, k')
  {
    FindAppend([(k, v)], rest, k');
    FindOne(k, v, k');
  }

  lemma {:induction false} FrontDistinct<K, V>(k: K, v: V, rest: Items<K, V>)
    requires DistinctKeys(rest) && Find(rest, k).None?
    ensures DistinctKeys([(k, v)] + rest)
  {
    var all := [(k, v)] + rest;
    forall i, j | 0 <= i < j < |all| ensures all[i].0 != all[j].0 {
      assert all[j] == rest[j - 1];
      if i > 0 {
        assert all[i] == rest[i - 1];
      }
    }
  }

  /** Reading changes the order only. */
  lemma {:induction false} TouchedFinds<K, V>(items: Items<K, V>, cap: nat, k: K, k': K)
    requires LruOk(items, cap)
    ensures LruOk(Touched(items, k), cap) && Find(Touched(items, k), k') == Find(items, k')
    ensures |Touched(items, k)| == |items|
  {
    match Find(items, k) {
      case None =>
      case Some(v) =>
        WithoutFinds(items, k, k');
        WithoutFinds(items, k, k);
        FrontFinds(k, v, Without(items, k), k');
        FrontDistinct(k, v, Without(items, k));
    }
  }

  lemma {:induction false} ButLastFinds<K, V>(items: Items<K, V>, k: K)
    requires DistinctKeys(items) && items != []
    ensures Find(items[..|items| - 1], k) == if k == items[|items| - 1].0 then None else Find(items, k)
    ensures DistinctKeys(items[..|items| - 1])
  {
    var n := |items| - 1;
    assert items == items[..n] + [items[n]];
    FindAppend(items[..n], [items[n]], k);
    FindOne(items[n].0, items[n].1, k);
  }

  /** Writing sets one key and loses at most the one it evicts. */
  lemma {:induction false} StoredFinds<K, V>(items: Items<K, V>, cap: nat, k: K, v: V, k': K)
    requires LruOk(items, cap)
    ensures LruOk(Stored(items, cap, k, v), cap)
    ensures Find(Stored(items, cap, k, v), k') == if k' == k then Some(v) else if Evicts(items, cap, k, k') then None
        else Find(items, k')
  {
    if Find(items, k).None? && |items| >= cap {
      var n := |items| - 1;
      ButLastFinds(items, k');
      ButLastFinds(items, k);
      FrontFinds(k, v, items[..n], k');
      FrontDistinct(k, v, items[..n]);
    } else {
      WithoutFinds(items, k, k');
      WithoutFinds(items, k, k);
      FrontFinds(k, v, Without(items, k), k');
      FrontDistinct(k, v, Without(items, k));
    }
  }

  /** Read a key, then write it. */
  lemma {:induction false} TouchThenStore<K, V>(items: Items<K, V>, cap: nat, k: K, v: V, k': K)
    requires LruOk(items, cap)
    ensures LruOk(Stored(Touched(items, k), cap, k, v), cap)
    ensures Find(Stored(Touched(items, k), cap, k, v), k') == if k' == k then Some(v)
        else if Evicts(items, cap, k, k') then None else Find(items, k')
  {
    TouchedFinds(items, cap, k, k');
    TouchedFinds(items, cap, k, k);
    StoredFinds(Touched(items, k), cap, k, v, k');
  }

  class LruCache<K(==), V> {
    const cap: nat
    var items: Items<K, V>

    constructor (cap: nat)
      ensures this.cap == cap && items == []
    {
      this.cap := cap;
      items := [];
    }

    method Get(k: K) returns (r: Option<V>)
      modifies this
      ensures items == Touched(old(items), k) && r == Find(old(items), k)
    {
      r := Find(items, k);
      items := Touched(items, k);
    }

    /** Returns the value the key had. */
    method Put(k: K, v: V) returns (previous: Option<V>)
      modifies this
      ensures items == Stored(old(items), cap, k, v) && previous == Find(old(items), k)
    {
      previous := Find(items, k);
      items := Stored(items, cap, k, v);
    }

    method PopLru() returns (r: Option<(K, V)>)
      modifies this
      ensures if old(items) == [] then r.None? && items == []
              else r == Some(old(items)[|old(items)| - 1]) && items == old(items)[..|old(items)| - 1]
    {
      if items == [] {
        return None;
      }
      r := Some(items[|items| - 1]);
      items := items[..|items| - 1];
    }
  }
}
