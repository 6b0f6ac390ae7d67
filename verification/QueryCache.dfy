/** The cache of finished lookups with its running sums (rust/mainline/src/rpc.rs, `cache_iterative_query` and
    `decrement_cached_iterative_query_stats`). Estimates are reals. */
module QueryCaches {
  import opened Bytes
  import opened Ids
  import opened Nodes
  import opened Lrus

  const MAX_CACHED_ITERATIVE_QUERIES := 1000

  datatype Cached = Cached(closestResponding: seq<Node>, sizeEstimate: real, respondersEstimate: real, subnets: byte,
      isFindNode: bool)

  datatype Stats = Stats(items: Items<Id, Cached>, sizeSum: real, respondersSum: real, respondersCount: int,
      subnetsSum: int)

  /** The sums do not start at zero: a cold start must not look like a small network. */
  function NewStats(): Stats { Stats([], 0.0, 1000000.0, 0, 20) }

  function Decremented(st: Stats, gone: Option<Cached>): Stats
  {
    match gone
    case None => st
    case Some(c) =>
      st.(sizeSum := st.sizeSum - c.sizeEstimate, respondersSum := st.respondersSum - c.respondersEstimate,
          subnetsSum := st.subnetsSum - c.subnets as int, respondersCount := st.respondersCount - if c.isFindNode
              then 0 else 1)
  }

  function Incremented(st: Stats, c: Cached): Stats
  {
    st.(sizeSum := st.sizeSum + c.sizeEstimate, respondersSum := st.respondersSum + c.respondersEstimate,
        subnetsSum := st.subnetsSum + c.subnets as int, respondersCount := st.respondersCount + 1)
  }

  /** A full cache gives up its last entry. */
  function MadeRoom(st: Stats): Stats
  {
    var n := |st.items|;
    if n >= MAX_CACHED_ITERATIVE_QUERIES then Decremented(st, Some(st.items[n - 1].1)).(items := st.items[..n - 1])
        else st
  }

  /** `cache_iterative_query`: nothing is cached for a lookup that found no nodes, but room has been made. */
  function CacheQuery(st: Stats, target: Id, c: Option<Cached>): Stats
  {
    var r := MadeRoom(st);
    if c.None? then r
    else
      Incremented(Decremented(r.(items := Stored(r.items, MAX_CACHED_ITERATIVE_QUERIES, target, c.value)),
          Find(r.items, target)), c.value)
  }

  // === What the sums are ===

  function Sum<V>(f: V -> real, items: Items<Id, V>): real
  {
    if items == [] then 0.0 else f(items[0].1) + Sum(f, items[1..])
  }

  lemma {:induction false} SumAppend<V>(f: V -> real, a: Items<Id, V>, b: Items<Id, V>)
    ensures Sum(f, a + b) == Sum(f, a) + Sum(f, b)
  {
    if a == [] {
      assert a + b == b;
    } else {
      SumAppend(f, a[1..], b);
      assert (a + b)[1..] == a[1..] + b;
    }
  }

  function Part<V>(f: V -> real, v: Option<V>): real { if v.None? then 0.0 else f(v.value) }

  lemma {:induction false} SumOne<V>(f: V -> real, x: (Id, V))
    ensures Sum(f, [x]) == f(x.1)
  {
    assert [x][1..] == [];
  }

  lemma {:induction false} SumWithout<V>(f: V -> real, items: Items<Id, V>, k: Id)
    ensures Sum(f, Without(items, k)) == Sum(f, items) - Part(f, Find(items, k))
  {
    var i := IndexOf(items, k);
    if i < |items| {
      assert items == items[..i] + ([items[i]] + items[i + 1..]);
      SumAppend(f, items[..i], items[i + 1..]);
      SumAppend(f, items[..i], [items[i]] + items[i + 1..]);
      SumAppend(f, [items[i]], items[i + 1..]);
      SumOne(f, items[i]);
    }
  }

  lemma {:induction false} SumTouched<V>(f: V -> real, items: Items<Id, V>, k: Id)
    ensures Sum(f, Touched(items, k)) == Sum(f, items)
  {
    match Find(items, k) {
      case None =>
      case Some(v) =>
        SumWithout(f, items, k);
        SumAppend(f, [(k, v)], Without(items, k));
        SumOne(f, (k, v));
    }
  }

  lemma {:induction false} SumStored<V>(f: V -> real, items: Items<Id, V>, cap: nat, k: Id, v: V)
    requires |items| < cap
    ensures Sum(f, Stored(items, cap, k, v)) == Sum(f, items) - Part(f, Find(items, k)) + f(v)
  {
    SumWithout(f, items, k);
    SumAppend(f, [(k, v)], Without(items, k));
    SumOne(f, (k, v));
  }

  lemma {:induction false} SumButLast<V>(f: V -> real, items: Items<Id, V>)
    requires items != []
    ensures Sum(f, items[..|items| - 1]) == Sum(f, items) - f(items[|items| - 1].1)
  {
    var n := |items| - 1;
    assert items == items[..n] + [items[n]];
    SumAppend(f, items[..n], [items[n]]);
    SumOne(f, items[n]);
  }

  function SizeOf(): Cached -> real { (c: Cached) => c.sizeEstimate }

  function RespondersOf(): Cached -> real { (c: Cached) => c.respondersEstimate }

  function SubnetsOf(): Cached -> real { (c: Cached) => c.subnets as int as real }

  /** One for each entry that is not a find_node. */
  function ValueQueries(): Cached -> real { (c: Cached) => if c.isFindNode then 0.0 else 1.0 }

  /** The running sums are the sums over the entries, past the start values. The responders count is not the
      number of entries that are no find_node: it exceeds it by every find_node ever cached. */
  ghost predicate StatsOk(st: Stats, findNodes: nat)
  {
    && LruOk(st.items, MAX_CACHED_ITERATIVE_QUERIES)
    && st.sizeSum == Sum(SizeOf(), st.items)
    && st.respondersSum - 1000000.0 == Sum(RespondersOf(), st.items)
    && st.subnetsSum as real - 20.0 == Sum(SubnetsOf(), st.items)
    && st.respondersCount as real == Sum(ValueQueries(), st.items) + findNodes as real
  }

  lemma {:induction false} NonNegativeSum<V>(f: V -> real, items: Items<Id, V>)
    requires forall i :: 0 <= i < |items| ==> f(items[i].1) >= 0.0
    ensures Sum(f, items) >= 0.0
    ensures forall i :: 0 <= i < |items| ==> Sum(f, items) >= f(items[i].1)
  {
    if items != [] {
      NonNegativeSum(f, items[1..]);
      forall i | 0 <= i < |items| ensures Sum(f, items) >= f(items[i].1) {
        if i > 0 {
          assert items[1..][i - 1] == items[i];
        }
      }
    }
  }

  /** No unsigned counter can go below zero when an entry is taken away. */
  lemma {:induction false} NoUnderflow(st: Stats, findNodes: nat, i: nat)
    requires StatsOk(st, findNodes) && i < |st.items|
    ensures st.subnetsSum >= 20 + st.items[i].1.subnets as int
    ensures st.respondersCount >= if st.items[i].1.isFindNode then 0 else 1
  {
    NonNegativeSum(SubnetsOf(), st.items);
    NonNegativeSum(ValueQueries(), st.items);
    assert SubnetsOf()(st.items[i].1) == st.items[i].1.subnets as int as real;
    assert ValueQueries()(st.items[i].1) == if st.items[i].1.isFindNode then 0.0 else 1.0;
  }

  lemma {:induction false} MadeRoomOk(st: Stats, findNodes: nat)
    requires StatsOk(st, findNodes)
    ensures StatsOk(MadeRoom(st), findNodes) && |MadeRoom(st).items| < MAX_CACHED_ITERATIVE_QUERIES
  {
    var n := |st.items|;
    if n >= MAX_CACHED_ITERATIVE_QUERIES {
      SumButLast(SizeOf(), st.items);
      SumButLast(RespondersOf(), st.items);
      SumButLast(SubnetsOf(), st.items);
      SumButLast(ValueQueries(), st.items);
    }
  }

  /** Room has been made, so the put itself drops nothing. */
  lemma {:induction false} PutNeverEvicts(st: Stats, findNodes: nat, target: Id, k: Id)
    requires StatsOk(st, findNodes)
    ensures !Evicts(MadeRoom(st).items, MAX_CACHED_ITERATIVE_QUERIES, target, k)
  {
    MadeRoomOk(st, findNodes);
  }

  lemma {:induction false} CacheQueryOk(st: Stats, findNodes: nat, target: Id, c: Option<Cached>)
    requires StatsOk(st, findNodes)
    ensures StatsOk(CacheQuery(st, target, c), findNodes + if c.Some? && c.value.isFindNode then 1 else 0)
  {
    MadeRoomOk(st, findNodes);
    if c.Some? {
      var r, cap := MadeRoom(st), MAX_CACHED_ITERATIVE_QUERIES;
      StoredFinds(r.items, cap, target, c.value, target);
      SumStored(SizeOf(), r.items, cap, target, c.value);
      SumStored(RespondersOf(), r.items, cap, target, c.value);
      SumStored(SubnetsOf(), r.items, cap, target, c.value);
      SumStored(ValueQueries(), r.items, cap, target, c.value);
      if Find(r.items, target).Some? && Find(r.items, target).value.isFindNode {
        assert Part(ValueQueries(), Find(r.items, target)) == 0.0;
      }
    }
  }

  // === Runs ===

  datatype CacheOp = Cache(target: Id, entry: Option<Cached>) | Read(target: Id)

  function StepCache(st: Stats, op: CacheOp): Stats
  {
    match op
    case Cache(target, entry) => CacheQuery(st, target, entry)
    case Read(target) => st.(items := Touched(st.items, target))
  }

  function RunCache(ops: seq<CacheOp>): Stats
  {
    if ops == [] then NewStats() else StepCache(RunCache(ops[..|ops| - 1]), ops[|ops| - 1])
  }

  /** How many find_node lookups were ever cached. */
  function FindNodesCached(ops: seq<CacheOp>): nat
  {
    if ops == [] then 0
    else
      var op := ops[|ops| - 1];
      FindNodesCached(ops[..|ops| - 1]) + if op.Cache? && op.entry.Some? && op.entry.value.isFindNode then 1 else 0
  }

  lemma {:induction false} ReadOk(st: Stats, findNodes: nat, target: Id)
    requires StatsOk(st, findNodes)
    ensures StatsOk(st.(items := Touched(st.items, target)), findNodes)
  {
    TouchedFinds(st.items, MAX_CACHED_ITERATIVE_QUERIES, target, target);
    SumTouched(SizeOf(), st.items, target);
    SumTouched(RespondersOf(), st.items, target);
    SumTouched(SubnetsOf(), st.items, target);
    SumTouched(ValueQueries(), st.items, target);
  }

  /** Over every run of caching, replacing, evicting and reading. */
  lemma {:induction false} SumsAreSums(ops: seq<CacheOp>)
    ensures StatsOk(RunCache(ops), FindNodesCached(ops))
  {
    if ops != [] {
      var st, op := RunCache(ops[..|ops| - 1]), ops[|ops| - 1];
      SumsAreSums(ops[..|ops| - 1]);
      match op {
        case Cache(target, entry) => CacheQueryOk(st, FindNodesCached(ops[..|ops| - 1]), target, entry);
        case Read(target) => ReadOk(st, FindNodesCached(ops[..|ops| - 1]), target);
      }
    }
  }

  /** The responders count is the number of entries that are no find_node exactly as long as no find_node lookup
      was ever cached: entering adds one for every lookup, leaving takes one away only for the others. */
  lemma {:induction false} RespondersCountIff(ops: seq<CacheOp>)
    ensures RunCache(ops).respondersCount as real == Sum(ValueQueries(), RunCache(ops).items)
        <==> FindNodesCached(ops) == 0
  {
    SumsAreSums(ops);
  }

  // === The cache as a mutable object ===

  class QueryCache {
    const entries: LruCache<Id, Cached>
    var sizeSum: real
    var respondersSum: real
    var respondersCount: nat
    var subnetsSum: nat
    ghost var findNodes: nat

    ghost predicate Valid()
      reads this, entries
    {
      entries.cap == MAX_CACHED_ITERATIVE_QUERIES && StatsOk(Value(), findNodes)
    }

    ghost function Value(): Stats
      reads this, entries
    {
      Stats(entries.items, sizeSum, respondersSum, respondersCount, subnetsSum)
    }

    constructor ()
      ensures Valid() && Value() == NewStats() && findNodes == 0 && fresh(entries)
    {
      entries := new LruCache(MAX_CACHED_ITERATIVE_QUERIES);
      sizeSum, respondersSum, respondersCount, subnetsSum, findNodes := 0.0, 1000000.0, 0, 20, 0;
    }

    method Get(target: Id) returns (r: Option<Cached>)
      requires Valid()
      modifies entries
      ensures Valid() && Value() == old(Value()).(items := Touched(old(entries.items), target))
      ensures r == Find(old(entries.items), target)
    {
      TouchedFinds(entries.items, MAX_CACHED_ITERATIVE_QUERIES, target, target);
      SumTouched(SizeOf(), entries.items, target);
      SumTouched(RespondersOf(), entries.items, target);
      SumTouched(SubnetsOf(), entries.items, target);
      SumTouched(ValueQueries(), entries.items, target);
      r := entries.Get(target);
    }

    /** Takes an entry that was cached out of the sums; the counters are unsigned. */
    method Decrement(gone: Cached)
      requires subnetsSum >= gone.subnets as int && respondersCount >= if gone.isFindNode then 0 else 1
      modifies this
      ensures Value() == Decremented(old(Value()), Some(gone)) && findNodes == old(findNodes)
    {
      sizeSum := sizeSum - gone.sizeEstimate;
      respondersSum := respondersSum - gone.respondersEstimate;
      subnetsSum := subnetsSum - gone.subnets as int;
      if !gone.isFindNode {
        respondersCount := respondersCount - 1;
      }
    }

    method MakeRoom()
      requires Valid()
      modifies this, entries
      ensures Valid() && Value() == MadeRoom(old(Value())) && findNodes == old(findNodes)
    {
      MadeRoomOk(Value(), findNodes);
      if |entries.items| >= MAX_CACHED_ITERATIVE_QUERIES {
        NoUnderflow(Value(), findNodes, |entries.items| - 1);
        var last := entries.PopLru();
        Decrement(last.value.1);
      }
    }

    method Increment(entry: Cached)
      modifies this
      ensures Value() == Incremented(old(Value()), entry)
      ensures findNodes == old(findNodes) + if entry.isFindNode then 1 else 0
    {
      sizeSum := sizeSum + entry.sizeEstimate;
      respondersSum := respondersSum + entry.respondersEstimate;
      subnetsSum := subnetsSum + entry.subnets as int;
      respondersCount := respondersCount + 1;
      findNodes := findNodes + if entry.isFindNode then 1 else 0;
    }

    method CacheIterativeQuery(target: Id, entry: Option<Cached>)
      requires Valid()
      modifies this, entries
      ensures Valid() && Value() == CacheQuery(old(Value()), target, entry)
    {
      CacheQueryOk(Value(), findNodes, target, entry);
      MakeRoom();
      if entry.Some? {
        FoundFits(Value(), findNodes, target);
        var previous := entries.Put(target, entry.value);
        if previous.Some? {
          Decrement(previous.value);
        }
        Increment(entry.value);
      }
    }
  }

  /** An entry that is found was counted. */
  lemma {:induction false} FoundFits(st: Stats, findNodes: nat, target: Id)
    requires StatsOk(st, findNodes)
    ensures Find(st.items, target).Some? ==> st.subnetsSum >= Find(st.items, target).value.subnets as int
    ensures Find(st.items, target).Some? ==> st.respondersCount >= if Find(st.items, target).value.isFindNode then 0
        else 1
  {
    var i := IndexOf(st.items, target);
    if i < |st.items| {
      NoUnderflow(st, findNodes, i);
    }
  }
}
