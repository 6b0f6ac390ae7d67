/** Several positions at once on top of a key/value cache (rust/src/laurelia/attention.rs, `forward_with_cache`):
    which rows are those of the plain causal forward. */
module ChunkLimits {
  import opened Bytes
  import opened Attentions

  /** Row i of a chunk on top of the cache of x. */
  function ChunkRow(a: Attention, x: seq<Vec>, chunk: seq<Vec>, i: nat): Vec
    requires a.Valid() && i < |chunk|
  {
    a.ForwardWithCache(chunk, |x|, a.CacheOf(x)).0[i]
  }

  /** Row j of the plain forward. */
  function PlainRow(a: Attention, x: seq<Vec>, j: nat): Vec
    requires a.Valid() && j < |x|
  {
    a.Forward(x, 0)[j]
  }

  /** Row i of a chunk on the cache of x is the row of the plain forward on both. */
  ghost predicate RowAgrees(a: Attention, x: seq<Vec>, chunk: seq<Vec>, i: nat)
    requires a.Valid() && i < |chunk|
  {
    ChunkRow(a, x, chunk, i) == PlainRow(a, x + chunk, |x| + i)
  }

  lemma PlainLast(a: Attention, x: seq<Vec>)
    requires a.Valid() && a.causal && x != []
    ensures PlainRow(a, x, |x| - 1) == a.LastOutput(x)
  {
    a.ForwardRow(x, |x| - 1);
    assert x[..|x|] == x;
  }

  lemma ChunkRowIs(a: Attention, x: seq<Vec>, chunk: seq<Vec>, i: nat, y: Vec, p: nat, all: seq<Vec>)
    requires a.Valid() && x != [] && i < |chunk| && y == chunk[i] && p == |x| + i && all == x + chunk
    ensures ChunkRow(a, x, chunk, i) == a.RowFor(y, p, all)
  {
    a.ChunkSeesEverything(x, chunk, i);
  }

  lemma PlainLastIs(a: Attention, x: seq<Vec>, y: Vec, p: nat)
    requires a.Valid() && x != [] && p == |x| - 1 && y == x[p]
    ensures a.LastOutput(x) == a.RowFor(y, p, x)
  {
  }

  lemma ChunkLast(a: Attention, x: seq<Vec>, chunk: seq<Vec>, all: seq<Vec>)
    requires a.Valid() && x != [] && chunk != [] && all == x + chunk
    ensures ChunkRow(a, x, chunk, |chunk| - 1) == a.LastOutput(all)
  {
    var y, p := chunk[|chunk| - 1], |all| - 1;
    assert all[p] == y;
    ChunkRowIs(a, x, chunk, |chunk| - 1, y, p, all);
    PlainLastIs(a, all, y, p);
  }

  /** The last row always agrees: nothing comes after it. */
  lemma LastRowAgrees(a: Attention, x: seq<Vec>, chunk: seq<Vec>)
    requires a.Valid() && a.causal && x != [] && chunk != []
    ensures RowAgrees(a, x, chunk, |chunk| - 1)
  {
    ChunkLast(a, x, chunk, x + chunk);
    PlainLast(a, x + chunk);
  }

  // === A head that copies its input ===

  /** One head of width one, without rotation, all projections the identity. */
  function CopyHead(exp: Exponential): (a: Attention)
    ensures a.Valid() && a.causal && a.numHeads == a.numKvGroups == a.headDim == 1
  {
    Attention(v => v, v => v, v => v, v => v, RoPE(0, 0, r => 1.0, r => 0.0, k => 0.0), 1, 1, 1, 1.0, exp, true)
  }

  function Constant(v: real, n: nat): (r: seq<Vec>)
    ensures |r| == n && forall i :: 0 <= i < n ==> r[i] == [v]
  {
    seq(n, _ => [v])
  }

  /** Zeros, and a one at the end. */
  function ZerosThenOne(n: nat): (r: seq<Vec>)
    requires 0 < n
    ensures |r| == n
  {
    Constant(0.0, n - 1) + [[1.0]]
  }

  lemma ZeroValues(w: seq<real>, vs: seq<Vec>)
    requires |w| == |vs| && forall j :: 0 <= j < |vs| ==> vs[j] == [0.0]
    ensures WeightedSum(w, vs, 1) == [0.0]
  {
    SumZeros(Products(w, vs, 0));
  }

  lemma OneAtTheEnd(w: seq<real>, vs: seq<Vec>)
    requires |w| == |vs| > 0 && vs[|vs| - 1] == [1.0] && forall j :: 0 <= j < |vs| - 1 ==> vs[j] == [0.0]
    ensures WeightedSum(w, vs, 1) == [w[|w| - 1]]
  {
    var n, p := |w| - 1, Products(w, vs, 0);
    assert p == p[..n] + [p[n]];
    SumAppend(p[..n], [p[n]]);
    SumZeros(p[..n]);
    assert Sum([p[n]]) == p[n];
  }

  lemma {:induction false} ExponentialAt(exp: Exponential, s: seq<Score>, max: real, i: nat)
    requires i < |s|
    ensures Exponentials(exp, s, max)[i] == Weigh(exp, s[i], max)
  {
    if i > 0 {
      ExponentialAt(exp, s[1..], max, i - 1);
    }
  }

  lemma QuotientPositive(x: real, t: real)
    requires x > 0.0 && t > 0.0
    ensures x / t > 0.0
  {
  }

  /** Every visible position takes some weight. */
  lemma WeightPositive(exp: Exponential, s: seq<Score>, i: nat)
    requires MaxScore(s) != NegInf && i < |s| && s[i] != NegInf
    ensures Softmax(exp, s)[i] > 0.0
  {
    var max := MaxScore(s).value;
    var e := Exponentials(exp, s, max);
    ExponentialAt(exp, s, max, i);
    ExponentialsPositive(exp, s, max);
    QuotientPositive(e[i], Sum(e));
    NormalisedAt(e, Sum(e), i);
  }

  lemma NormalisedAt(e: seq<real>, total: real, i: nat)
    requires total > 0.0 && i < |e|
    ensures Normalise(e, total)[i] == e[i] / total
  {
  }

  lemma SplitOne(v: Vec)
    requires |v| == 1
    ensures Split(v, 1, 1) == [v]
  {
    assert Split(v, 1, 1)[0][0] == At(v, 0 * 1 + 0) == v[0];
    assert Split(v, 1, 1)[0] == v;
  }

  /** What the head sees of its input. */
  lemma ValuesOfCopy(exp: Exponential, p: seq<Vec>)
    requires forall j :: 0 <= j < |p| ==> |p[j]| == 1
    ensures CopyHead(exp).HeadKv(CopyHead(exp).Values(p), 0) == p
  {
    var a := CopyHead(exp);
    forall j | 0 <= j < |p| ensures a.HeadKv(a.Values(p), 0)[j] == p[j] {
      SplitOne(p[j]);
      assert a.Values(p)[j] == [p[j]];
      assert RepeatKv([p[j]], 1, 1) == [p[j]];
    }
  }

  /** The only head is the whole output. */
  lemma CopyRow(exp: Exponential, y: Vec, p: nat, all: seq<Vec>)
    requires all != [] && forall j :: 0 <= j < |all| ==> |all[j]| == 1
    ensures var a := CopyHead(exp);
      a.RowFor(y, p, all) == AttendRow(exp, 1.0, 1, a.QueryAt(y, p)[0], a.HeadKv(a.Keys(all), 0), all)
  {
    var a := CopyHead(exp);
    var out := a.HeadsAt(a.QueryAt(y, p), a.Keys(all), a.Values(all));
    assert out == [out[0]];
    assert Concat(out) == out[0] + Concat(out[1..]);
    ValuesOfCopy(exp, all);
  }

  /** After zeros the plain forward gives zero. */
  lemma PlainIsZero(exp: Exponential, x: seq<Vec>, i: nat)
    requires i < |x| && forall j :: 0 <= j <= i ==> x[j] == [0.0]
    ensures PlainRow(CopyHead(exp), x, i) == [0.0]
  {
    var a, p := CopyHead(exp), x[..i + 1];
    a.ForwardRow(x, i);
    PlainLastIs(a, p, p[i], i);
    CopyRow(exp, p[i], i, p);
    ZeroValues(Softmax(exp, Scores(a.QueryAt(p[i], i)[0], a.HeadKv(a.Keys(p), 0), 1.0)), p);
  }

  /** On top of the cache every row of the chunk gets some of the one at its end. */
  lemma ChunkIsPositive(exp: Exponential, n: nat, i: nat)
    requires i < n
    ensures var r := ChunkRow(CopyHead(exp), Constant(0.0, 1), ZerosThenOne(n), i); |r| == 1 && r[0] > 0.0
  {
    var a, all := CopyHead(exp), Constant(0.0, 1) + ZerosThenOne(n);
    ChunkRowIs(a, Constant(0.0, 1), ZerosThenOne(n), i, ZerosThenOne(n)[i], 1 + i, all);
    CopyRow(exp, ZerosThenOne(n)[i], 1 + i, all);
    var s := Scores(a.QueryAt(ZerosThenOne(n)[i], 1 + i)[0], a.HeadKv(a.Keys(all), 0), 1.0);
    OneAtTheEnd(Softmax(exp, s), all);
    WeightPositive(exp, s, n);
  }

  /** Any row but the last differs. */
  lemma EarlierRowDiffers(exp: Exponential, n: nat, i: nat)
    requires i + 1 < n
    ensures !RowAgrees(CopyHead(exp), Constant(0.0, 1), ZerosThenOne(n), i)
  {
    ChunkIsPositive(exp, n, i);
    PlainIsZero(exp, Constant(0.0, 1) + ZerosThenOne(n), 1 + i);
  }

  // === Exactly when rows agree ===

  ghost predicate Allowed(a: Attention, x: seq<Vec>, chunk: seq<Vec>, n: nat)
  {
    a.Valid() && a.causal && x != [] && |chunk| == n
  }

  /** Row i of n agrees for all weights, prefixes and chunks. */
  ghost predicate AlwaysAgrees(n: nat, i: nat)
    requires i < n
  {
    forall a: Attention, x: seq<Vec>, chunk: seq<Vec> :: Allowed(a, x, chunk, n) ==> RowAgrees(a, x, chunk, i)
  }

  lemma LastAlwaysAgrees(n: nat)
    requires 0 < n
    ensures AlwaysAgrees(n, n - 1)
  {
    forall a: Attention, x: seq<Vec>, chunk: seq<Vec> | Allowed(a, x, chunk, n) ensures RowAgrees(a, x, chunk, n - 1) {
      LastRowAgrees(a, x, chunk);
    }
  }

  lemma NotAlways(a: Attention, x: seq<Vec>, chunk: seq<Vec>, n: nat, i: nat)
    requires i < n && Allowed(a, x, chunk, n) && !RowAgrees(a, x, chunk, i)
    ensures !AlwaysAgrees(n, i)
  {
  }

  lemma EarlierNotAlways(exp: Exponential, n: nat, i: nat)
    requires i + 1 < n
    ensures !AlwaysAgrees(n, i)
  {
    EarlierRowDiffers(exp, n, i);
    NotAlways(CopyHead(exp), Constant(0.0, 1), ZerosThenOne(n), n, i);
  }

  /** An exponential that weighs everything alike. */
  function Ones(): Exponential { (x: real) => 1.0 }

  /** A row agrees for all weights, prefixes and chunks exactly when it is the last. */
  lemma RowAgreesIff(n: nat, i: nat)
    requires i < n
    ensures AlwaysAgrees(n, i) <==> i == n - 1
  {
    if i == n - 1 {
      LastAlwaysAgrees(n);
    } else {
      EarlierNotAlways(Ones(), n, i);
    }
  }

  ghost predicate AllRowsAgree(n: nat) { forall i :: 0 <= i < n ==> AlwaysAgrees(n, i) }

  /** Chunks on top of a cache are causal exactly when they hold one position. */
  lemma ChunksAgreeIff(n: nat)
    ensures AllRowsAgree(n) <==> n <= 1
  {
    if n == 1 {
      RowAgreesIff(1, 0);
    } else if n > 1 {
      RowAgreesIff(n, 0);
    }
  }
}
