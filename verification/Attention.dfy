/** Grouped-query attention with rotary positions and a key/value cache
    (rust/src/laurelia/attention.rs, rope.rs, cache.rs), over the reals and one batch row. */
module Attentions {
  import opened Bytes

  type Vec = seq<real>

  /** A softmax exponential: any function with positive values. */
  type Exponential = f: real -> real | forall x :: f(x) > 0.0 ghost witness (x: real) => 1.0

  type Positive = r: real | r > 0.0 witness 1.0

  /** A score that the mask may have sent to minus infinity. */
  datatype Score = NegInf | Fin(value: real)

  // === Vectors ===

  /** Component d, zero outside the vector. */
  function At(v: Vec, d: int): real { if 0 <= d < |v| then v[d] else 0.0 }

  function Sum(s: seq<real>): real { if s == [] then 0.0 else s[0] + Sum(s[1..]) }

  function Dot(a: Vec, b: Vec): real { Sum(seq(|a|, i requires 0 <= i < |a| => a[i] * At(b, i))) }

  function AddVec(a: Vec, b: Vec): (r: Vec)
    ensures |r| == |a|
  {
    seq(|a|, i requires 0 <= i < |a| => a[i] + At(b, i))
  }

  function Concat(vs: seq<Vec>): Vec { if vs == [] then [] else vs[0] + Concat(vs[1..]) }

  lemma {:induction false} SumAppend(a: seq<real>, b: seq<real>)
    ensures Sum(a + b) == Sum(a) + Sum(b)
  {
    if a == [] {
      assert a + b == b;
    } else {
      assert (a + b)[1..] == a[1..] + b;
      SumAppend(a[1..], b);
    }
  }

  lemma {:induction false} SumZeros(s: seq<real>)
    requires forall i :: 0 <= i < |s| ==> s[i] == 0.0
    ensures Sum(s) == 0.0
  {
    if s != [] {
      SumZeros(s[1..]);
    }
  }

  // === Softmax ===

  function Larger(a: Score, b: Score): Score
  {
    if a.NegInf? then b else if b.NegInf? then a else if a.value >= b.value then a else b
  }

  function MaxScore(s: seq<Score>): (m: Score)
    ensures m == NegInf <==> forall i :: 0 <= i < |s| ==> s[i] == NegInf
  {
    if s == [] then NegInf else Larger(s[0], MaxScore(s[1..]))
  }

  /** The unnormalised weight of a score; minus infinity weighs nothing. */
  function Weigh(exp: Exponential, s: Score, max: real): (w: real)
    ensures w >= 0.0 && (s != NegInf ==> w > 0.0)
  {
    match s
    case NegInf => 0.0
    case Fin(x) => exp(x - max)
  }

  function Exponentials(exp: Exponential, s: seq<Score>, max: real): (r: seq<real>)
    ensures |r| == |s|
  {
    if s == [] then [] else [Weigh(exp, s[0], max)] + Exponentials(exp, s[1..], max)
  }

  lemma {:induction false} ExponentialsPositive(exp: Exponential, s: seq<Score>, max: real)
    ensures Sum(Exponentials(exp, s, max)) >= 0.0
    ensures MaxScore(s) != NegInf ==> Sum(Exponentials(exp, s, max)) > 0.0
  {
    if s != [] {
      assert Exponentials(exp, s, max)[1..] == Exponentials(exp, s[1..], max);
      ExponentialsPositive(exp, s[1..], max);
    }
  }

  function Normalise(e: seq<real>, total: real): (w: seq<real>)
    requires total > 0.0
    ensures |w| == |e|
  {
    seq(|e|, i requires 0 <= i < |e| => e[i] / total)
  }

  /** Softmax of a row with at least one finite score. */
  function Softmax(exp: Exponential, s: seq<Score>): (w: seq<real>)
    requires MaxScore(s) != NegInf
    ensures |w| == |s|
  {
    var e := Exponentials(exp, s, MaxScore(s).value);
    ExponentialsPositive(exp, s, MaxScore(s).value);
    Normalise(e, Sum(e))
  }

  lemma {:induction false} MaxScoreIgnoresNegInf(s: seq<Score>, n: seq<Score>)
    requires forall i :: 0 <= i < |n| ==> n[i] == NegInf
    ensures MaxScore(s + n) == MaxScore(s)
  {
    if s == [] {
      assert s + n == n;
    } else {
      assert (s + n)[1..] == s[1..] + n;
      MaxScoreIgnoresNegInf(s[1..], n);
    }
  }

  lemma {:induction false} ExponentialsAppend(exp: Exponential, s: seq<Score>, n: seq<Score>, max: real)
    ensures Exponentials(exp, s + n, max) == Exponentials(exp, s, max) + Exponentials(exp, n, max)
  {
    if s == [] {
      assert s + n == n;
    } else {
      assert (s + n)[1..] == s[1..] + n;
      ExponentialsAppend(exp, s[1..], n, max);
    }
  }

  lemma ExponentialsOfNegInf(exp: Exponential, n: seq<Score>, max: real)
    requires forall i :: 0 <= i < |n| ==> n[i] == NegInf
    ensures Exponentials(exp, n, max) == Zeros(|n|)
  {
    if n != [] {
      ExponentialsOfNegInf(exp, n[1..], max);
      assert Zeros(|n|) == [0.0] + Zeros(|n| - 1);
    }
  }

  function Zeros(n: nat): seq<real> { seq(n, _ => 0.0) }

  lemma NormaliseAppendsZeros(e: seq<real>, n: nat, total: real)
    requires total > 0.0
    ensures Normalise(e + Zeros(n), total) == Normalise(e, total) + Zeros(n)
  {
    assert 0.0 / total == 0.0;
  }

  /** Minus infinities at the end of a row take no weight and change no other weight. */
  lemma SoftmaxIgnoresNegInf(exp: Exponential, s: seq<Score>, n: seq<Score>)
    requires MaxScore(s) != NegInf
    requires forall i :: 0 <= i < |n| ==> n[i] == NegInf
    ensures MaxScore(s + n) == MaxScore(s)
    ensures Softmax(exp, s + n) == Softmax(exp, s) + Zeros(|n|)
  {
    MaxScoreIgnoresNegInf(s, n);
    var max := MaxScore(s).value;
    var e := Exponentials(exp, s, max);
    ExponentialsAppend(exp, s, n, max);
    ExponentialsOfNegInf(exp, n, max);
    SumAppend(e, Zeros(|n|));
    SumZeros(Zeros(|n|));
    ExponentialsPositive(exp, s, max);
    NormaliseAppendsZeros(e, |n|, Sum(e));
  }

  // === Scaled dot-product attention ===

  function Products(w: seq<real>, vs: seq<Vec>, d: nat): (p: seq<real>)
    requires |w| == |vs|
    ensures |p| == |w|
  {
    seq(|w|, j requires 0 <= j < |w| => w[j] * At(vs[j], d))
  }

  function Component(w: seq<real>, vs: seq<Vec>, d: nat): real
    requires |w| == |vs|
  {
    Sum(Products(w, vs, d))
  }

  function WeightedSum(w: seq<real>, vs: seq<Vec>, dim: nat): (r: Vec)
    requires |w| == |vs|
    ensures |r| == dim
  {
    seq(dim, d requires 0 <= d < dim => Component(w, vs, d))
  }

  function Scores(q: Vec, ks: seq<Vec>, scale: Positive): (s: seq<Score>)
    ensures |s| == |ks|
    ensures ks != [] ==> MaxScore(s) != NegInf
  {
    var s := seq(|ks|, j requires 0 <= j < |ks| => Fin(Dot(q, ks[j]) / scale));
    assert ks != [] ==> s[0] != NegInf;
    s
  }

  /** The additive mask: row i of qLen rows sees the columns up to i + kvLen - qLen. */
  function MaskAt(qLen: nat, kvLen: nat, i: nat, j: nat): Score
  {
    if j > i + (kvLen as int - qLen) then NegInf else Fin(0.0)
  }

  function AddScore(a: Score, b: Score): Score
  {
    if a.NegInf? || b.NegInf? then NegInf else Fin(a.value + b.value)
  }

  function MaskRow(qLen: nat, kvLen: nat, i: nat): (r: seq<Score>)
    ensures |r| == kvLen
  {
    seq(kvLen, j requires 0 <= j < kvLen => MaskAt(qLen, kvLen, i, j))
  }

  /** rows * width by addition. */
  function Cells(rows: nat, width: nat): (n: nat)
  {
    if rows == 0 then 0 else Cells(rows - 1, width) + width
  }

  lemma CellsIsProduct(rows: nat, width: nat)
    ensures Cells(rows, width) == rows * width
  {
    if rows > 0 {
      CellsIsProduct(rows - 1, width);
      assert (rows - 1) * width + width == rows * width;
    }
  }

  lemma {:induction false} CellsMonotone(i: nat, rows: nat, width: nat)
    requires i <= rows
    ensures Cells(i, width) <= Cells(rows, width)
  {
    if i < rows {
      CellsMonotone(i, rows - 1, width);
    }
  }

  /** The first rows of the mask, one after the other. */
  function MaskRows(qLen: nat, kvLen: nat, rows: nat): (r: seq<Score>)
    ensures |r| == Cells(rows, kvLen)
  {
    if rows == 0 then [] else MaskRows(qLen, kvLen, rows - 1) + MaskRow(qLen, kvLen, rows - 1)
  }

  /** `causal_mask` fills the flat buffer row by row. */
  method CausalMask(qLen: nat, kvLen: nat) returns (data: seq<Score>)
    ensures data == MaskRows(qLen, kvLen, qLen)
  {
    CellsIsProduct(qLen, kvLen);
    var buffer := new Score[qLen * kvLen](_ => Fin(0.0));
    var base := 0;
    for i := 0 to qLen
      invariant base == Cells(i, kvLen) && base <= buffer.Length && buffer[..base] == MaskRows(qLen, kvLen, i)
      invariant forall k :: base <= k < buffer.Length ==> buffer[k] == Fin(0.0)
    {
      CellsMonotone(i + 1, qLen, kvLen);
      MaskRowInto(buffer, base, qLen, kvLen, i);
      assert buffer[..base + kvLen] == buffer[..base] + buffer[base..base + kvLen];
      base := base + kvLen;
    }
    data := buffer[..];
  }

  /** The inner loop: one row, written where its entries are to be minus infinity. */
  method MaskRowInto(buffer: array<Score>, base: nat, qLen: nat, kvLen: nat, i: nat)
    requires base + kvLen <= buffer.Length
    requires forall k :: base <= k < base + kvLen ==> buffer[k] == Fin(0.0)
    modifies buffer
    ensures buffer[base..base + kvLen] == MaskRow(qLen, kvLen, i)
    ensures forall k :: 0 <= k < base || base + kvLen <= k < buffer.Length ==> buffer[k] == old(buffer[k])
  {
    var diag := kvLen - qLen;
    for j := 0 to kvLen
      invariant forall c :: 0 <= c < j ==> buffer[base + c] == MaskAt(qLen, kvLen, i, c)
      invariant forall k :: base + j <= k < base + kvLen ==> buffer[k] == Fin(0.0)
      invariant forall k :: 0 <= k < base || base + kvLen <= k < buffer.Length ==> buffer[k] == old(buffer[k])
    {
      if j > i + diag {
        buffer[base + j] := NegInf;
      }
    }
  }

  /** Entry (i, j) of the flat buffer. */
  lemma {:induction false} MaskEntry(qLen: nat, kvLen: nat, rows: nat, i: nat, j: nat)
    requires i < rows && j < kvLen
    ensures i * kvLen + j < |MaskRows(qLen, kvLen, rows)|
    ensures MaskRows(qLen, kvLen, rows)[i * kvLen + j] == MaskAt(qLen, kvLen, i, j)
  {
    CellsIsProduct(i, kvLen);
    CellsMonotone(i + 1, rows, kvLen);
    if i < rows - 1 {
      MaskEntry(qLen, kvLen, rows - 1, i, j);
    }
  }

  /** One query against all keys it may see. */
  function AttendRow(exp: Exponential, scale: Positive, dim: nat, q: Vec, ks: seq<Vec>, vs: seq<Vec>): Vec
    requires ks != [] && |ks| == |vs|
  {
    WeightedSum(Softmax(exp, Scores(q, ks, scale)), vs, dim)
  }

  function MaskedScores(s: seq<Score>, qLen: nat, i: nat): (r: seq<Score>)
    ensures |r| == |s|
  {
    seq(|s|, j requires 0 <= j < |s| => AddScore(s[j], MaskAt(qLen, |s|, i, j)))
  }

  function NegInfs(n: nat): (s: seq<Score>)
    ensures |s| == n && forall i :: 0 <= i < n ==> s[i] == NegInf
  {
    seq(n, _ => NegInf)
  }

  /** A masked row is the visible scores followed by minus infinities. */
  lemma MaskedScoresSplit(q: Vec, ks: seq<Vec>, scale: Positive, qLen: nat, i: nat)
    requires i < qLen <= |ks|
    ensures var visible := i + |ks| - qLen + 1;
            MaskedScores(Scores(q, ks, scale), qLen, i)
            == Scores(q, ks[..visible], scale) + NegInfs(|ks| - visible)
  {
  }

  function ScoreRow(q: Vec, ks: seq<Vec>, scale: Positive, causal: bool, qLen: nat, i: nat): (s: seq<Score>)
    requires i < qLen <= |ks|
    ensures |s| == |ks| && MaxScore(s) != NegInf
  {
    var s := Scores(q, ks, scale);
    if causal then
      MaskedScoresSplit(q, ks, scale, qLen, i);
      MaxScoreIgnoresNegInf(Scores(q, ks[..i + |ks| - qLen + 1], scale), NegInfs(qLen - i - 1));
      MaskedScores(s, qLen, i)
    else s
  }

  /** `sdpa` for one head: scores, additive mask when causal, softmax, weighted values. */
  function Sdpa(exp: Exponential, scale: Positive, dim: nat, q: seq<Vec>, k: seq<Vec>, v: seq<Vec>,
      causal: bool): (out: seq<Vec>)
    requires |q| <= |k| == |v|
    ensures |out| == |q|
  {
    seq(|q|, i requires 0 <= i < |q| => WeightedSum(Softmax(exp, ScoreRow(q[i], k, scale, causal, |q|, i)), v, dim))
  }

  lemma ZeroTimes(x: real)
    ensures 0.0 * x == 0.0
  {
  }

  lemma WeightedSumIgnoresZeros(w: seq<real>, n: nat, vs: seq<Vec>, dim: nat)
    requires |w| + n == |vs|
    ensures WeightedSum(w + Zeros(n), vs, dim) == WeightedSum(w, vs[..|w|], dim)
  {
    forall d: nat | d < dim ensures Component(w + Zeros(n), vs, d) == Component(w, vs[..|w|], d) {
      forall j | 0 <= j < |w| + n
        ensures Products(w + Zeros(n), vs, d)[j] == (Products(w, vs[..|w|], d) + Zeros(n))[j]
      {
        if j >= |w| {
          ZeroTimes(At(vs[j], d));
        }
      }
      assert Products(w + Zeros(n), vs, d) == Products(w, vs[..|w|], d) + Zeros(n);
      SumAppend(Products(w, vs[..|w|], d), Zeros(n));
      SumZeros(Zeros(n));
    }
  }

  /** Row i of causal attention is attention over the keys up to its own position. */
  lemma CausalRowSeesPrefix(exp: Exponential, scale: Positive, dim: nat, q: seq<Vec>, k: seq<Vec>, v: seq<Vec>, i: nat)
    requires |q| <= |k| == |v| && i < |q|
    ensures var visible := i + |k| - |q| + 1;
            Sdpa(exp, scale, dim, q, k, v, true)[i] == AttendRow(exp, scale, dim, q[i], k[..visible], v[..visible])
  {
    RowSeesPrefix(exp, scale, dim, q, k, v, i, i + |k| - |q| + 1);
  }

  lemma RowSeesPrefix(exp: Exponential, scale: Positive, dim: nat, q: seq<Vec>, k: seq<Vec>, v: seq<Vec>, i: nat,
      visible: nat)
    requires |q| <= |k| == |v| && i < |q| && visible == i + |k| - |q| + 1
    ensures Sdpa(exp, scale, dim, q, k, v, true)[i] == AttendRow(exp, scale, dim, q[i], k[..visible], v[..visible])
  {
    CausalWeights(exp, scale, q[i], k, |q|, i);
    WeightedSumIgnoresZeros(Softmax(exp, Scores(q[i], k[..visible], scale)), |k| - visible, v, dim);
    SdpaRow(exp, scale, dim, q, k, v, i);
  }

  lemma SdpaRow(exp: Exponential, scale: Positive, dim: nat, q: seq<Vec>, k: seq<Vec>, v: seq<Vec>, i: nat)
    requires |q| <= |k| == |v| && i < |q|
    ensures Sdpa(exp, scale, dim, q, k, v, true)[i]
         == WeightedSum(Softmax(exp, ScoreRow(q[i], k, scale, true, |q|, i)), v, dim)
  {
  }

  /** With as many queries as keys. */
  lemma SquareRowSeesPrefix(exp: Exponential, scale: Positive, dim: nat, q: seq<Vec>, k: seq<Vec>, v: seq<Vec>, i: nat)
    requires |q| == |k| == |v| && i < |q|
    ensures Sdpa(exp, scale, dim, q, k, v, true)[i] == AttendRow(exp, scale, dim, q[i], k[..i + 1], v[..i + 1])
  {
    RowSeesPrefix(exp, scale, dim, q, k, v, i, i + 1);
  }

  lemma CausalWeights(exp: Exponential, scale: Positive, q: Vec, k: seq<Vec>, qLen: nat, i: nat)
    requires i < qLen <= |k|
    ensures var visible := i + |k| - qLen + 1;
            Softmax(exp, ScoreRow(q, k, scale, true, qLen, i))
            == Softmax(exp, Scores(q, k[..visible], scale)) + Zeros(|k| - visible)
  {
    var visible := i + |k| - qLen + 1;
    ScoreRowSplit(q, k, scale, qLen, i);
    SoftmaxIgnoresNegInf(exp, Scores(q, k[..visible], scale), NegInfs(|k| - visible));
  }

  lemma ScoreRowSplit(q: Vec, k: seq<Vec>, scale: Positive, qLen: nat, i: nat)
    requires i < qLen <= |k|
    ensures var visible := i + |k| - qLen + 1;
            ScoreRow(q, k, scale, true, qLen, i) == Scores(q, k[..visible], scale) + NegInfs(|k| - visible)
  {
    MaskedScoresSplit(q, k, scale, qLen, i);
  }

  // === Heads ===

  /** `reshape` of a flat projection into n heads. */
  function Split(flat: Vec, n: nat, dim: nat): (heads: seq<Vec>)
    ensures |heads| == n
  {
    seq(n, h requires 0 <= h < n => seq(dim, d requires 0 <= d < dim => At(flat, h * dim + d)))
  }

  lemma GroupInRange(h: nat, heads: nat, groups: nat)
    requires groups > 0 && heads % groups == 0 && h < heads
    ensures heads / groups > 0 && h / (heads / groups) < groups
  {
    var r := heads / groups;
    assert heads == groups * r;
    assert h / r * r <= h;
    FactorLess(h / r, groups, r);
  }

  lemma FactorLess(a: nat, b: nat, r: nat)
    requires a * r < b * r
    ensures a < b
  {
    assert b * r - a * r == (b - a) * r;
  }

  /** `repeat_kv`: head h reads group h / repeats. */
  function RepeatKv(x: seq<Vec>, heads: nat, groups: nat): (r: seq<Vec>)
    requires groups > 0 && heads % groups == 0 && |x| == groups
    ensures |r| == heads
  {
    if groups == heads then x
    else seq(heads, h requires 0 <= h < heads => GroupInRange(h, heads, groups); x[h / (heads / groups)])
  }

  // === Rotary positions ===

  /** cos and sin are any functions; invFreq(k) is the inverse frequency of pair k. */
  datatype RoPE = RoPE(rotaryDim: nat, maxSeqLen: nat, cos: real -> real, sin: real -> real, invFreq: nat -> real)
  {
    function Half(): nat { rotaryDim / 2 }

    function Row(f: real -> real, p: nat): (row: Vec)
      ensures |row| == Half()
    {
      seq(Half(), k requires 0 <= k < Half() => f(p as real * invFreq(k)))
    }

    /** The table a constructor builds for a given length. */
    function Table(f: real -> real, rows: nat): (t: seq<Vec>)
      ensures |t| == rows
    {
      seq(rows, p requires 0 <= p < rows => Row(f, p))
    }

    /** `cache_slice`: past the table's end a longer table is built first. */
    function CacheSlice(f: real -> real, offset: nat, len: nat): (t: seq<Vec>)
      ensures |t| == len
    {
      var end := offset + len;
      if end > maxSeqLen then Table(f, end)[offset..end] else Table(f, maxSeqLen)[offset..end]
    }

    /** Whether or not the table was rebuilt, a slice holds the rows of its own positions. */
    lemma SliceHoldsPositions(f: real -> real, offset: nat, len: nat)
      ensures CacheSlice(f, offset, len) == seq(len, i requires 0 <= i < len => Row(f, offset + i))
    {
    }

    /** `rotate_partial`: rotate the first rotaryDim components in pairs, pass the rest. */
    function RotatePartial(x: Vec, cos: Vec, sin: Vec): (r: Vec)
      requires |cos| == |sin| == Half()
      ensures |r| == |x|
    {
      var hh := Half();
      seq(|x|, d requires 0 <= d < |x| =>
        if d < hh then x[d] * cos[d] - At(x, hh + d) * sin[d]
        else if d < 2 * hh then x[d - hh] * sin[d - hh] + x[d] * cos[d - hh]
        else x[d])
    }

    /** All heads of one position. */
    function RotateHeads(x: seq<Vec>, cos: Vec, sin: Vec): (r: seq<Vec>)
      requires |cos| == |sin| == Half()
      ensures |r| == |x|
    {
      seq(|x|, h requires 0 <= h < |x| => RotatePartial(x[h], cos, sin))
    }

    function Forward(x: seq<seq<Vec>>, offset: nat): (r: seq<seq<Vec>>)
      ensures |r| == |x|
      ensures forall i :: 0 <= i < |x| ==> |r[i]| == |x[i]|
    {
      var c, s := CacheSlice(cos, offset, |x|), CacheSlice(sin, offset, |x|);
      SliceHoldsPositions(cos, offset, |x|);
      SliceHoldsPositions(sin, offset, |x|);
      seq(|x|, i requires 0 <= i < |x| => RotateHeads(x[i], c[i], s[i]))
    }

    function RotatedAt(x: seq<Vec>, p: nat): (r: seq<Vec>)
      ensures |r| == |x|
    {
      RotateHeads(x, Row(cos, p), Row(sin, p))
    }

    lemma ForwardRotatesAt(x: seq<seq<Vec>>, offset: nat, i: nat)
      requires i < |x|
      ensures Forward(x, offset)[i] == RotatedAt(x[i], offset + i)
    {
      SliceHoldsPositions(cos, offset, |x|);
      SliceHoldsPositions(sin, offset, |x|);
    }
  }

  // === The attention layer and its cache ===

  /** Rotated keys and values, per position and group. */
  datatype KVCache = KVCache(cachedK: seq<seq<Vec>>, cachedV: seq<seq<Vec>>)

  datatype Attention = Attention(
    qProj: Vec -> Vec, kProj: Vec -> Vec, vProj: Vec -> Vec, oProj: Vec -> Vec, rope: RoPE,
    numHeads: nat, numKvGroups: nat, headDim: nat, scale: Positive, exp: Exponential, causal: bool)
  {
    predicate Valid() { numKvGroups > 0 && numHeads % numKvGroups == 0 }

    /** Position x head and position x group tensors. */
    predicate Groups(xs: seq<seq<Vec>>) { forall i :: 0 <= i < |xs| ==> |xs[i]| == numKvGroups }

    function Project(f: Vec -> Vec, x: seq<Vec>, n: nat): (r: seq<seq<Vec>>)
      ensures |r| == |x| && forall i :: 0 <= i < |x| ==> r[i] == Split(f(x[i]), n, headDim)
    {
      seq(|x|, i requires 0 <= i < |x| => Split(f(x[i]), n, headDim))
    }

    /** What head h reads of a key or value tensor after `repeat_kv` and `transpose`. */
    function HeadKv(xs: seq<seq<Vec>>, h: nat): (r: seq<Vec>)
      requires Valid() && Groups(xs) && h < numHeads
      ensures |r| == |xs|
    {
      seq(|xs|, i requires 0 <= i < |xs| => RepeatKv(xs[i], numHeads, numKvGroups)[h])
    }

    function HeadQ(qs: seq<seq<Vec>>, h: nat): (r: seq<Vec>)
      requires forall i :: 0 <= i < |qs| ==> h < |qs[i]|
      ensures |r| == |qs|
    {
      seq(|qs|, i requires 0 <= i < |qs| => qs[i][h])
    }

    /** The outputs of all heads for row i. */
    function HeadOutputs(qs: seq<seq<Vec>>, ks: seq<seq<Vec>>, vs: seq<seq<Vec>>, isCausal: bool,
        i: nat): (out: seq<Vec>)
      requires Valid() && Groups(ks) && Groups(vs) && i < |qs| <= |ks| == |vs|
      requires forall k :: 0 <= k < |qs| ==> |qs[k]| == numHeads
      ensures |out| == numHeads
    {
      seq(numHeads, h requires 0 <= h < numHeads =>
        Sdpa(exp, scale, headDim, HeadQ(qs, h), HeadKv(ks, h), HeadKv(vs, h), isCausal)[i])
    }

    /** Attention of all heads, joined per position and projected. */
    function Attend(qs: seq<seq<Vec>>, ks: seq<seq<Vec>>, vs: seq<seq<Vec>>, isCausal: bool): (out: seq<Vec>)
      requires Valid() && Groups(ks) && Groups(vs) && |qs| <= |ks| == |vs|
      requires forall i :: 0 <= i < |qs| ==> |qs[i]| == numHeads
      ensures |out| == |qs|
    {
      seq(|qs|, i requires 0 <= i < |qs| => oProj(Concat(HeadOutputs(qs, ks, vs, isCausal, i))))
    }

    /** `forward`: the whole sequence at once. */
    function Forward(x: seq<Vec>, offset: nat): (out: seq<Vec>)
      requires Valid()
      ensures |out| == |x|
    {
      var q := rope.Forward(Project(qProj, x, numHeads), offset);
      var k := rope.Forward(Project(kProj, x, numKvGroups), offset);
      var v := Project(vProj, x, numKvGroups);
      Attend(q, k, v, causal && |x| > 1)
    }

    /** Keys and values for the same positions, one vector per group. */
    predicate HasShape(c: Option<KVCache>)
    {
      c.Some? ==> Groups(c.value.cachedK) && Groups(c.value.cachedV) && |c.value.cachedK| == |c.value.cachedV|
    }

    /** `forward_with_cache`: new positions attend to the cache and themselves; masked only without a cache. */
    function ForwardWithCache(x: seq<Vec>, offset: nat, cache: Option<KVCache>): (r: (seq<Vec>, KVCache))
      requires Valid() && HasShape(cache)
      ensures |r.0| == |x| && HasShape(Some(r.1))
    {
      var q := rope.Forward(Project(qProj, x, numHeads), offset);
      var kNew := rope.Forward(Project(kProj, x, numKvGroups), offset);
      var vNew := Project(vProj, x, numKvGroups);
      var (k, v) := match cache
        case Some(c) => (c.cachedK + kNew, c.cachedV + vNew)
        case None => (kNew, vNew);
      (Attend(q, k, v, causal && cache.None? && |x| > 1), KVCache(k, v))
    }

    // --- Position by position ---

    function QueryAt(x: Vec, p: nat): (q: seq<Vec>)
      ensures |q| == numHeads
    {
      rope.RotatedAt(Split(qProj(x), numHeads, headDim), p)
    }

    /** The rotated keys and the values of a prefix: what its cache should hold. */
    function Keys(x: seq<Vec>): (k: seq<seq<Vec>>)
      ensures |k| == |x| && forall i :: 0 <= i < |k| ==> |k[i]| == numKvGroups
    {
      seq(|x|, i requires 0 <= i < |x| => rope.RotatedAt(Split(kProj(x[i]), numKvGroups, headDim), i))
    }

    function Values(x: seq<Vec>): (v: seq<seq<Vec>>)
      ensures |v| == |x| && forall i :: 0 <= i < |v| ==> |v[i]| == numKvGroups
    {
      seq(|x|, i requires 0 <= i < |x| => Split(vProj(x[i]), numKvGroups, headDim))
    }

    function CacheOf(x: seq<Vec>): (c: Option<KVCache>)
      ensures HasShape(c)
    {
      if x == [] then None else Some(KVCache(Keys(x), Values(x)))
    }

    function HeadAt(q: seq<Vec>, ks: seq<seq<Vec>>, vs: seq<seq<Vec>>, h: nat): Vec
      requires Valid() && Groups(ks) && Groups(vs) && ks != [] && |ks| == |vs| && |q| == numHeads && h < numHeads
    {
      AttendRow(exp, scale, headDim, q[h], HeadKv(ks, h), HeadKv(vs, h))
    }

    /** One query against every key, unmasked, head by head. */
    function HeadsAt(q: seq<Vec>, ks: seq<seq<Vec>>, vs: seq<seq<Vec>>): (out: seq<Vec>)
      requires Valid() && Groups(ks) && Groups(vs) && ks != [] && |ks| == |vs| && |q| == numHeads
      ensures |out| == numHeads
    {
      seq(numHeads, h requires 0 <= h < numHeads => HeadAt(q, ks, vs, h))
    }

    /** The output for a query at a position against everything, unmasked. */
    function RowFor(y: Vec, p: nat, all: seq<Vec>): Vec
      requires Valid() && all != []
    {
      oProj(Concat(HeadsAt(QueryAt(y, p), Keys(all), Values(all))))
    }

    /** The output at the last position of a non-empty prefix. */
    function LastOutput(x: seq<Vec>): Vec
      requires Valid() && x != []
    {
      RowFor(x[|x| - 1], |x| - 1, x)
    }

    lemma KeysPrefix(x: seq<Vec>, n: nat, h: nat)
      requires Valid() && n <= |x| && h < numHeads
      ensures HeadKv(Keys(x), h)[..n] == HeadKv(Keys(x[..n]), h)
      ensures HeadKv(Values(x), h)[..n] == HeadKv(Values(x[..n]), h)
    {
    }

    lemma ProjectionsAreKeysAndValues(x: seq<Vec>)
      ensures rope.Forward(Project(kProj, x, numKvGroups), 0) == Keys(x)
      ensures Project(vProj, x, numKvGroups) == Values(x)
      ensures forall i :: 0 <= i < |x| ==> rope.Forward(Project(qProj, x, numHeads), 0)[i] == QueryAt(x[i], i)
    {
      forall i | 0 <= i < |x|
        ensures rope.Forward(Project(kProj, x, numKvGroups), 0)[i] == Keys(x)[i]
        ensures rope.Forward(Project(qProj, x, numHeads), 0)[i] == QueryAt(x[i], i)
      {
        rope.ForwardRotatesAt(Project(kProj, x, numKvGroups), 0, i);
        rope.ForwardRotatesAt(Project(qProj, x, numHeads), 0, i);
      }
    }

    /** What head h of row i computes in the plain causal forward. */
    lemma HeadRow(x: seq<Vec>, q: seq<seq<Vec>>, i: nat, h: nat)
      requires Valid() && i < |x| && h < numHeads && |q| == |x|
      requires forall k :: 0 <= k < |q| ==> |q[k]| == numHeads
      ensures Sdpa(exp, scale, headDim, HeadQ(q, h), HeadKv(Keys(x), h), HeadKv(Values(x), h), |x| > 1)[i]
           == HeadAt(q[i], Keys(x[..i + 1]), Values(x[..i + 1]), h)
    {
      if |x| > 1 {
        MaskedHeadRow(x, q, i, h);
      } else {
        SingleHeadRow(x, q, h);
      }
    }

    lemma MaskedHeadRow(x: seq<Vec>, q: seq<seq<Vec>>, i: nat, h: nat)
      requires Valid() && i < |x| && h < numHeads && |q| == |x|
      requires forall k :: 0 <= k < |q| ==> |q[k]| == numHeads
      ensures Sdpa(exp, scale, headDim, HeadQ(q, h), HeadKv(Keys(x), h), HeadKv(Values(x), h), true)[i]
           == HeadAt(q[i], Keys(x[..i + 1]), Values(x[..i + 1]), h)
    {
      KeysPrefix(x, i + 1, h);
      SquareRowSeesPrefix(exp, scale, headDim, HeadQ(q, h), HeadKv(Keys(x), h), HeadKv(Values(x), h), i);
    }

    /** A single row needs no mask. */
    lemma SingleHeadRow(x: seq<Vec>, q: seq<seq<Vec>>, h: nat)
      requires Valid() && h < numHeads && |q| == |x| == 1 && |q[0]| == numHeads
      ensures Sdpa(exp, scale, headDim, HeadQ(q, h), HeadKv(Keys(x), h), HeadKv(Values(x), h), false)[0]
           == HeadAt(q[0], Keys(x[..1]), Values(x[..1]), h)
    {
      assert x[..1] == x;
    }

    /** Row i of the plain causal forward is the last output of the prefix that ends at i. */
    lemma ForwardRow(x: seq<Vec>, i: nat)
      requires Valid() && causal && i < |x|
      ensures Forward(x, 0)[i] == LastOutput(x[..i + 1])
    {
      ProjectionsAreKeysAndValues(x);
      RowOutputs(x, rope.Forward(Project(qProj, x, numHeads), 0), i);
    }

    lemma RowOutputs(x: seq<Vec>, q: seq<seq<Vec>>, i: nat)
      requires Valid() && i < |x| && |q| == |x|
      requires forall k :: 0 <= k < |q| ==> |q[k]| == numHeads
      ensures HeadOutputs(q, Keys(x), Values(x), |x| > 1, i) == HeadsAt(q[i], Keys(x[..i + 1]), Values(x[..i + 1]))
    {
      var all := HeadOutputs(q, Keys(x), Values(x), |x| > 1, i);
      var last := HeadsAt(q[i], Keys(x[..i + 1]), Values(x[..i + 1]));
      forall h | 0 <= h < numHeads ensures all[h] == last[h] {
        HeadRow(x, q, i, h);
      }
    }

    lemma KeysAppend(x: seq<Vec>, y: Vec)
      ensures Keys(x + [y]) == Keys(x) + [rope.RotatedAt(Split(kProj(y), numKvGroups, headDim), |x|)]
      ensures Values(x + [y]) == Values(x) + [Split(vProj(y), numKvGroups, headDim)]
    {
    }

    /** One more position through the cache: the output and the cache of the longer prefix. */
    lemma CachedStep(x: seq<Vec>, y: Vec)
      requires Valid() && causal
      ensures ForwardWithCache([y], |x|, CacheOf(x)) == ([LastOutput(x + [y])], CacheOf(x + [y]).value)
    {
      var p := x + [y];
      var q := rope.Forward(Project(qProj, [y], numHeads), |x|);
      KeysAppend(x, y);
      rope.ForwardRotatesAt(Project(kProj, [y], numKvGroups), |x|, 0);
      rope.ForwardRotatesAt(Project(qProj, [y], numHeads), |x|, 0);
      assert rope.Forward(Project(kProj, [y], numKvGroups),
          |x|) == [rope.RotatedAt(Split(kProj(y), numKvGroups, headDim), |x|)];
      assert Project(vProj, [y], numKvGroups) == [Split(vProj(y), numKvGroups, headDim)];
      assert q == [QueryAt(y, |x|)];
      assert x == [] ==> Keys(p) == rope.Forward(Project(kProj, [y], numKvGroups), |x|);
      assert x == [] ==> Values(p) == Project(vProj, [y], numKvGroups);
      SingleQuery(q, Keys(p), Values(p));
    }

    lemma SingleQuery(q: seq<seq<Vec>>, ks: seq<seq<Vec>>, vs: seq<seq<Vec>>)
      requires Valid() && Groups(ks) && Groups(vs) && |q| == 1 <= |ks| == |vs| && |q[0]| == numHeads
      ensures Attend(q, ks, vs, false) == [oProj(Concat(HeadsAt(q[0], ks, vs)))]
    {
      assert HeadOutputs(q, ks, vs, false, 0) == HeadsAt(q[0], ks, vs);
    }

    /** Without a cache, a whole prefix through the cached forward is the plain forward, and it leaves
        that prefix's keys and values. */
    lemma Prefill(x: seq<Vec>)
      requires Valid()
      ensures ForwardWithCache(x, 0, None) == (Forward(x, 0), KVCache(Keys(x), Values(x)))
    {
      ProjectionsAreKeysAndValues(x);
    }

    lemma AllHeadsUnmasked(q: seq<seq<Vec>>, ks: seq<seq<Vec>>, vs: seq<seq<Vec>>, i: nat)
      requires Valid() && Groups(ks) && Groups(vs) && i < |q| <= |ks| == |vs|
      requires forall k :: 0 <= k < |q| ==> |q[k]| == numHeads
      ensures HeadOutputs(q, ks, vs, false, i) == HeadsAt(q[i], ks, vs)
    {
    }

    /** On top of a cache nothing is masked: every new position attends to all keys, also those after it. */
    lemma ChunkSeesEverything(x: seq<Vec>, chunk: seq<Vec>, i: nat)
      requires Valid() && x != [] && i < |chunk|
      ensures ForwardWithCache(chunk, |x|, CacheOf(x)).0[i] == RowFor(chunk[i], |x| + i, x + chunk)
      ensures ForwardWithCache(chunk, |x|, CacheOf(x)).1 == CacheOf(x + chunk).value
    {
      ChunkProjections(x, chunk);
      AllHeadsUnmasked(rope.Forward(Project(qProj, chunk, numHeads), |x|), Keys(x + chunk), Values(x + chunk), i);
    }

    lemma KeyRow(x: seq<Vec>, chunk: seq<Vec>, j: nat)
      requires j < |chunk|
      ensures rope.Forward(Project(kProj, chunk, numKvGroups), |x|)[j] == Keys(x + chunk)[|x| + j]
    {
      NewKeyAt(chunk, |x|, j);
      KeyAt(x + chunk, |x| + j, chunk[j]);
    }

    lemma NewKeyAt(chunk: seq<Vec>, offset: nat, j: nat)
      requires j < |chunk|
      ensures rope.Forward(Project(kProj, chunk, numKvGroups), offset)[j]
           == rope.RotatedAt(Split(kProj(chunk[j]), numKvGroups, headDim), offset + j)
    {
      rope.ForwardRotatesAt(Project(kProj, chunk, numKvGroups), offset, j);
    }

    lemma KeyAt(x: seq<Vec>, i: nat, y: Vec)
      requires i < |x| && x[i] == y
      ensures Keys(x)[i] == rope.RotatedAt(Split(kProj(y), numKvGroups, headDim), i)
    {
    }

    lemma NewKeys(x: seq<Vec>, chunk: seq<Vec>)
      ensures Keys(x) + rope.Forward(Project(kProj, chunk, numKvGroups), |x|) == Keys(x + chunk)
    {
      var k, all := rope.Forward(Project(kProj, chunk, numKvGroups), |x|), Keys(x + chunk);
      forall j | 0 <= j < |chunk| ensures k[j] == all[|x| + j] {
        KeyRow(x, chunk, j);
      }
      assert all[..|x|] == Keys(x);
    }

    lemma NewValues(x: seq<Vec>, chunk: seq<Vec>)
      ensures Values(x) + Project(vProj, chunk, numKvGroups) == Values(x + chunk)
    {
    }

    lemma ChunkProjections(x: seq<Vec>, chunk: seq<Vec>)
      ensures Keys(x) + rope.Forward(Project(kProj, chunk, numKvGroups), |x|) == Keys(x + chunk)
      ensures Values(x) + Project(vProj, chunk, numKvGroups) == Values(x + chunk)
      ensures forall j :: 0 <= j < |chunk| ==>
        rope.Forward(Project(qProj, chunk, numHeads), |x|)[j] == QueryAt(chunk[j], |x| + j)
    {
      var q := rope.Forward(Project(qProj, chunk, numHeads), |x|);
      NewKeys(x, chunk);
      NewValues(x, chunk);
      forall j | 0 <= j < |chunk| ensures q[j] == QueryAt(chunk[j], |x| + j) {
        rope.ForwardRotatesAt(Project(qProj, chunk, numHeads), |x|, j);
      }
    }
  }
}
