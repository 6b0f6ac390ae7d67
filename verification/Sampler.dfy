/** Choosing the next token (rust/src/laurelia/model.rs, `sample`) over the reals: repetition penalty, top_k,
    softmax, top_p, and one random draw. */
module Sampling {
  import opened Attentions

  /** `topP` below one and `topK` above zero switch the cuts on. */
  datatype Params = Params(exp: Exponential, temperature: Positive, topK: nat, topP: real, penalty: Positive)

  // === Adjusted logits ===

  function Penalised(v: real, penalty: Positive): real { if v > 0.0 then v / penalty else v * penalty }

  /** Each logit by the temperature, those of seen tokens penalised once however often they were seen. */
  function Adjusted(p: Params, logits: Vec, tokens: seq<nat>): (r: Vec)
    ensures |r| == |logits|
  {
    seq(|logits|, i requires 0 <= i < |logits| =>
      if i in tokens && p.penalty != 1.0 then Penalised(logits[i] / p.temperature, p.penalty)
          else logits[i] / p.temperature)
  }

  /** Every seen token of the vocabulary once. */
  method PenaliseSeen(scaled: Vec, tokens: seq<nat>, penalty: Positive) returns (r: Vec)
    ensures |r| == |scaled|
    ensures forall i :: 0 <= i < |r| ==> r[i] == if i in tokens then Penalised(scaled[i], penalty) else scaled[i]
  {
    r := scaled;
    var seen := seq(|scaled|, i => false);
    for k := 0 to |tokens|
      invariant |r| == |seen| == |scaled|
      invariant forall i :: 0 <= i < |r| ==> (seen[i] <==> i in tokens[..k])
      invariant forall i :: 0 <= i < |r| ==> r[i] == if i in tokens[..k] then Penalised(scaled[i], penalty)
          else scaled[i]
    {
      var t := tokens[k];
      assert tokens[..k + 1] == tokens[..k] + [t];
      if t < |scaled| && !seen[t] {
        seen := seen[t := true];
        r := r[t := if r[t] > 0.0 then r[t] / penalty else r[t] * penalty];
      }
    }
    assert tokens[..|tokens|] == tokens;
  }

  method AdjustLogits(p: Params, logits: Vec, tokens: seq<nat>) returns (r: Vec)
    ensures r == Adjusted(p, logits, tokens)
  {
    r := if p.temperature != 1.0 then seq(|logits|, i requires 0 <= i < |logits| => logits[i] / p.temperature)
        else logits;
    if p.penalty != 1.0 {
      r := PenaliseSeen(r, tokens, p.penalty);
    }
  }

  // === Sorting by descending key, equal keys in their old order ===

  function InsertDesc(key: nat -> real, s: seq<nat>, x: nat): (r: seq<nat>)
    ensures |r| == |s| + 1
  {
    if s == [] then [x]
    else if key(s[|s| - 1]) >= key(x) then s + [x]
    else InsertDesc(key, s[..|s| - 1], x) + [s[|s| - 1]]
  }

  /** A stable sort. */
  function SortDesc(key: nat -> real, s: seq<nat>): (r: seq<nat>)
    ensures |r| == |s|
  {
    if s == [] then [] else InsertDesc(key, SortDesc(key, s[..|s| - 1]), s[|s| - 1])
  }

  predicate Before(key: nat -> real, a: nat, b: nat) { key(a) > key(b) || (key(a) == key(b) && a < b) }

  ghost predicate Ranked(key: nat -> real, s: seq<nat>)
  {
    forall i, j :: 0 <= i < j < |s| ==> Before(key, s[i], s[j])
  }

  ghost predicate TiesAscend(key: nat -> real, s: seq<nat>)
  {
    forall i, j :: 0 <= i < j < |s| && key(s[i]) == key(s[j]) ==> s[i] < s[j]
  }

  lemma {:induction false} InsertMultiset(key: nat -> real, s: seq<nat>, x: nat)
    ensures multiset(InsertDesc(key, s, x)) == multiset(s) + multiset{x}
  {
    if s != [] && key(s[|s| - 1]) < key(x) {
      InsertMultiset(key, s[..|s| - 1], x);
      assert s == s[..|s| - 1] + [s[|s| - 1]];
    }
  }

  lemma {:induction false} SortMultiset(key: nat -> real, s: seq<nat>)
    ensures multiset(SortDesc(key, s)) == multiset(s)
  {
    if s != [] {
      var n := |s| - 1;
      SortMultiset(key, s[..n]);
      InsertMultiset(key, SortDesc(key, s[..n]), s[n]);
      assert s == s[..n] + [s[n]];
    }
  }

  lemma {:induction false} SameMembers(a: seq<nat>, b: seq<nat>)
    requires multiset(a) == multiset(b)
    ensures forall x: nat :: x in a <==> x in b
  {
    forall x: nat ensures x in a <==> x in b {
      assert x in a <==> x in multiset(a);
      assert x in b <==> x in multiset(b);
    }
  }

  lemma {:induction false} InsertRanks(key: nat -> real, s: seq<nat>, x: nat)
    requires Ranked(key, s) && forall y :: y in s && key(y) == key(x) ==> y < x
    ensures Ranked(key, InsertDesc(key, s, x))
  {
    if s != [] {
      var n := |s| - 1;
      if key(s[n]) >= key(x) {
        forall i | 0 <= i < |s| ensures Before(key, s[i], x) {
          assert i < n ==> Before(key, s[i], s[n]);
        }
      } else {
        InsertRanks(key, s[..n], x);
        InsertMultiset(key, s[..n], x);
        var r := InsertDesc(key, s[..n], x);
        forall i | 0 <= i < |r| ensures Before(key, r[i], s[n]) {
          assert r[i] in multiset(r);
          if r[i] != x {
            assert r[i] in s[..n];
            var k :| 0 <= k < n && s[k] == r[i];
          }
        }
      }
    }
  }

  lemma {:induction false} SortRanks(key: nat -> real, s: seq<nat>)
    requires TiesAscend(key, s)
    ensures Ranked(key, SortDesc(key, s))
  {
    if s != [] {
      var n := |s| - 1;
      SortRanks(key, s[..n]);
      SortMultiset(key, s[..n]);
      SameMembers(SortDesc(key, s[..n]), s[..n]);
      InsertRanks(key, SortDesc(key, s[..n]), s[n]);
    }
  }

  // === The candidates and their probabilities ===

  function KeyOf(v: Vec): nat -> real { i => At(v, i) }

  function Upto(n: nat): (r: seq<nat>) ensures |r| == n { seq(n, i => i) }

  /** The top_k best tokens, or all of them in index order. */
  function Candidates(p: Params, adjusted: Vec): seq<nat>
  {
    if 0 < p.topK < |adjusted| then SortDesc(KeyOf(adjusted), Upto(|adjusted|))[..p.topK] else Upto(|adjusted|)
  }

  function Masked(adjusted: Vec, order: seq<nat>): (r: seq<Score>)
    ensures |r| == |adjusted|
  {
    seq(|adjusted|, i requires 0 <= i < |adjusted| => if i in order then Fin(adjusted[i]) else NegInf)
  }

  lemma {:induction false} UptoMembers(n: nat)
    ensures forall x: nat :: x in Upto(n) <==> x < n
  {
    forall x: nat | x < n ensures x in Upto(n) {
      assert Upto(n)[x] == x;
    }
  }

  lemma {:induction false} TakeMembers(s: seq<nat>, k: nat)
    requires k <= |s|
    ensures forall x :: x in s[..k] ==> x in s
  {
  }

  lemma {:induction false} CandidatesFit(p: Params, adjusted: Vec)
    requires adjusted != []
    ensures Candidates(p, adjusted) != []
    ensures forall x :: x in Candidates(p, adjusted) ==> x < |adjusted|
    ensures Ranked(KeyOf(adjusted), Candidates(p, adjusted)) || Candidates(p, adjusted) == Upto(|adjusted|)
  {
    var n, key := |adjusted|, KeyOf(adjusted);
    UptoMembers(n);
    SortMultiset(key, Upto(n));
    SameMembers(SortDesc(key, Upto(n)), Upto(n));
    SortRanks(key, Upto(n));
    TakeMembers(SortDesc(key, Upto(n)), if p.topK < n then p.topK else n);
  }

  lemma {:induction false} SomeScoreIsFinite(p: Params, adjusted: Vec)
    requires adjusted != []
    ensures MaxScore(Masked(adjusted, Candidates(p, adjusted))) != NegInf
  {
    CandidatesFit(p, adjusted);
    var order := Candidates(p, adjusted);
    assert order[0] in order;
    assert Masked(adjusted, order)[order[0]] != NegInf;
  }

  /** Some token is kept. */
  ghost predicate Keeps(adjusted: Vec, c: seq<nat>) { MaxScore(Masked(adjusted, c)) != NegInf }

  /** The probabilities when the candidates are c. */
  function ProbabilitiesOver(exp: Exponential, adjusted: Vec, c: seq<nat>): (r: Vec)
    requires Keeps(adjusted, c)
    ensures |r| == |adjusted|
  {
    Softmax(exp, Masked(adjusted, c))
  }

  function Probabilities(p: Params, adjusted: Vec): (r: Vec)
    requires adjusted != []
    ensures |r| == |adjusted|
  {
    SomeScoreIsFinite(p, adjusted);
    ProbabilitiesOver(p.exp, adjusted, Candidates(p, adjusted))
  }

  lemma {:induction false} WeightAt(exp: Exponential, s: seq<Score>, max: real, i: nat)
    requires i < |s|
    ensures Exponentials(exp, s, max)[i] == Weigh(exp, s[i], max)
  {
    if i > 0 {
      WeightAt(exp, s[1..], max, i - 1);
    }
  }

  // Softmax divides weights by their sum: signs and ties of probabilities are those of the weights.

  ghost predicate RatioAt(probs: Vec, e: Vec, a: nat, b: nat)
    requires a < |probs| == |e| && b < |probs|
  {
    probs[a] >= 0.0 && (probs[a] > 0.0 <==> e[a] > 0.0) && (probs[a] == probs[b] ==> e[a] == e[b])
  }

  lemma {:induction false} QuotientRatio(x: real, y: real, t: real)
    requires t > 0.0 && x >= 0.0
    ensures x / t >= 0.0 && (x / t > 0.0 <==> x > 0.0)
    ensures x / t == y / t ==> x == y
  {
    assert x == (x / t) * t && y == (y / t) * t;
  }

  lemma {:induction false} NormaliseRatio(e: Vec, total: real, a: nat, b: nat)
    requires total > 0.0 && a < |e| && b < |e| && e[a] >= 0.0
    ensures RatioAt(Normalise(e, total), e, a, b)
  {
    QuotientRatio(e[a], e[b], total);
  }

  ghost predicate Ratios(probs: Vec, e: Vec)
  {
    |probs| == |e| && forall a, b :: 0 <= a < |probs| && 0 <= b < |probs| ==> RatioAt(probs, e, a, b)
  }

  lemma {:induction false} SoftmaxRatios(exp: Exponential, s: seq<Score>, max: real, e: Vec)
    requires MaxScore(s) == Fin(max) && e == Exponentials(exp, s, max)
    ensures Ratios(Softmax(exp, s), e)
  {
    ExponentialsPositive(exp, s, max);
    forall a, b | 0 <= a < |e| && 0 <= b < |e| ensures RatioAt(Softmax(exp, s), e, a, b) {
      WeightAt(exp, s, max, a);
      NormaliseRatio(e, Sum(e), a, b);
    }
  }

  ghost predicate WeightOk(e: Vec, adjusted: Vec, c: seq<nat>, exp: Exponential, max: real, i: nat)
    requires i < |e| == |adjusted|
  {
    e[i] == if i in c then exp(adjusted[i] - max) else 0.0
  }

  ghost predicate Weights(e: Vec, adjusted: Vec, c: seq<nat>, exp: Exponential, max: real)
  {
    |e| == |adjusted| && forall i :: 0 <= i < |e| ==> WeightOk(e, adjusted, c, exp, max, i)
  }

  lemma {:induction false} MaskedWeights(exp: Exponential, adjusted: Vec, c: seq<nat>, max: real, e: Vec)
    requires e == Exponentials(exp, Masked(adjusted, c), max)
    ensures Weights(e, adjusted, c, exp, max)
  {
    forall i | 0 <= i < |e| ensures WeightOk(e, adjusted, c, exp, max, i) {
      WeightAt(exp, Masked(adjusted, c), max, i);
    }
  }

  /** Behind the probabilities lie the weights of the candidates. */
  lemma {:induction false} ProbabilityWeights(exp: Exponential, adjusted: Vec, c: seq<nat>) returns (e: Vec, max: real)
    requires Keeps(adjusted, c)
    ensures Weights(e, adjusted, c, exp, max) && Ratios(ProbabilitiesOver(exp, adjusted, c), e)
  {
    var s := Masked(adjusted, c);
    max := MaxScore(s).value;
    e := Exponentials(exp, s, max);
    MaskedWeights(exp, adjusted, c, max, e);
    SoftmaxRatios(exp, s, max, e);
  }

  // === Mass ===

  function Mass(probs: Vec, s: seq<nat>): real
  {
    if s == [] then 0.0 else Mass(probs, s[..|s| - 1]) + At(probs, s[|s| - 1])
  }

  lemma {:induction false} MassAppend(probs: Vec, a: seq<nat>, b: seq<nat>)
    ensures Mass(probs, a + b) == Mass(probs, a) + Mass(probs, b)
  {
    if b == [] {
      assert a + b == a;
    } else {
      var n := |b| - 1;
      assert (a + b)[..|a| + n] == a + b[..n];
      MassAppend(probs, a, b[..n]);
    }
  }

  // === The nucleus ===

  /** The candidates in the order of the second sort, or as they were. */
  function NucleusOrder(p: Params, probs: Vec, order: seq<nat>): (r: seq<nat>)
    ensures |r| == |order|
  {
    if p.topP < 1.0 then SortDesc(KeyOf(probs), order) else order
  }

  /** How many of them are kept: up to the first whose mass reaches topP. */
  function NucleusLength(topP: real, probs: Vec, order: seq<nat>, i: nat): (m: nat)
    requires i <= |order|
    ensures i <= m <= |order| && (i < |order| ==> i < m)
    ensures forall k :: i < k < m ==> Mass(probs, order[..k]) < topP
    ensures m < |order| ==> Mass(probs, order[..m]) >= topP
    decreases |order| - i
  {
    if i == |order| then i
    else if Mass(probs, order[..i + 1]) >= topP then i + 1
    else NucleusLength(topP, probs, order, i + 1)
  }

  function Nucleus(p: Params, probs: Vec, order: seq<nat>): seq<nat>
  {
    var o := NucleusOrder(p, probs, order);
    if p.topP < 1.0 then o[..NucleusLength(p.topP, probs, o, 0)] else o
  }

  function Cut(probs: Vec, kept: seq<nat>): (r: Vec)
    ensures |r| == |probs|
  {
    seq(|probs|, i requires 0 <= i < |probs| => if i in kept then probs[i] else 0.0)
  }

  // === The draw ===

  function Cumulative(probs: Vec, n: nat): real
    requires n <= |probs|
  {
    if n == 0 then 0.0 else Cumulative(probs, n - 1) + probs[n - 1]
  }

  function FirstBest(probs: Vec, n: nat): (b: nat)
    requires 0 < n <= |probs|
    ensures b < n && forall i :: 0 <= i < n ==> probs[i] <= probs[b]
    ensures forall i :: 0 <= i < b ==> probs[i] < probs[b]
  {
    if n == 1 then 0
    else
      var b := FirstBest(probs, n - 1);
      if probs[n - 1] > probs[b] then n - 1 else b
  }

  /** The first token whose cumulated probability exceeds u, from i on. */
  function FirstOver(probs: Vec, u: real, i: nat): (r: nat)
    requires i <= |probs|
    ensures i <= r <= |probs|
    ensures r < |probs| ==> u < Cumulative(probs, r + 1)
    ensures forall k :: i < k <= r ==> Cumulative(probs, k) <= u
    decreases |probs| - i
  {
    if i == |probs| || u < Cumulative(probs, i + 1) then i else FirstOver(probs, u, i + 1)
  }

  /** That token, or the most probable one when the whole mass does not exceed u. */
  function Picked(probs: Vec, u: real): (r: nat)
    requires probs != []
    ensures r < |probs|
  {
    var i := FirstOver(probs, u, 0);
    if i < |probs| then i else FirstBest(probs, |probs|)
  }

  method Multinomial(probs: Vec, u: real) returns (r: nat)
    requires probs != []
    ensures r == Picked(probs, u)
  {
    var cum := 0.0;
    for i := 0 to |probs|
      invariant cum == Cumulative(probs, i) && FirstOver(probs, u, 0) == FirstOver(probs, u, i)
    {
      cum := cum + probs[i];
      if u < cum {
        return i;
      }
    }
    var best := 0;
    for i := 1 to |probs|
      invariant best == FirstBest(probs, i)
    {
      if probs[i] > probs[best] {
        best := i;
      }
    }
    return best;
  }

  ghost predicate NonNegative(probs: Vec) { forall i :: 0 <= i < |probs| ==> probs[i] >= 0.0 }

  lemma {:induction false} CumulativeGrows(probs: Vec, m: nat, n: nat)
    requires m <= n <= |probs| && NonNegative(probs)
    ensures Cumulative(probs, m) <= Cumulative(probs, n)
  {
    if m < n {
      CumulativeGrows(probs, m, n - 1);
    }
  }

  /** A draw below the kept mass picks token i exactly when it falls into the interval of i, whose length is the
      probability of i; a draw above it always picks the most probable token. */
  lemma {:induction false} PickedIff(probs: Vec, u: real, i: nat)
    requires probs != [] && NonNegative(probs) && i < |probs| && u >= 0.0
    ensures u < Cumulative(probs, |probs|)
        ==> (Picked(probs, u) == i <==> Cumulative(probs, i) <= u < Cumulative(probs, i + 1))
    ensures u >= Cumulative(probs, |probs|) ==> Picked(probs, u) == FirstBest(probs, |probs|)
  {
    var r := FirstOver(probs, u, 0);
    if r < |probs| {
      CumulativeGrows(probs, r + 1, |probs|);
      if i < r {
        CumulativeGrows(probs, i + 1, r);
      } else if r < i {
        CumulativeGrows(probs, r + 1, i);
      }
    }
  }

  /** A token without probability is never picked while another has some. */
  lemma {:induction false} PickedHasMass(probs: Vec, u: real)
    requires probs != [] && NonNegative(probs) && u >= 0.0 && exists i :: 0 <= i < |probs| && probs[i] > 0.0
    ensures probs[Picked(probs, u)] > 0.0
  {
    PickedIff(probs, u, Picked(probs, u));
  }

  // === The whole sampler ===

  /** What `sample` returns; an empty vocabulary gives token 0. */
  function Sample(p: Params, logits: Vec, tokens: seq<nat>, u: real): nat
  {
    if logits == [] then 0
    else
      var adjusted := Adjusted(p, logits, tokens);
      var probs := Probabilities(p, adjusted);
      Picked(Cut(probs, Nucleus(p, probs, Candidates(p, adjusted))), u)
  }

  method MaskLogits(adjusted: Vec, order: seq<nat>) returns (r: seq<Score>)
    requires forall x :: x in order ==> x < |adjusted|
    ensures r == Masked(adjusted, order)
  {
    var keep := Keep(|adjusted|, order);
    r := seq(|adjusted|, i requires 0 <= i < |adjusted| => Fin(adjusted[i]));
    for i := 0 to |adjusted|
      invariant |r| == |adjusted|
      invariant forall j :: 0 <= j < |adjusted| ==> r[j] == if j < i && j !in order then NegInf else Fin(adjusted[j])
    {
      if !keep[i] {
        r := r[i := NegInf];
      }
    }
  }

  method Keep(n: nat, kept: seq<nat>) returns (keep: seq<bool>)
    requires forall x :: x in kept ==> x < n
    ensures |keep| == n && forall i :: 0 <= i < n ==> (keep[i] <==> i in kept)
  {
    keep := seq(n, i => false);
    for k := 0 to |kept|
      invariant |keep| == n && forall i :: 0 <= i < n ==> (keep[i] <==> i in kept[..k])
    {
      assert kept[..k + 1] == kept[..k] + [kept[k]];
      assert kept[k] in kept;
      keep := keep[kept[k] := true];
    }
    assert kept[..|kept|] == kept;
  }

  method TakeNucleus(topP: real, probs: Vec, order: seq<nat>) returns (kept: seq<nat>)
    ensures kept == order[..NucleusLength(topP, probs, order, 0)]
  {
    var cum := 0.0;
    kept := [];
    for i := 0 to |order|
      invariant kept == order[..i] && cum == Mass(probs, order[..i])
      invariant NucleusLength(topP, probs, order, 0) == NucleusLength(topP, probs, order, i)
    {
      assert order[..i + 1][..i] == order[..i];
      cum := cum + At(probs, order[i]);
      kept := kept + [order[i]];
      if cum >= topP {
        return;
      }
    }
  }

  method CutTo(probs: Vec, kept: seq<nat>) returns (r: Vec)
    requires forall x :: x in kept ==> x < |probs|
    ensures r == Cut(probs, kept)
  {
    var keep := Keep(|probs|, kept);
    r := probs;
    for i := 0 to |probs|
      invariant |r| == |probs|
      invariant forall j :: 0 <= j < |probs| ==> r[j] == if j < i && j !in kept then 0.0 else probs[j]
    {
      if !keep[i] {
        r := r[i := 0.0];
      }
    }
  }

  method ToProbabilities(p: Params, adjusted: Vec) returns (probs: Vec)
    requires adjusted != []
    ensures probs == Probabilities(p, adjusted)
  {
    var order := Candidates(p, adjusted);
    CandidatesFit(p, adjusted);
    var scores := MaskLogits(adjusted, order);
    SomeScoreIsFinite(p, adjusted);
    probs := Softmax(p.exp, scores);
  }

  method KeepNucleus(p: Params, probs: Vec, candidates: seq<nat>) returns (kept: seq<nat>)
    ensures kept == Nucleus(p, probs, candidates)
  {
    kept := candidates;
    if p.topP < 1.0 {
      kept := SortDesc(KeyOf(probs), kept);
      kept := TakeNucleus(p.topP, probs, kept);
    }
  }

  lemma {:induction false} NucleusMembers(p: Params, probs: Vec, candidates: seq<nat>)
    ensures forall x :: x in Nucleus(p, probs, candidates) ==> x in candidates
  {
    SortMultiset(KeyOf(probs), candidates);
    SameMembers(SortDesc(KeyOf(probs), candidates), candidates);
    var o := NucleusOrder(p, probs, candidates);
    TakeMembers(o, NucleusLength(p.topP, probs, o, 0));
  }

  method SampleToken(p: Params, logits: Vec, tokens: seq<nat>, u: real) returns (r: nat)
    ensures r == Sample(p, logits, tokens, u)
  {
    if logits == [] {
      return 0;
    }
    var adjusted := AdjustLogits(p, logits, tokens);
    var probs := ToProbabilities(p, adjusted);
    var kept := KeepNucleus(p, probs, Candidates(p, adjusted));
    CandidatesFit(p, adjusted);
    NucleusMembers(p, probs, Candidates(p, adjusted));
    probs := CutTo(probs, kept);
    r := Multinomial(probs, u);
  }

  // === Which tokens can be picked ===

  /** How many tokens rank before r. */
  ghost function Ahead(key: nat -> real, n: nat, r: nat): set<nat> { set j: nat | j < n && Before(key, j, r) }

  ghost predicate Distinct(s: seq<nat>) { forall i, j :: 0 <= i < j < |s| ==> s[i] != s[j] }

  lemma {:induction false} RankedDistinct(key: nat -> real, s: seq<nat>)
    requires Ranked(key, s)
    ensures Distinct(s)
  {
  }

  lemma {:induction false} PlacesBefore(key: nat -> real, s: seq<nat>, k: nat, q: nat)
    requires Ranked(key, s) && k < |s| && q < |s|
    ensures Before(key, s[k], s[q]) <==> k < q
  {
  }

  ghost function Front(s: seq<nat>, q: nat): set<nat>
    requires q <= |s|
  {
    set i | 0 <= i < q :: s[i]
  }

  lemma {:induction false} FrontStep(s: seq<nat>, q: nat)
    requires q < |s| && Distinct(s)
    ensures Front(s, q + 1) == Front(s, q) + {s[q]} && s[q] !in Front(s, q)
  {
    assert s[q] in Front(s, q + 1);
  }

  lemma {:induction false} FrontSize(s: seq<nat>, q: nat)
    requires q <= |s| && Distinct(s)
    ensures |Front(s, q)| == q
  {
    if q > 0 {
      FrontSize(s, q - 1);
      FrontStep(s, q - 1);
    }
  }

  /** In a ranked list of all tokens the place of a token is the number of tokens ahead of it. */
  lemma {:induction false} PlaceIsRank(key: nat -> real, s: seq<nat>, n: nat, q: nat)
    requires Ranked(key, s) && q < |s| && forall x: nat :: x in s <==> x < n
    ensures |Ahead(key, n, s[q])| == q
  {
    RankedDistinct(key, s);
    FrontSize(s, q);
    forall j | j in Ahead(key, n, s[q]) ensures j in Front(s, q) {
      assert j in s;
      var k :| 0 <= k < |s| && s[k] == j;
      PlacesBefore(key, s, k, q);
    }
    forall j | j in Front(s, q) ensures j in Ahead(key, n, s[q]) {
      var k :| 0 <= k < q && s[k] == j;
      assert s[k] in s;
      PlacesBefore(key, s, k, q);
    }
    assert Ahead(key, n, s[q]) == Front(s, q);
  }

  lemma {:induction false} InTakeIff(s: seq<nat>, k: nat, q: nat)
    requires Distinct(s) && k <= |s| && q < |s|
    ensures s[q] in s[..k] <==> q < k
  {
    assert q < k ==> s[..k][q] == s[q];
  }

  lemma {:induction false} PlaceOf(s: seq<nat>, x: nat) returns (q: nat)
    requires x in s
    ensures q < |s| && s[q] == x
  {
    q :| 0 <= q < |s| && s[q] == x;
  }

  /** A token is a candidate exactly when fewer than top_k tokens rank before it. */
  lemma {:induction false} CandidateIff(p: Params, adjusted: Vec, x: nat)
    requires x < |adjusted| && 0 < p.topK < |adjusted|
    ensures x in Candidates(p, adjusted) <==> |Ahead(KeyOf(adjusted), |adjusted|, x)| < p.topK
  {
    var n, key := |adjusted|, KeyOf(adjusted);
    var s := SortDesc(key, Upto(n));
    UptoMembers(n);
    SortMultiset(key, Upto(n));
    SameMembers(s, Upto(n));
    SortRanks(key, Upto(n));
    RankedDistinct(key, s);
    var q := PlaceOf(s, x);
    PlaceIsRank(key, s, n, q);
    InTakeIff(s, p.topK, q);
  }

  // === Mass ahead ===

  /** The tokens that rank before r, in index order. */
  ghost function AheadList(probs: Vec, r: nat, n: nat): (s: seq<nat>)
    ensures forall j: nat :: j in s <==> j < n && Before(KeyOf(probs), j, r)
  {
    if n == 0 then [] else AheadList(probs, r, n - 1) + (if Before(KeyOf(probs), n - 1, r) then [n - 1] else [])
  }

  /** The mass of the tokens that rank before r. */
  ghost function MassAhead(probs: Vec, r: nat): real { Mass(probs, AheadList(probs, r, |probs|)) }

  lemma {:induction false} AheadListDistinct(probs: Vec, r: nat, n: nat)
    ensures Distinct(AheadList(probs, r, n))
  {
    if n > 0 {
      AheadListDistinct(probs, r, n - 1);
      var before := AheadList(probs, r, n - 1);
      forall i | 0 <= i < |before| ensures before[i] < n - 1 {
        assert before[i] in before;
      }
    }
  }

  lemma {:induction false} DistinctMultiset(s: seq<nat>, x: nat)
    requires Distinct(s)
    ensures multiset(s)[x] == if x in s then 1 else 0
  {
    if s != [] {
      var n := |s| - 1;
      DistinctMultiset(s[..n], x);
      assert s == s[..n] + [s[n]];
    }
  }

  lemma {:induction false} RemoveAt(a: seq<nat>, b: seq<nat>, k: nat)
    requires a != [] && k < |b| && b[k] == a[|a| - 1] && multiset(a) == multiset(b)
    ensures multiset(a[..|a| - 1]) == multiset(b[..k] + b[k + 1..])
  {
    var x := b[k];
    assert a == a[..|a| - 1] + [x];
    assert b == b[..k] + [x] + b[k + 1..];
    assert multiset(b) == multiset(b[..k] + b[k + 1..]) + multiset{x};
    assert multiset(a) == multiset(a[..|a| - 1]) + multiset{x};
    var left, right := multiset(a[..|a| - 1]), multiset(b[..k] + b[k + 1..]);
    forall y: nat ensures left[y] == right[y] {
      assert multiset(a)[y] == multiset(b)[y];
    }
  }

  lemma {:induction false} MassMultiset(probs: Vec, a: seq<nat>, b: seq<nat>)
    requires multiset(a) == multiset(b)
    ensures Mass(probs, a) == Mass(probs, b)
  {
    if a == [] {
      assert |multiset(b)| == |b|;
    } else {
      var n, x := |a| - 1, a[|a| - 1];
      assert x in multiset(a);
      var k := PlaceOf(b, x);
      RemoveAt(a, b, k);
      MassMultiset(probs, a[..n], b[..k] + b[k + 1..]);
      MassAppend(probs, b[..k], b[k + 1..]);
      MassAppend(probs, b[..k], [x] + b[k + 1..]);
      MassAppend(probs, [x], b[k + 1..]);
      assert b == b[..k] + ([x] + b[k + 1..]);
      assert [x][..0] == [];
    }
  }

  lemma {:induction false} SameMass(probs: Vec, a: seq<nat>, b: seq<nat>)
    requires Distinct(a) && Distinct(b) && forall x: nat :: x in a <==> x in b
    ensures Mass(probs, a) == Mass(probs, b)
  {
    forall x: nat ensures multiset(a)[x] == multiset(b)[x] {
      DistinctMultiset(a, x);
      DistinctMultiset(b, x);
    }
    assert multiset(a) == multiset(b);
    MassMultiset(probs, a, b);
  }

  // === The theorem ===

  ghost predicate Increasing(exp: Exponential) { forall x: real, y: real :: GrowsAt(exp, x, y) }

  ghost predicate GrowsAt(exp: Exponential, x: real, y: real) { x < y ==> exp(x) < exp(y) }

  ghost predicate TieAt(probs: Vec, adjusted: Vec, a: nat, b: nat)
  {
    a < |probs| && b < |probs| && |adjusted| == |probs| && (probs[a] == probs[b] ==> adjusted[a] == adjusted[b])
  }

  /** Candidates of equal probability have equal logits. */
  lemma {:induction false} EqualProbabilities(probs: Vec, e: Vec, adjusted: Vec, c: seq<nat>, exp: Exponential,
      max: real, a: nat, b: nat)
    requires Weights(e, adjusted, c, exp, max) && Ratios(probs, e) && Increasing(exp) && a in c && b in c
        && a < |adjusted| && b < |adjusted|
    ensures TieAt(probs, adjusted, a, b)
  {
    assert WeightOk(e, adjusted, c, exp, max, a) && WeightOk(e, adjusted, c, exp, max, b) && RatioAt(probs, e, a, b);
    if probs[a] == probs[b] {
      OneToOne(exp, adjusted[a] - max, adjusted[b] - max);
    }
  }

  lemma {:induction false} OneToOne(exp: Exponential, x: real, y: real)
    requires Increasing(exp) && exp(x) == exp(y)
    ensures x == y
  {
    assert GrowsAt(exp, x, y) && GrowsAt(exp, y, x);
  }

  /** Probabilities over candidates: exactly these have a chance, and equal ones come in index order. */
  ghost predicate Chances(probs: Vec, c: seq<nat>)
  {
    && c != [] && (forall x :: x in c ==> x < |probs|) && TiesAscend(KeyOf(probs), c)
    && forall i :: 0 <= i < |probs| ==> probs[i] >= 0.0 && (probs[i] > 0.0 <==> i in c)
  }

  lemma {:induction false} TiesAscendFrom(probs: Vec, adjusted: Vec, c: seq<nat>)
    requires forall i, j :: 0 <= i < j < |c| ==> TieAt(probs, adjusted, c[i], c[j])
    requires Ranked(KeyOf(adjusted), c) || c == Upto(|adjusted|)
    ensures TiesAscend(KeyOf(probs), c)
  {
    forall i, j | 0 <= i < j < |c| && KeyOf(probs)(c[i]) == KeyOf(probs)(c[j]) ensures c[i] < c[j] {
      assert TieAt(probs, adjusted, c[i], c[j]);
      TiesOfCandidates(KeyOf(adjusted), c, |adjusted|, i, j);
    }
  }

  lemma {:induction false} TiesOfCandidates(key: nat -> real, c: seq<nat>, n: nat, i: nat, j: nat)
    requires Ranked(key, c) || c == Upto(n)
    requires i < j < |c| && key(c[i]) == key(c[j])
    ensures c[i] < c[j]
  {
    if Ranked(key, c) {
      assert Before(key, c[i], c[j]);
    }
  }

  // From here on only the probabilities and the candidates matter.

  /** The second sort ranks the candidates by probability, equal ones by index. */
  lemma {:induction false} NucleusRanked(probs: Vec, c: seq<nat>)
    requires Chances(probs, c)
    ensures Ranked(KeyOf(probs), SortDesc(KeyOf(probs), c))
    ensures forall x: nat :: x in SortDesc(KeyOf(probs), c) <==> x in c
  {
    SortRanks(KeyOf(probs), c);
    SortMultiset(KeyOf(probs), c);
    SameMembers(SortDesc(KeyOf(probs), c), c);
  }

  lemma {:induction false} FrontIsAhead(probs: Vec, c: seq<nat>, o: seq<nat>, q: nat, x: nat)
    requires Chances(probs, c) && q < |o| && Ranked(KeyOf(probs), o) && forall y: nat :: y in o <==> y in c
    ensures x in o[..q] <==> x < |probs| && Before(KeyOf(probs), x, o[q])
  {
    RankedDistinct(KeyOf(probs), o);
    assert o[q] in o;
    if x in o {
      var k := PlaceOf(o, x);
      PlacesBefore(KeyOf(probs), o, k, q);
      InTakeIff(o, q, k);
    } else {
      TakeMembers(o, q);
    }
  }

  /** Before the qth candidate in that order lies exactly the mass that ranks ahead of it. */
  lemma {:induction false} MassOfFront(probs: Vec, c: seq<nat>, o: seq<nat>, q: nat)
    requires Chances(probs, c) && q < |o| && Ranked(KeyOf(probs), o) && forall y: nat :: y in o <==> y in c
    ensures Mass(probs, o[..q]) == MassAhead(probs, o[q])
  {
    var ahead := AheadList(probs, o[q], |probs|);
    RankedDistinct(KeyOf(probs), o);
    AheadListDistinct(probs, o[q], |probs|);
    forall x: nat ensures x in o[..q] <==> x in ahead {
      FrontIsAhead(probs, c, o, q, x);
    }
    SameMass(probs, o[..q], ahead);
  }

  /** A kept token has less than top_p before it, or nothing. */
  lemma {:induction false} InNucleus(p: Params, probs: Vec, c: seq<nat>, r: nat)
    requires Chances(probs, c) && p.topP < 1.0 && r in Nucleus(p, probs, c)
    ensures MassAhead(probs, r) < p.topP || MassAhead(probs, r) == 0.0
  {
    var o := SortDesc(KeyOf(probs), c);
    var m := NucleusLength(p.topP, probs, o, 0);
    NucleusRanked(probs, c);
    var q := PlaceOf(o[..m], r);
    assert o[q] == r;
    MassOfFront(probs, c, o, q);
    assert o[..0] == [];
  }

  lemma {:induction false} CutKeepsMass(p: Params, probs: Vec, c: seq<nat>)
    requires Chances(probs, c)
    ensures var cut := Cut(probs, Nucleus(p, probs, c));
            NonNegative(cut) && exists i :: 0 <= i < |probs| && cut[i] > 0.0
  {
    var kept := Nucleus(p, probs, c);
    NucleusMembers(p, probs, c);
    assert kept[0] in kept;
    assert Cut(probs, kept)[kept[0]] > 0.0;
  }

  /** Whatever the draw, the token picked was kept and has a positive probability. */
  lemma {:induction false} PickedIsKept(p: Params, probs: Vec, c: seq<nat>, u: real)
    requires Chances(probs, c) && u >= 0.0 && probs != []
    ensures var r := Picked(Cut(probs, Nucleus(p, probs, c)), u);
            r < |probs| && r in Nucleus(p, probs, c) && r in c && probs[r] > 0.0
  {
    CutKeepsMass(p, probs, c);
    PickedHasMass(Cut(probs, Nucleus(p, probs, c)), u);
    NucleusMembers(p, probs, c);
  }

  /** What `Sample` is, in terms of its parts. */
  lemma {:induction false} SampleIs(p: Params, logits: Vec, tokens: seq<nat>, u: real, adjusted: Vec, probs: Vec,
      c: seq<nat>)
    requires logits != [] && adjusted == Adjusted(p, logits, tokens) && probs == Probabilities(p, adjusted)
        && c == Candidates(p, adjusted)
    ensures Sample(p, logits, tokens, u) == Picked(Cut(probs, Nucleus(p, probs, c)), u)
  {
  }

  lemma {:induction false} WeightsChances(probs: Vec, e: Vec, adjusted: Vec, c: seq<nat>, exp: Exponential, max: real)
    requires Weights(e, adjusted, c, exp, max) && Ratios(probs, e) && Increasing(exp)
    requires c != [] && (forall x :: x in c ==> x < |adjusted|) && (Ranked(KeyOf(adjusted), c) || c == Upto(|adjusted|))
    ensures Chances(probs, c)
  {
    forall i, j | 0 <= i < j < |c| ensures TieAt(probs, adjusted, c[i], c[j]) {
      assert c[i] in c && c[j] in c;
      EqualProbabilities(probs, e, adjusted, c, exp, max, c[i], c[j]);
    }
    TiesAscendFrom(probs, adjusted, c);
    forall i | 0 <= i < |probs| ensures probs[i] >= 0.0 && (probs[i] > 0.0 <==> i in c) {
      assert WeightOk(e, adjusted, c, exp, max, i) && RatioAt(probs, e, i, i);
    }
  }

  lemma {:induction false} SamplerChances(p: Params, adjusted: Vec, probs: Vec, c: seq<nat>)
    requires adjusted != [] && Increasing(p.exp) && probs == Probabilities(p, adjusted) && c == Candidates(p, adjusted)
    ensures Chances(probs, c)
  {
    CandidatesFit(p, adjusted);
    SomeScoreIsFinite(p, adjusted);
    var e, max := ProbabilityWeights(p.exp, adjusted, c);
    WeightsChances(probs, e, adjusted, c, p.exp, max);
  }

  /** For every logit vector and every draw: the token returned is one of the vocabulary with a positive
      probability; fewer than top_k tokens rank before it; and what ranks before it does not reach top_p. */
  lemma {:induction false} SampleSupport(p: Params, logits: Vec, tokens: seq<nat>, u: real, adjusted: Vec, probs: Vec)
    requires logits != [] && u >= 0.0 && Increasing(p.exp)
    requires adjusted == Adjusted(p, logits, tokens) && probs == Probabilities(p, adjusted)
    ensures var r := Sample(p, logits, tokens, u);
      && r < |logits| && probs[r] > 0.0
      && (0 < p.topK < |logits| ==> |Ahead(KeyOf(adjusted), |logits|, r)| < p.topK)
      && (p.topP < 1.0 ==> MassAhead(probs, r) < p.topP || MassAhead(probs, r) == 0.0)
  {
    var c := Candidates(p, adjusted);
    SampleIs(p, logits, tokens, u, adjusted, probs, c);
    SamplerChances(p, adjusted, probs, c);
    PickedSupport(p, adjusted, probs, c, u, Picked(Cut(probs, Nucleus(p, probs, c)), u));
  }

  lemma {:induction false} PickedSupport(p: Params, adjusted: Vec, probs: Vec, c: seq<nat>, u: real, r: nat)
    requires Chances(probs, c) && |adjusted| == |probs| > 0 && u >= 0.0
        && r == Picked(Cut(probs, Nucleus(p, probs, c)), u)
    requires 0 < p.topK < |adjusted| ==> c == Candidates(p, adjusted)
    ensures r < |probs| && probs[r] > 0.0
    ensures 0 < p.topK < |probs| ==> |Ahead(KeyOf(adjusted), |probs|, r)| < p.topK
    ensures p.topP < 1.0 ==> MassAhead(probs, r) < p.topP || MassAhead(probs, r) == 0.0
  {
    PickedIsKept(p, probs, c, u);
    if 0 < p.topK < |probs| {
      CandidateIff(p, adjusted, r);
    }
    if p.topP < 1.0 {
      InNucleus(p, probs, c, r);
    }
  }
}
