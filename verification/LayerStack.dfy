/** The model above its layers (rust/src/laurelia/model.rs): the plain forward over a whole sequence, the
    forward with one cache a layer, and generation, which feeds one token at a time. */
module LayerStacks {
  import opened Bytes
  import opened Attentions

  type Token = nat

  function Map(f: Vec -> Vec, xs: seq<Vec>): (r: seq<Vec>)
    ensures |r| == |xs|
    ensures forall i :: 0 <= i < |xs| ==> r[i] == f(xs[i])
  {
    seq(|xs|, i requires 0 <= i < |xs| => f(xs[i]))
  }

  /** A layer over a cache type: the plain forward, and the one that takes and returns a cache. */
  datatype Layer<!C> = Layer(
    forward: seq<Vec> -> seq<Vec>,
    cached: (seq<Vec>, nat, Option<C>) -> (seq<Vec>, C))

  /** Rows depend only on earlier rows. */
  ghost predicate CausalAt<C>(layer: Layer<C>, x: seq<Vec>, n: nat)
  {
    |layer.forward(x)| == |x| && (n <= |x| ==> layer.forward(x)[..n] == layer.forward(x[..n]))
  }

  /** One more position on the cache of a prefix gives the new last row and the cache of the longer prefix. */
  ghost predicate StepAt<C(!new)>(layer: Layer<C>, cacheOf: seq<Vec> -> Option<C>, x: seq<Vec>, y: Vec)
  {
    var (h, c) := layer.cached([y], |x|, cacheOf(x));
    |x| < |layer.forward(x + [y])| && h == [layer.forward(x + [y])[|x|]] && Some(c) == cacheOf(x + [y])
  }

  /** What a layer must keep to. */
  ghost predicate Agrees<C(!new)>(layer: Layer<C>, cacheOf: seq<Vec> -> Option<C>)
  {
    && cacheOf([]) == None
    && (forall x, n :: CausalAt(layer, x, n))
    && (forall x, y :: StepAt(layer, cacheOf, x, y))
  }

  datatype LLM<!C(!new)> = LLM(embed: Token -> Vec, layers: seq<Layer<C>>, normF: Vec -> Vec, lmHead: Vec -> Vec)
  {
    function Embed(ids: seq<Token>): (x: seq<Vec>)
      ensures |x| == |ids|
    {
      seq(|ids|, i requires 0 <= i < |ids| => embed(ids[i]))
    }

    function Head(x: seq<Vec>): (r: seq<Vec>)
      ensures |r| == |x|
    {
      Map(lmHead, Map(normF, x))
    }

    // --- The plain forward ---

    /** The input of layer l when the whole sequence goes through at once. */
    function Hidden(ids: seq<Token>, l: nat): seq<Vec>
      requires l <= |layers|
    {
      if l == 0 then Embed(ids) else layers[l - 1].forward(Hidden(ids, l - 1))
    }

    function Logits(ids: seq<Token>): seq<Vec> { Head(Hidden(ids, |layers|)) }

    /** The last row of the plain forward; empty before the first token. */
    function LastLogits(ids: seq<Token>): Vec
    {
      var r := Logits(ids);
      if r == [] then [] else r[|r| - 1]
    }

    method Forward(ids: seq<Token>) returns (logits: seq<Vec>)
      ensures logits == Logits(ids)
    {
      var x := Embed(ids);
      for l := 0 to |layers|
        invariant x == Hidden(ids, l)
      {
        x := layers[l].forward(x);
      }
      x := Map(normF, x);
      return Map(lmHead, x);
    }

    // --- The forward with caches ---

    /** Layers l and up on the given input: the output and the caches afterwards. */
    function Layers(x: seq<Vec>, offset: nat, caches: seq<Option<C>>, l: nat): (r: (seq<Vec>, seq<Option<C>>))
      requires |caches| == |layers| && l <= |layers|
      ensures |r.1| == |layers|
      decreases |layers| - l
    {
      if l == |layers| then (x, caches)
      else
        var (h, newCache) := layers[l].cached(x, offset, caches[l]);
        Layers(h, offset, caches[l := Some(newCache)], l + 1)
    }

    function CachedLogits(ids: seq<Token>, offset: nat, caches: seq<Option<C>>): (r: (seq<Vec>, seq<Option<C>>))
      requires |caches| == |layers|
      ensures |r.1| == |layers|
    {
      var (x, after) := Layers(Embed(ids), offset, caches, 0);
      (Head(x), after)
    }

    method ForwardWithCache(ids: seq<Token>, offset: nat, caches: array<Option<C>>) returns (logits: seq<Vec>)
      requires caches.Length == |layers|
      modifies caches
      ensures (logits, caches[..]) == CachedLogits(ids, offset, old(caches[..]))
    {
      var x := Embed(ids);
      for l := 0 to |layers|
        invariant Layers(x, offset, caches[..], l) == Layers(Embed(ids), offset, old(caches[..]), 0)
      {
        var (h, newCache) := layers[l].cached(x, offset, caches[l]);
        ghost var before := caches[..];
        caches[l] := Some(newCache);
        assert caches[..] == before[l := Some(newCache)];
        x := h;
      }
      x := Map(normF, x);
      logits := Map(lmHead, x);
    }

    // --- The two agree ---

    ghost predicate LayersAgree(cacheOf: seq<seq<Vec> -> Option<C>>)
    {
      |cacheOf| == |layers| && forall l :: 0 <= l < |layers| ==> Agrees(layers[l], cacheOf[l])
    }

    lemma {:induction false} HiddenLength(cacheOf: seq<seq<Vec> -> Option<C>>, ids: seq<Token>, l: nat)
      requires LayersAgree(cacheOf) && l <= |layers|
      ensures |Hidden(ids, l)| == |ids|
    {
      if l > 0 {
        HiddenLength(cacheOf, ids, l - 1);
        assert Agrees(layers[l - 1], cacheOf[l - 1]);
        assert CausalAt(layers[l - 1], Hidden(ids, l - 1), 0);
      }
    }

    lemma {:induction false} HiddenOfPrefix(cacheOf: seq<seq<Vec> -> Option<C>>, ids: seq<Token>, n: nat, l: nat)
      requires LayersAgree(cacheOf) && l <= |layers| && n <= |ids|
      ensures |Hidden(ids, l)| == |ids| && Hidden(ids, l)[..n] == Hidden(ids[..n], l)
    {
      HiddenLength(cacheOf, ids, l);
      if l > 0 {
        HiddenLength(cacheOf, ids, l - 1);
        HiddenOfPrefix(cacheOf, ids, n, l - 1);
        assert Agrees(layers[l - 1], cacheOf[l - 1]);
        assert CausalAt(layers[l - 1], Hidden(ids, l - 1), n);
      }
    }

    /** The row of the newest token at the input of layer l. */
    ghost function NewRow(ids: seq<Token>, t: Token, l: nat): Vec
      requires l <= |layers|
    {
      var x := Hidden(ids + [t], l);
      if |ids| < |x| then x[|ids|] else []
    }

    lemma HiddenSplits(cacheOf: seq<seq<Vec> -> Option<C>>, ids: seq<Token>, t: Token, l: nat)
      requires LayersAgree(cacheOf) && l <= |layers|
      ensures Hidden(ids + [t], l) == Hidden(ids, l) + [NewRow(ids, t, l)] && |Hidden(ids, l)| == |ids|
    {
      HiddenOfPrefix(cacheOf, ids + [t], |ids|, l);
      assert (ids + [t])[..|ids|] == ids;
    }

    /** The caches half-way through a step: the layers below l have the new token, those above do not. */
    function MixedCaches(cacheOf: seq<seq<Vec> -> Option<C>>, ids: seq<Token>, t: Token, l: nat): (c: seq<Option<C>>)
      requires |cacheOf| == |layers|
      ensures |c| == |layers|
    {
      seq(|layers|, k requires 0 <= k < |layers| => cacheOf[k](Hidden(if k < l then ids + [t] else ids, k)))
    }

    lemma MixedCachesStep(cacheOf: seq<seq<Vec> -> Option<C>>, ids: seq<Token>, t: Token, l: nat)
      requires |cacheOf| == |layers| && l < |layers|
      ensures MixedCaches(cacheOf, ids, t, l)[l] == cacheOf[l](Hidden(ids, l))
      ensures MixedCaches(cacheOf, ids, t, l)[l := cacheOf[l](Hidden(ids + [t], l))] == MixedCaches(cacheOf, ids, t,
          l + 1)
    {
    }

    /** Each layer's cache after a prefix. */
    function CachesOf(cacheOf: seq<seq<Vec> -> Option<C>>, ids: seq<Token>): (c: seq<Option<C>>)
      requires |cacheOf| == |layers|
      ensures |c| == |layers|
    {
      seq(|layers|, k requires 0 <= k < |layers| => cacheOf[k](Hidden(ids, k)))
    }

    lemma LayerStep(cacheOf: seq<seq<Vec> -> Option<C>>, ids: seq<Token>, t: Token, l: nat)
      requires LayersAgree(cacheOf) && l < |layers|
      ensures var (h, c) := layers[l].cached([NewRow(ids, t, l)], |ids|, cacheOf[l](Hidden(ids, l)));
              h == [NewRow(ids, t, l + 1)] && Some(c) == cacheOf[l](Hidden(ids + [t], l))
    {
      HiddenSplits(cacheOf, ids, t, l);
      HiddenLength(cacheOf, ids + [t], l + 1);
      assert Agrees(layers[l], cacheOf[l]);
      assert StepAt(layers[l], cacheOf[l], Hidden(ids, l), NewRow(ids, t, l));
    }

    lemma LayersUnfold(x: seq<Vec>, offset: nat, caches: seq<Option<C>>, l: nat, h: seq<Vec>, next: seq<Option<C>>)
      requires |caches| == |layers| && l < |layers|
      requires layers[l].cached(x, offset, caches[l]).0 == h
      requires caches[l := Some(layers[l].cached(x, offset, caches[l]).1)] == next
      ensures Layers(x, offset, caches, l) == Layers(h, offset, next, l + 1)
    {
    }

    /** What the layers from l on make of a step whose lower layers are done. */
    ghost function FromLayer(cacheOf: seq<seq<Vec> -> Option<C>>, ids: seq<Token>, t: Token, l: nat): (seq<Vec>,
        seq<Option<C>>)
      requires |cacheOf| == |layers| && l <= |layers|
    {
      Layers([NewRow(ids, t, l)], |ids|, MixedCaches(cacheOf, ids, t, l), l)
    }

    lemma FromLayerStep(cacheOf: seq<seq<Vec> -> Option<C>>, ids: seq<Token>, t: Token, l: nat)
      requires LayersAgree(cacheOf) && l < |layers|
      ensures FromLayer(cacheOf, ids, t, l) == FromLayer(cacheOf, ids, t, l + 1)
    {
      LayerStep(cacheOf, ids, t, l);
      MixedCachesStep(cacheOf, ids, t, l);
      LayersUnfold([NewRow(ids, t, l)], |ids|, MixedCaches(cacheOf, ids, t, l), l,
        [NewRow(ids, t, l + 1)], MixedCaches(cacheOf, ids, t, l + 1));
    }

    lemma FromLayerEnds(cacheOf: seq<seq<Vec> -> Option<C>>, ids: seq<Token>, t: Token)
      requires |cacheOf| == |layers|
      ensures FromLayer(cacheOf, ids, t, |layers|) == ([NewRow(ids, t, |layers|)], CachesOf(cacheOf, ids + [t]))
      ensures FromLayer(cacheOf, ids, t, 0) == Layers([NewRow(ids, t, 0)], |ids|, CachesOf(cacheOf, ids), 0)
    {
      assert MixedCaches(cacheOf, ids, t, |layers|) == CachesOf(cacheOf, ids + [t]);
      assert MixedCaches(cacheOf, ids, t, 0) == CachesOf(cacheOf, ids);
    }

    ghost predicate LayerKeeps(cacheOf: seq<seq<Vec> -> Option<C>>, ids: seq<Token>, t: Token, l: nat)
      requires |cacheOf| == |layers| && l < |layers|
    {
      FromLayer(cacheOf, ids, t, l) == FromLayer(cacheOf, ids, t, l + 1)
    }

    lemma {:induction false} LayersKeep(cacheOf: seq<seq<Vec> -> Option<C>>, ids: seq<Token>, t: Token, l: nat)
      requires |cacheOf| == |layers| && l <= |layers|
      requires forall k :: 0 <= k < l ==> LayerKeeps(cacheOf, ids, t, k)
      ensures FromLayer(cacheOf, ids, t, 0) == FromLayer(cacheOf, ids, t, l)
    {
      if l > 0 {
        LayersKeep(cacheOf, ids, t, l - 1);
        assert LayerKeeps(cacheOf, ids, t, l - 1);
      }
    }

    lemma AllLayersStep(cacheOf: seq<seq<Vec> -> Option<C>>, ids: seq<Token>, t: Token)
      requires LayersAgree(cacheOf)
      ensures FromLayer(cacheOf, ids, t, 0) == FromLayer(cacheOf, ids, t, |layers|)
    {
      forall k | 0 <= k < |layers| ensures LayerKeeps(cacheOf, ids, t, k) {
        FromLayerStep(cacheOf, ids, t, k);
      }
      LayersKeep(cacheOf, ids, t, |layers|);
    }

    /** One token through the caches of its prefix gives the last row of the plain forward on the longer
        prefix, and leaves the caches of that prefix. */
    lemma CachedStepAgrees(cacheOf: seq<seq<Vec> -> Option<C>>, ids: seq<Token>, t: Token)
      requires LayersAgree(cacheOf)
      ensures CachedLogits([t], |ids|, CachesOf(cacheOf, ids)) == ([LastLogits(ids + [t])],
          CachesOf(cacheOf, ids + [t]))
    {
      AllLayersStep(cacheOf, ids, t);
      FromLayerEnds(cacheOf, ids, t);
      assert Embed([t]) == [NewRow(ids, t, 0)];
      HiddenLength(cacheOf, ids + [t], |layers|);
      assert Head([NewRow(ids, t, |layers|)]) == [LastLogits(ids + [t])];
    }

    function NoCaches(): (c: seq<Option<C>>)
      ensures |c| == |layers|
    {
      seq(|layers|, _ => None)
    }

    lemma NoCachesAtStart(cacheOf: seq<seq<Vec> -> Option<C>>)
      requires LayersAgree(cacheOf)
      ensures CachesOf(cacheOf, []) == NoCaches()
    {
      forall k | 0 <= k < |layers| ensures cacheOf[k](Hidden([], k)) == None {
        HiddenLength(cacheOf, [], k);
        assert Hidden([], k) == [];
        assert Agrees(layers[k], cacheOf[k]);
      }
    }

    /** Feed tokens one at a time at offsets 0, 1, 2, ..: the logits of every step, and the caches at the end. */
    function Feed(ids: seq<Token>): (r: (seq<Vec>, seq<Option<C>>))
      ensures |r.1| == |layers|
    {
      if ids == [] then ([], NoCaches())
      else
        var n := |ids| - 1;
        var (logits, caches) := Feed(ids[..n]);
        var (row, after) := CachedLogits([ids[n]], n, caches);
        (logits + row, after)
    }

    lemma {:induction false} FeedSteps(cacheOf: seq<seq<Vec> -> Option<C>>, ids: seq<Token>)
      requires LayersAgree(cacheOf)
      ensures Feed(ids).1 == CachesOf(cacheOf, ids)
      ensures |Feed(ids).0| == |ids|
      ensures forall i :: 0 <= i < |ids| ==> Feed(ids).0[i] == LastLogits(ids[..i + 1])
    {
      if ids == [] {
        NoCachesAtStart(cacheOf);
      } else {
        var n := |ids| - 1;
        FeedSteps(cacheOf, ids[..n]);
        CachedStepAgrees(cacheOf, ids[..n], ids[n]);
        assert ids[..n] + [ids[n]] == ids == ids[..n + 1];
        forall i | 0 <= i < n ensures Feed(ids).0[i] == LastLogits(ids[..i + 1]) {
          assert ids[..n][..i + 1] == ids[..i + 1];
        }
      }
    }

    lemma LogitsOfPrefix(cacheOf: seq<seq<Vec> -> Option<C>>, ids: seq<Token>, n: nat)
      requires LayersAgree(cacheOf) && 0 < n <= |ids|
      ensures |Logits(ids)| == |ids| && LastLogits(ids[..n]) == Logits(ids)[n - 1]
    {
      HiddenOfPrefix(cacheOf, ids, n, |layers|);
    }

    /** At every step the cached logits are the last row of the plain forward on that prefix, and all of
        them together are the plain forward on the whole sequence. */
    lemma FeedAgrees(cacheOf: seq<seq<Vec> -> Option<C>>, ids: seq<Token>)
      requires LayersAgree(cacheOf)
      ensures Feed(ids).1 == CachesOf(cacheOf, ids)
      ensures |Feed(ids).0| == |ids|
      ensures forall i :: 0 <= i < |ids| ==> Feed(ids).0[i] == LastLogits(ids[..i + 1])
      ensures Feed(ids).0 == Logits(ids)
    {
      FeedSteps(cacheOf, ids);
      HiddenLength(cacheOf, ids, |layers|);
      forall i | 0 <= i < |ids| ensures Feed(ids).0[i] == Logits(ids)[i] {
        LogitsOfPrefix(cacheOf, ids, i + 1);
      }
    }

    // --- Generation ---

    /** What the sampler is given: zeros before any token, then the plain forward's last row. */
    function NextLogits(tokens: seq<Token>, vocab: nat): Vec
    {
      if tokens == [] then seq(vocab, _ => 0.0) else LastLogits(tokens)
    }

    /** Generation without any cache: each next token is picked from the plain forward on all so far. */
    function Generated(tokens: seq<Token>, gen: nat, vocab: nat, pick: (Vec, seq<Token>, real) -> Token,
        draws: seq<real>, eos: Option<Token>): seq<Token>
      requires gen <= |draws|
      decreases |draws| - gen
    {
      if gen == |draws| then tokens
      else
        var next := pick(NextLogits(tokens, vocab), tokens, draws[gen]);
        if eos == Some(next) then tokens
        else Generated(tokens + [next], gen + 1, vocab, pick, draws, eos)
    }

    /** One token through the caches, as both loops of `generate` do it. */
    method StepToken(t: Token, offset: nat, caches: array<Option<C>>, ghost cacheOf: seq<seq<Vec> -> Option<C>>,
        ghost ids: seq<Token>) returns (logits: Vec)
      requires LayersAgree(cacheOf) && caches[..] == CachesOf(cacheOf, ids) && offset == |ids|
      modifies caches
      ensures caches[..] == CachesOf(cacheOf, ids + [t]) && logits == LastLogits(ids + [t])
    {
      CachedStepAgrees(cacheOf, ids, t);
      var rows := ForwardWithCache([t], offset, caches);
      logits := rows[0];
    }

    /** The first loop of `generate`: the prompt, token by token. */
    method FeedPrompt(inputIds: seq<Token>, vocab: nat, caches: array<Option<C>>,
        ghost cacheOf: seq<seq<Vec> -> Option<C>>) returns (logits: Vec)
      requires LayersAgree(cacheOf) && caches[..] == CachesOf(cacheOf, [])
      modifies caches
      ensures caches[..] == CachesOf(cacheOf, inputIds) && logits == NextLogits(inputIds, vocab)
    {
      logits := seq(vocab, _ => 0.0);
      for i := 0 to |inputIds|
        invariant caches[..] == CachesOf(cacheOf, inputIds[..i])
        invariant logits == NextLogits(inputIds[..i], vocab)
      {
        assert inputIds[..i + 1] == inputIds[..i] + [inputIds[i]];
        logits := StepToken(inputIds[i], i, caches, cacheOf, inputIds[..i]);
      }
      assert inputIds[..|inputIds|] == inputIds;
    }

    /** `generate`: one random draw for each token asked for; `pick` is the sampler. */
    method Generate(inputIds: seq<Token>, vocab: nat, pick: (Vec, seq<Token>, real) -> Token, draws: seq<real>,
        eos: Option<Token>, ghost cacheOf: seq<seq<Vec> -> Option<C>>) returns (all: seq<Token>)
      requires LayersAgree(cacheOf)
      ensures all == Generated(inputIds, 0, vocab, pick, draws, eos)
    {
      var caches := new Option<C>[|layers|](_ => None);
      NoCachesAtStart(cacheOf);
      assert caches[..] == NoCaches();
      var tokens := inputIds;
      var logits := FeedPrompt(inputIds, vocab, caches, cacheOf);
      for gen := 0 to |draws|
        invariant caches[..] == CachesOf(cacheOf, tokens) && |tokens| == |inputIds| + gen
        invariant logits == NextLogits(tokens, vocab)
        invariant Generated(tokens, gen, vocab, pick, draws, eos) == Generated(inputIds, 0, vocab, pick, draws, eos)
      {
        var next := pick(logits, tokens, draws[gen]);
        if eos == Some(next) {
          return tokens;
        }
        logits := StepToken(next, |inputIds| + gen, caches, cacheOf, tokens);
        tokens := tokens + [next];
      }
      return tokens;
    }
  }
}
