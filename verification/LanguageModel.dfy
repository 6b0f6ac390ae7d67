/** The transformer block (rust/src/laurelia/block.rs) as a layer of the model. */
module LanguageModels {
  import opened Bytes
  import opened Attentions
  import opened LayerStacks

  function AddRows(a: seq<Vec>, b: seq<Vec>): (r: seq<Vec>)
    requires |a| == |b|
    ensures |r| == |a|
    ensures forall i :: 0 <= i < |a| ==> r[i] == AddVec(a[i], b[i])
  {
    seq(|a|, i requires 0 <= i < |a| => AddVec(a[i], b[i]))
  }

  datatype Block = Block(ln1: Vec -> Vec, attn: Attention, ln2: Vec -> Vec, mlp: Vec -> Vec)
  {
    predicate Valid() { attn.Valid() && attn.causal }

    /** The feed-forward half of the layer. */
    function FeedForward(x: seq<Vec>): (r: seq<Vec>)
      ensures |r| == |x|
    {
      AddRows(x, Map(mlp, Map(ln2, x)))
    }

    function Forward(x: seq<Vec>): (r: seq<Vec>)
      requires Valid()
      ensures |r| == |x|
    {
      var h := attn.Forward(Map(ln1, x), 0);
      FeedForward(AddRows(x, h))
    }

    function ForwardWithCache(x: seq<Vec>, offset: nat, cache: Option<KVCache>): (r: (seq<Vec>, KVCache))
      requires Valid() && attn.HasShape(cache)
      ensures |r.0| == |x| && attn.HasShape(Some(r.1))
    {
      var (h, newCache) := attn.ForwardWithCache(Map(ln1, x), offset, cache);
      (FeedForward(AddRows(x, h)), newCache)
    }

    // --- Position by position ---

    function FeedForwardAt(x: Vec): Vec { AddVec(x, mlp(ln2(x))) }

    /** The output at the last position of a non-empty prefix of layer inputs. */
    function LastOutput(x: seq<Vec>): Vec
      requires Valid() && x != []
    {
      FeedForwardAt(AddVec(x[|x| - 1], attn.LastOutput(Map(ln1, x))))
    }

    function CacheOf(x: seq<Vec>): (c: Option<KVCache>)
      ensures attn.HasShape(c)
    {
      attn.CacheOf(Map(ln1, x))
    }

    lemma ForwardRow(x: seq<Vec>, i: nat)
      requires Valid() && i < |x|
      ensures Forward(x)[i] == LastOutput(x[..i + 1])
    {
      attn.ForwardRow(Map(ln1, x), i);
      assert Map(ln1, x)[..i + 1] == Map(ln1, x[..i + 1]);
    }

    /** Causality: what comes later changes no earlier row. */
    lemma ForwardOfPrefix(x: seq<Vec>, n: nat)
      requires Valid() && n <= |x|
      ensures Forward(x)[..n] == Forward(x[..n])
    {
      forall i | 0 <= i < n ensures Forward(x)[i] == Forward(x[..n])[i] {
        RowOfPrefix(x, n, i);
      }
    }

    lemma RowOfPrefix(x: seq<Vec>, n: nat, i: nat)
      requires Valid() && i < n <= |x|
      ensures Forward(x)[i] == Forward(x[..n])[i]
    {
      assert x[..n][..i + 1] == x[..i + 1];
      ForwardRow(x, i);
      ForwardRow(x[..n], i);
    }

    /** One more position through the cache is the new last row of the plain forward. */
    lemma CachedStep(x: seq<Vec>, y: Vec)
      requires Valid()
      ensures ForwardWithCache([y], |x|, CacheOf(x)) == ([Forward(x + [y])[|x|]], CacheOf(x + [y]).value)
    {
      attn.CachedStep(Map(ln1, x), ln1(y));
      assert Map(ln1, [y]) == [ln1(y)];
      assert Map(ln1, x + [y]) == Map(ln1, x) + [ln1(y)];
      ForwardRow(x + [y], |x|);
      assert (x + [y])[..|x| + 1] == x + [y];
      SinglePosition(y, attn.LastOutput(Map(ln1, x + [y])));
    }

    lemma SinglePosition(y: Vec, h: Vec)
      ensures FeedForward(AddRows([y], [h])) == [FeedForwardAt(AddVec(y, h))]
    {
    }

    lemma Prefill(x: seq<Vec>)
      requires Valid() && x != []
      ensures ForwardWithCache(x, 0, None) == (Forward(x), CacheOf(x).value)
    {
      attn.Prefill(Map(ln1, x));
    }
  }

  /** A block as its two forwards. A cache of another shape, which candle rejects, is answered with an empty one. */
  function BlockLayer(b: Block): Layer<KVCache>
    requires b.Valid()
  {
    Layer((x: seq<Vec>) => b.Forward(x),
          (x: seq<Vec>, offset: nat, cache: Option<KVCache>) =>
            if b.attn.HasShape(cache) then b.ForwardWithCache(x, offset, cache) else (x, KVCache([], [])))
  }

  function BlockCache(b: Block): seq<Vec> -> Option<KVCache> { (x: seq<Vec>) => b.CacheOf(x) }

  /** The two forwards of a block agree, whatever its weights. */
  lemma BlockAgrees(b: Block)
    requires b.Valid()
    ensures Agrees(BlockLayer(b), BlockCache(b))
  {
    var layer, cacheOf := BlockLayer(b), BlockCache(b);
    forall x: seq<Vec>, n: nat ensures CausalAt(layer, x, n) {
      if n <= |x| {
        b.ForwardOfPrefix(x, n);
      }
    }
    forall x: seq<Vec>, y: Vec ensures StepAt(layer, cacheOf, x, y) {
      b.CachedStep(x, y);
    }
  }

  /** The transformer of a list of blocks. */
  function Transformer(embed: Token -> Vec, blocks: seq<Block>, normF: Vec -> Vec, lmHead: Vec -> Vec): LLM<KVCache>
    requires forall l :: 0 <= l < |blocks| ==> blocks[l].Valid()
  {
    LLM(embed, seq(|blocks|, l requires 0 <= l < |blocks| => BlockLayer(blocks[l])), normF, lmHead)
  }

  /** The main result. Feed any tokens one at a time at offsets 0, 1, 2, ..: at every step the logits are
      the last row of the plain causal forward on that prefix, and each block's cache holds exactly the
      rotated keys and the values of that prefix. */
  lemma CachedInferenceAgrees(embed: Token -> Vec, blocks: seq<Block>, normF: Vec -> Vec, lmHead: Vec -> Vec,
      ids: seq<Token>)
    requires forall l :: 0 <= l < |blocks| ==> blocks[l].Valid()
    ensures var m := Transformer(embed, blocks, normF, lmHead);
            && m.Feed(ids).0 == m.Logits(ids)
            && |m.Feed(ids).0| == |ids|
            && (forall i :: 0 <= i < |ids| ==> m.Feed(ids).0[i] == m.LastLogits(ids[..i + 1]))
            && |m.Feed(ids).1| == |blocks|
            && forall l :: 0 <= l < |blocks| ==> m.Feed(ids).1[l] == blocks[l].CacheOf(m.Hidden(ids, l))
  {
    var m := Transformer(embed, blocks, normF, lmHead);
    var cacheOf := seq(|blocks|, l requires 0 <= l < |blocks| => BlockCache(blocks[l]));
    forall l | 0 <= l < |blocks| ensures Agrees(m.layers[l], cacheOf[l]) {
      BlockAgrees(blocks[l]);
    }
    m.FeedAgrees(cacheOf, ids);
  }
}
