/** The whole model: embeddings, the stack of blocks, the output head, and the two ways to run it. */
module Gpt2 {
  import opened Tensors
  import opened MaskedSoftmax
  import opened Transformer

  type Token = nat

  /** `d` is the embedding width; the vocabulary is as large as the token embedding. */
  datatype GPT2 = GPT2(an: Analysis, wte: Matrix, wpe: Matrix, blocks: seq<Block>, lnF: LayerNorm, lmHead: Matrix,
                       d: nat, nPositions: nat, eos: Token)
  {
    ghost predicate Valid() {
      && an.Valid() && d > 0 && wte != []
      && Width(wte, d) && Shape(wpe, nPositions, d)
      && (forall l | 0 <= l < |blocks| :: blocks[l].Valid(d) && blocks[l].layerId == l)
      && |lnF.weights| == |lnF.bias| == d
      && Shape(lmHead, |wte|, d)
    }

    ghost predicate InVocabulary(tokens: seq<Token>) {
      forall i | 0 <= i < |tokens| :: tokens[i] < |wte|
    }

    /** The token sequences the model can be run on. */
    ghost predicate Accepts(tokens: seq<Token>) {
      0 < |tokens| <= nPositions && InVocabulary(tokens)
    }
  }

  // ---------------------------------------------- the simple computation

  function Embed(g: GPT2, tokens: seq<Token>): (r: Matrix)
    requires g.Valid() && g.Accepts(tokens)
    ensures Shape(r, |tokens|, g.d)
  {
    seq(|tokens|, i requires 0 <= i < |tokens| => Add(g.wte[tokens[i]], g.wpe[i]))
  }

  /** The rows entering block `l` when all of `tokens` are computed from scratch. */
  function Hidden(g: GPT2, tokens: seq<Token>, l: nat): (r: Matrix)
    requires g.Valid() && g.Accepts(tokens) && l <= |g.blocks|
    ensures Shape(r, |tokens|, g.d)
  {
    if l == 0 then Embed(g, tokens) else PrefillBlock(g.an, g.blocks[l - 1], g.d, Hidden(g, tokens, l - 1))
  }

  function OutputRow(g: GPT2, x: Row): (logits: Row)
    requires g.Valid() && |x| == g.d
    ensures |logits| == |g.wte|
  {
    TimesTransposed(Normalize(g.an, x, g.lnF), g.lmHead)
  }

  function Logits(g: GPT2, tokens: seq<Token>): (r: Matrix)
    requires g.Valid() && g.Accepts(tokens)
    ensures Shape(r, |tokens|, |g.wte|)
  {
    var hs := Hidden(g, tokens, |g.blocks|);
    seq(|hs|, i requires 0 <= i < |hs| => OutputRow(g, hs[i]))
  }

  /** The K/V rows a full recompute on `tokens` gives layer `l`. */
  function KvOfLayer(g: GPT2, tokens: seq<Token>, l: nat): (r: Matrix)
    requires g.Valid() && g.Accepts(tokens) && l < |g.blocks|
    ensures Shape(r, |tokens|, 2 * g.d)
  {
    KvRows(g.an, g.blocks[l], g.d, Hidden(g, tokens, l))
  }

  // ------------------------------------------------------------- causality

  lemma EmbedPrefix(g: GPT2, tokens: seq<Token>, n: nat)
    requires g.Valid() && g.Accepts(tokens) && 0 < n <= |tokens|
    ensures Embed(g, tokens[..n]) == Embed(g, tokens)[..n]
  {
  }

  /** No row entering any block depends on a later token. */
  lemma {:induction false} StackIsCausal(g: GPT2, tokens: seq<Token>, n: nat, l: nat)
    requires g.Valid() && g.Accepts(tokens) && 0 < n <= |tokens| && l <= |g.blocks|
    ensures Hidden(g, tokens[..n], l) == Hidden(g, tokens, l)[..n]
  {
    hide PrefillBlock;
    if l == 0 {
      EmbedPrefix(g, tokens, n);
    } else {
      var hs := Hidden(g, tokens, l - 1);
      StackIsCausal(g, tokens, n, l - 1);
      BlockIsCausal(g.an, g.blocks[l - 1], g.d, hs, n);
      assert Hidden(g, tokens, l) == PrefillBlock(g.an, g.blocks[l - 1], g.d, hs);
      assert Hidden(g, tokens[..n], l) == PrefillBlock(g.an, g.blocks[l - 1], g.d, hs[..n]);
    }
  }

  /** Appending tokens changes no logits row already there. */
  lemma LogitsAreCausal(g: GPT2, tokens: seq<Token>, n: nat)
    requires g.Valid() && g.Accepts(tokens) && 0 < n <= |tokens|
    ensures Logits(g, tokens[..n]) == Logits(g, tokens)[..n]
  {
    StackIsCausal(g, tokens, n, |g.blocks|);
  }

  lemma KvIsCausal(g: GPT2, tokens: seq<Token>, n: nat, l: nat)
    requires g.Valid() && g.Accepts(tokens) && 0 < n <= |tokens| && l < |g.blocks|
    ensures KvOfLayer(g, tokens[..n], l) == KvOfLayer(g, tokens, l)[..n]
  {
    StackIsCausal(g, tokens, n, l);
    KvRowsOfPrefix(g.an, g.blocks[l], g.d, Hidden(g, tokens, l), n);
  }

  // ------------------------------------------------------------- the cache

  /** Rows `0..n` of every layer of the cache are those a full recompute on `tokens` gives. */
  ghost predicate CacheHolds(g: GPT2, tokens: seq<Token>, cache: array2<Row>, n: nat)
    requires g.Valid() && g.Accepts(tokens)
    reads cache
  {
    && n <= |tokens| && n <= cache.Length0 && |g.blocks| == cache.Length1
    && forall p, l | 0 <= p < n && 0 <= l < |g.blocks| :: cache[p, l] == KvOfLayer(g, tokens, l)[p]
  }

  /** The cache of a prefix serves every continuation of it. */
  lemma CacheServesContinuations(g: GPT2, tokens: seq<Token>, cache: array2<Row>, n: nat)
    requires g.Valid() && g.Accepts(tokens) && 0 < n <= |tokens|
    requires g.Accepts(tokens[..n]) && CacheHolds(g, tokens[..n], cache, n)
    ensures CacheHolds(g, tokens, cache, n)
  {
    forall l | 0 <= l < |g.blocks| ensures KvOfLayer(g, tokens[..n], l) == KvOfLayer(g, tokens, l)[..n] {
      KvIsCausal(g, tokens, n, l);
    }
  }

  /**
   * `GPT2.prefill`: every row through every block; a cache, when given, receives all K/V rows.
   * `blockRows` counts the rows that went through a block.
   */
  method Prefill(g: GPT2, tokens: seq<Token>, cache: array2?<Row>) returns (logits: Matrix, ghost blockRows: nat)
    requires g.Valid() && g.Accepts(tokens)
    requires cache != null ==> |tokens| <= cache.Length0 && |g.blocks| == cache.Length1
    modifies cache
    ensures logits == Logits(g, tokens)
    ensures blockRows == |g.blocks| * |tokens|
    ensures cache != null ==> CacheHolds(g, tokens, cache, |tokens|)
    ensures cache != null ==> forall p, l | |tokens| <= p < cache.Length0 && 0 <= l < cache.Length1 ::
      cache[p, l] == old(cache[p, l])
  {
    hide PrefillBlock, KvRows, OutputRow;
    var hs := Embed(g, tokens);
    blockRows := 0;
    for l := 0 to |g.blocks|
      invariant blockRows == l * |tokens|
      invariant hs == Hidden(g, tokens, l)
      invariant cache != null ==> forall p, l' | 0 <= p < cache.Length0 && 0 <= l' < cache.Length1 ::
        cache[p, l'] == if l' < l && p < |tokens| then KvOfLayer(g, tokens, l')[p] else old(cache[p, l'])
    {
      blockRows := blockRows + |hs|;
      hs := Transformer.Prefill(g.an, g.blocks[l], g.d, hs, cache);
    }
    logits := seq(|hs|, i requires 0 <= i < |hs| => OutputRow(g, hs[i]));
  }

  /**
   * `GPT2.decode`: the last of `tokens` alone, on a cache that holds the rows before it. It gives
   * the last row a full recompute would give, and writes row `position` of each layer, nothing else.
   */
  method Decode(g: GPT2, ghost tokens: seq<Token>, token: Token, position: nat, cache: array2<Row>)
    returns (logits: Matrix, ghost blockRows: nat)
    requires g.Valid() && g.Accepts(tokens)
    requires position == |tokens| - 1 && token == tokens[position] && position < cache.Length0
    requires CacheHolds(g, tokens, cache, position)
    modifies cache
    ensures logits == [Logits(g, tokens)[position]]
    ensures blockRows == |g.blocks|
    ensures CacheHolds(g, tokens, cache, position + 1)
    ensures forall p, l | 0 <= p < cache.Length0 && 0 <= l < cache.Length1 && p != position ::
      cache[p, l] == old(cache[p, l])
  {
    hide PrefillBlock, DecodeBlock, KvRows, OutputRow, Project, PackKV;
    var x := Add(g.wte[token], g.wpe[position]);
    blockRows := 0;
    for l := 0 to |g.blocks|
      invariant blockRows == l
      invariant x == Hidden(g, tokens, l)[position]
      invariant forall p, l' | 0 <= p < cache.Length0 && 0 <= l' < cache.Length1 ::
        cache[p, l'] == if l' < l && p == position then KvOfLayer(g, tokens, l')[p] else old(cache[p, l'])
    {
      ghost var hs, kv := Hidden(g, tokens, l), KvOfLayer(g, tokens, l);
      assert CachedRows(cache, l, position) == kv[..position];
      blockRows := blockRows + 1;
      KvRowsAt(g.an, g.blocks[l], g.d, hs, position);
      x := Transformer.Decode(g.an, g.blocks[l], g.d, x, cache, position);
      assert CachedRows(cache, l, position + 1) == kv[..position + 1];
      DecodeIsPrefillRow(g.an, g.blocks[l], g.d, hs, position);
    }
    logits := [OutputRow(g, x)];
  }
}
