/** `generate_with_metadata`: the sampling loop, with and without the cache. */
module Generation {
  import opened Tensors
  import opened MaskedSoftmax
  import opened Gpt2

  /**
   * `multinomial` and the generator behind it: a draw takes the probabilities and the generator's
   * state (its bits as a number) and gives an index and the next state.
   */
  datatype Sampler = Sampler(multinomial: (Row, nat) -> (nat, nat)) {
    ghost predicate Valid() {
      forall p, state | IsDistribution(p) :: multinomial(p, state).0 < |p|
    }
  }

  /** A draw from the softmax of one row of logits. */
  function Draw(g: GPT2, s: Sampler, row: Row, state: nat): (r: (Token, nat))
    requires g.Valid() && s.Valid() && |row| == |g.wte|
    ensures r.0 < |g.wte|
  {
    SoftmaxIsDistribution(g.an, Unmasked(row));
    s.multinomial(Softmax(g.an, Unmasked(row)), state)
  }

  /** The draw is `multinomial` on the one distribution in the ratio of the row's exponentials. */
  lemma DrawSamplesSoftmax(g: GPT2, s: Sampler, row: Row, state: nat, p: Row)
    requires g.Valid() && s.Valid() && |row| == |g.wte| && IsSoftmaxOf(g.an, p, row)
    ensures Draw(g, s, row, state) == s.multinomial(p, state)
  {
    SoftmaxIsUnique(g.an, row, p);
  }

  /** `poll_token_from_logits`: the draw from the last row. */
  function Poll(g: GPT2, s: Sampler, logits: Matrix, state: nat): (r: (Token, nat))
    requires g.Valid() && s.Valid() && logits != [] && |logits[|logits| - 1]| == |g.wte|
    ensures r.0 < |g.wte|
  {
    Draw(g, s, logits[|logits| - 1], state)
  }

  lemma PollSamplesLastRow(g: GPT2, s: Sampler, logits: Matrix, state: nat, p: Row)
    requires g.Valid() && s.Valid() && logits != [] && |logits[|logits| - 1]| == |g.wte|
    requires IsSoftmaxOf(g.an, p, logits[|logits| - 1])
    ensures Poll(g, s, logits, state) == s.multinomial(p, state)
  {
    DrawSamplesSoftmax(g, s, logits[|logits| - 1], state, p);
  }

  /** The run without a cache: recompute everything, draw, append, until the limit or EOS. */
  function Run(g: GPT2, s: Sampler, tokens: seq<Token>, state: nat, limit: int): (r: seq<Token>)
    requires g.Valid() && s.Valid() && tokens != [] && g.InVocabulary(tokens) && limit <= g.nPositions
    decreases limit - |tokens|
  {
    if |tokens| >= limit then tokens
    else
      var (token, state') := Poll(g, s, Logits(g, tokens), state);
      if token == g.eos then tokens + [token] else Run(g, s, tokens + [token], state', limit)
  }

  /** One iteration of the run, from any logits whose last row is that of the recompute. */
  lemma RunSteps(g: GPT2, s: Sampler, tokens: seq<Token>, logits: Matrix, state: nat, limit: int)
    requires g.Valid() && s.Valid() && g.Accepts(tokens) && |tokens| < limit <= g.nPositions
    requires logits != [] && logits[|logits| - 1] == Logits(g, tokens)[|tokens| - 1]
    ensures var (token, state') := Poll(g, s, logits, state);
      Run(g, s, tokens, state, limit)
      == if token == g.eos then tokens + [token] else Run(g, s, tokens + [token], state', limit)
  {
  }

  lemma RunStops(g: GPT2, s: Sampler, tokens: seq<Token>, state: nat, limit: int)
    requires g.Valid() && s.Valid() && tokens != [] && g.InVocabulary(tokens) && limit <= g.nPositions
    ensures |tokens| >= limit ==> Run(g, s, tokens, state, limit) == tokens
  {
  }

  /** What a run keeps and where it can stop. */
  lemma {:induction false} RunProperties(g: GPT2, s: Sampler, tokens: seq<Token>, state: nat, limit: int)
    requires g.Valid() && s.Valid() && tokens != [] && g.InVocabulary(tokens) && limit <= g.nPositions
    ensures var r := Run(g, s, tokens, state, limit);
      && tokens <= r && g.InVocabulary(r)
      && (|tokens| >= limit ==> r == tokens)
      && (|tokens| < limit ==> |tokens| < |r| <= limit)
      && (forall j | |tokens| <= j < |r| - 1 :: r[j] != g.eos)
      && (|r| < limit ==> r[|r| - 1] == g.eos)
    decreases limit - |tokens|
  {
    hide Logits, Draw;
    if |tokens| >= limit {
    } else {
      var (token, state') := Poll(g, s, Logits(g, tokens), state);
      if token != g.eos {
        RunProperties(g, s, tokens + [token], state', limit);
      }
    }
  }

  /** A lower limit only cuts the same run short. */
  lemma {:induction false} LimitOnlyTruncates(g: GPT2, s: Sampler, tokens: seq<Token>, state: nat, limit: int,
                                              more: int)
    requires g.Valid() && s.Valid() && tokens != [] && g.InVocabulary(tokens) && limit <= more <= g.nPositions
    ensures Run(g, s, tokens, state, limit) <= Run(g, s, tokens, state, more)
    decreases limit - |tokens|
  {
    hide Logits, Draw;
    if |tokens| >= limit {
      RunProperties(g, s, tokens, state, more);
    } else {
      var (token, state') := Poll(g, s, Logits(g, tokens), state);
      if token != g.eos {
        LimitOnlyTruncates(g, s, tokens + [token], state', limit, more);
      }
    }
  }

  /** `multinomial` on the softmax distribution of `row` turns `state` into `token` and `state'`. */
  ghost predicate DrawnFrom(g: GPT2, s: Sampler, row: Row, state: nat, token: Token, state': nat) {
    exists p :: IsSoftmaxOf(g.an, p, row) && s.multinomial(p, state) == (token, state')
  }

  lemma DrawIsDrawnFrom(g: GPT2, s: Sampler, row: Row, state: nat)
    requires g.Valid() && s.Valid() && |row| == |g.wte|
    ensures var (token, state') := Draw(g, s, row, state); DrawnFrom(g, s, row, state, token, state')
  {
    var p := Softmax(g.an, Unmasked(row));
    SoftmaxIsUnique(g.an, row, p);
    DrawSamplesSoftmax(g, s, row, state, p);
  }

  /**
   * Every token of `r` from index `start` on is drawn from the row before it, when all of `r`
   * goes through the model in a single pass; `states` are the generator's states in between.
   */
  ghost predicate DrawnInOnePass(g: GPT2, s: Sampler, r: seq<Token>, start: nat, states: seq<nat>)
    requires g.Valid() && s.Valid() && g.Accepts(r)
  {
    && 0 < start <= |r| && |states| == |r| - start + 1
    && forall j | start <= j < |r| ::
      DrawnFrom(g, s, Logits(g, r)[j - 1], states[j - start], r[j], states[j - start + 1])
  }

  /** One pass over the finished text explains the whole run, although each step saw a prefix only. */
  lemma {:induction false} OnePassExplainsRun(g: GPT2, s: Sampler, tokens: seq<Token>, state: nat, limit: int)
    returns (states: seq<nat>)
    requires g.Valid() && s.Valid() && tokens != [] && g.InVocabulary(tokens) && |tokens| <= limit <= g.nPositions
    ensures var r := Run(g, s, tokens, state, limit);
      g.Accepts(r) && DrawnInOnePass(g, s, r, |tokens|, states) && states[0] == state
    decreases limit - |tokens|
  {
    hide Logits, Draw, DrawnFrom;
    var n := |tokens|;
    var r := Run(g, s, tokens, state, limit);
    RunProperties(g, s, tokens, state, limit);
    states := [state];
    if n < limit {
      var (token, state') := Poll(g, s, Logits(g, tokens), state);
      LogitsAreCausal(g, r, n);
      assert r[..n] == tokens;
      DrawIsDrawnFrom(g, s, Logits(g, r)[n - 1], state);
      assert DrawnFrom(g, s, Logits(g, r)[n - 1], state, token, state');
      if token == g.eos {
        states := [state, state'];
      } else {
        var later := OnePassExplainsRun(g, s, tokens + [token], state', limit);
        states := [state] + later;
        RunProperties(g, s, tokens + [token], state', limit);
      }
    }
  }

  /** `r` continues `prompt` by tokens drawn in one pass, from the generator seeded with `seed`. */
  ghost predicate ExplainedByOnePass(g: GPT2, s: Sampler, prompt: seq<Token>, seed: nat, r: seq<Token>)
    requires g.Valid() && s.Valid()
  {
    && prompt <= r && g.Accepts(r)
    && exists states :: DrawnInOnePass(g, s, r, |prompt|, states) && states[0] == seed
  }

  class GenerationTimings {
    var prefillCalls: nat
    var decodeCalls: nat

    constructor ()
      ensures prefillCalls == 0 && decodeCalls == 0
    {
      prefillCalls, decodeCalls := 0, 0;
    }
  }

  /** `torch.empty` raises on a negative size. */
  datatype GenerationResult =
    | AllocationError
    | Generated(tokens: seq<Token>, promptTokens: nat, output: seq<Token>, timings: GenerationTimings)

  function MaxTotalTokens(g: GPT2, prompt: seq<Token>, maxNewTokens: int): int {
    if g.nPositions <= |prompt| + maxNewTokens then g.nPositions else |prompt| + maxNewTokens
  }

  /**
   * What a caller can rely on: nothing is generated when there is no room or no wish for it;
   * otherwise at least one token is, all are explained by one pass, EOS comes last only, and the
   * text is shorter than both limits allow only if it ends in EOS.
   */
  ghost predicate Delivers(g: GPT2, s: Sampler, prompt: seq<Token>, maxNewTokens: int, seed: nat, r: seq<Token>)
    requires g.Valid() && s.Valid()
  {
    if |prompt| >= g.nPositions || maxNewTokens <= 0 then r == prompt
    else
      && |prompt| < |r| <= g.nPositions && |r| - |prompt| <= maxNewTokens
      && ExplainedByOnePass(g, s, prompt, seed, r)
      && (forall j | |prompt| <= j < |r| - 1 :: r[j] != g.eos)
      && (|r| < g.nPositions && |r| - |prompt| < maxNewTokens ==> r[|r| - 1] == g.eos)
  }

  lemma RunDelivers(g: GPT2, s: Sampler, prompt: seq<Token>, maxNewTokens: int, seed: nat)
    requires g.Valid() && s.Valid() && prompt != [] && g.InVocabulary(prompt)
    ensures Delivers(g, s, prompt, maxNewTokens, seed,
                     Run(g, s, prompt, seed, MaxTotalTokens(g, prompt, maxNewTokens)))
  {
    hide Run, DrawnInOnePass;
    var limit := MaxTotalTokens(g, prompt, maxNewTokens);
    RunProperties(g, s, prompt, seed, limit);
    if |prompt| < limit {
      var states := OnePassExplainsRun(g, s, prompt, seed, limit);
    }
  }

  /** Rows pushed through each block when `k` tokens are generated from `p` without a cache. */
  function RecomputedRows(p: nat, k: nat): nat {
    if k == 0 then 0 else RecomputedRows(p, k - 1) + p + k - 1
  }

  lemma {:induction false} RecomputedRowsClosedForm(p: nat, k: nat)
    ensures RecomputedRows(p, k) == k * p + k * (k - 1) / 2
  {
    if k == 0 {
    } else {
      RecomputedRowsClosedForm(p, k - 1);
      assert k * (k - 1) == (k - 1) * (k - 2) + 2 * (k - 1);
      assert k * p == (k - 1) * p + p;
    }
  }

  /** `rows` rows through every block. */
  function ThroughBlocks(g: GPT2, rows: int): int {
    |g.blocks| * rows
  }

  lemma ThroughBlocksAdds(g: GPT2, x: int, y: int)
    ensures ThroughBlocks(g, x + y) == ThroughBlocks(g, x) + ThroughBlocks(g, y)
    ensures ThroughBlocks(g, 0) == 0
  {
    assert |g.blocks| * (x + y) == |g.blocks| * x + |g.blocks| * y;
  }

  /** In a cached run that has generated tokens, the cache holds the rows of all but the last. */
  ghost predicate CacheReady(g: GPT2, all: seq<Token>, promptTokens: nat, cache: array2<Row>, limit: int)
    requires g.Valid() && g.InVocabulary(all)
    reads cache
  {
    && cache.Length0 == limit <= g.nPositions && cache.Length1 == |g.blocks|
    && (0 < promptTokens < |all| <= limit ==> CacheHolds(g, all[..|all| - 1], cache, |all| - 1))
  }

  lemma CacheStaysReady(g: GPT2, all: seq<Token>, token: Token, promptTokens: nat, cache: array2<Row>, limit: int)
    requires g.Valid() && g.Accepts(all) && token < |g.wte| && CacheHolds(g, all, cache, |all|)
    requires cache.Length0 == limit <= g.nPositions
    ensures CacheReady(g, all + [token], promptTokens, cache, limit)
  {
    assert (all + [token])[..|all|] == all;
  }

  /**
   * The model call of one iteration. Without a cache it is a prefill of all tokens; with one, a
   * prefill for the prompt and a decode afterwards. In each case the last logits row is that of a
   * full recompute, and a cache then holds the rows of all tokens.
   */
  method ModelCall(g: GPT2, all: seq<Token>, promptTokens: nat, cache: array2?<Row>, timings: GenerationTimings)
    returns (logits: Matrix, ghost blockRows: nat)
    requires g.Valid() && g.Accepts(all) && 0 < promptTokens <= |all|
    requires cache != null ==> |all| <= cache.Length0 && CacheReady(g, all, promptTokens, cache, cache.Length0)
    modifies cache, timings
    ensures logits != [] && logits[|logits| - 1] == Logits(g, all)[|all| - 1]
    ensures cache != null ==> CacheHolds(g, all, cache, |all|)
    ensures var decodes := cache != null && |all| > promptTokens;
      && timings.prefillCalls == old(timings.prefillCalls) + (if decodes then 0 else 1)
      && timings.decodeCalls == old(timings.decodeCalls) + (if decodes then 1 else 0)
      && blockRows == ThroughBlocks(g, if decodes then 1 else |all|)
  {
    hide Logits, CacheHolds;
    if cache == null || |all| == promptTokens {
      logits, blockRows := Prefill(g, all, cache);
      timings.prefillCalls := timings.prefillCalls + 1;
    } else {
      CacheServesContinuations(g, all, cache, |all| - 1);
      logits, blockRows := Decode(g, all, all[|all| - 1], |all| - 1, cache);
      timings.decodeCalls := timings.decodeCalls + 1;
    }
  }

  /**
   * With or without the cache the tokens are those of `Run`. `blockRows` adds up the rows that
   * went through a block.
   */
  method Generate(g: GPT2, s: Sampler, prompt: seq<Token>, maxNewTokens: int, seed: nat, useKvCache: bool)
    returns (r: GenerationResult, ghost blockRows: nat)
    requires g.Valid() && s.Valid() && prompt != [] && g.InVocabulary(prompt)
    ensures r.AllocationError? <==> useKvCache && MaxTotalTokens(g, prompt, maxNewTokens) < 0
    ensures r.Generated? ==>
      && r.tokens == Run(g, s, prompt, seed, MaxTotalTokens(g, prompt, maxNewTokens))
      && Delivers(g, s, prompt, maxNewTokens, seed, r.tokens)
      && r.promptTokens == |prompt| && r.tokens == prompt + r.output
      && fresh(r.timings) && r.timings.prefillCalls + r.timings.decodeCalls == |r.output|
    ensures r.Generated? && useKvCache ==>
      && r.timings.prefillCalls == (if r.output == [] then 0 else 1)
      && blockRows == ThroughBlocks(g, if r.output == [] then 0 else |prompt| + |r.output| - 1)
    ensures r.Generated? && !useKvCache ==>
      && r.timings.decodeCalls == 0
      && var k := |r.output|; blockRows == ThroughBlocks(g, k * |prompt| + k * (k - 1) / 2)
  {
    hide Run, Poll, Logits, Draw, CacheHolds, GPT2.Valid, Sampler.Valid, ThroughBlocks, Delivers, KvOfLayer;
    ThroughBlocksAdds(g, 0, 0);
    var limit := MaxTotalTokens(g, prompt, maxNewTokens);
    var all, state := prompt, seed;
    var timings := new GenerationTimings();
    ghost var rows: nat := 0;
    blockRows := 0;
    var cache: array2?<Row> := null;
    if useKvCache {
      if limit < 0 {
        return AllocationError, 0;
      }
      cache := new Row[limit, |g.blocks|];
    }
    ghost var expected := Run(g, s, prompt, seed, limit);
    while |all| < limit
      invariant prompt <= all && g.InVocabulary(all) && (|all| <= limit || all == prompt)
      invariant Run(g, s, all, state, limit) == expected
      invariant fresh(timings) && timings.prefillCalls + timings.decodeCalls == |all| - |prompt|
      invariant blockRows == ThroughBlocks(g, rows)
      invariant useKvCache ==> timings.prefillCalls == if |all| == |prompt| then 0 else 1
      invariant useKvCache ==> rows == if |all| == |prompt| then 0 else |all| - 1
      invariant !useKvCache ==> timings.decodeCalls == 0 && rows == RecomputedRows(|prompt|, |all| - |prompt|)
      invariant useKvCache <==> cache != null
      invariant cache != null ==> CacheReady(g, all, |prompt|, cache, limit)
    {
      ghost var callRows := if useKvCache && |all| > |prompt| then 1 else |all|;
      var logits, pushed := ModelCall(g, all, |prompt|, cache, timings);
      ThroughBlocksAdds(g, rows, callRows);
      rows, blockRows := rows + callRows, blockRows + pushed;
      var (token, state') := Poll(g, s, logits, state);
      RunSteps(g, s, all, logits, state, limit);
      if cache != null {
        CacheStaysReady(g, all, token, |prompt|, cache, limit);
      }
      all, state := all + [token], state';
      if token == g.eos {
        break;
      }
    }
    RunStops(g, s, all, state, limit);
    r := Generated(all, |prompt|, all[|prompt|..], timings);
    RecomputedRowsClosedForm(|prompt|, |r.output|);
    RunDelivers(g, s, prompt, maxNewTokens, seed);
  }

  /** Outcome of `main.py --compare-kv-cache`. */
  datatype Comparison = Crashed | Compared(warned: bool)

  /**
   * The comparison of both modes under one seed, for every model, sampler, prompt and limit: the
   * warning is never printed, and only a negative total makes the cached run fail.
   */
  method CompareKvCache(g: GPT2, s: Sampler, prompt: seq<Token>, maxNewTokens: int, seed: nat)
    returns (c: Comparison)
    requires g.Valid() && s.Valid() && prompt != [] && g.InVocabulary(prompt)
    ensures c == if |prompt| + maxNewTokens < 0 then Crashed else Compared(false)
  {
    var cached, _ := Generate(g, s, prompt, maxNewTokens, seed, true);
    if cached.AllocationError? {
      return Crashed;
    }
    var uncached, _ := Generate(g, s, prompt, maxNewTokens, seed, false);
    return Compared(cached.tokens != uncached.tokens);
  }
}
