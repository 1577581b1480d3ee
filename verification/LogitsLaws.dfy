/** What the embeddings and the output head contribute to the logits, said without their bodies. */
module LogitsLaws {
  import opened Tensors
  import opened MaskedSoftmax
  import opened Transformer
  import opened Gpt2

  // ------------------------------------------------------------ the output head

  lemma OutputIsDotWithHead(g: GPT2, x: Row, j: nat)
    requires g.Valid() && |x| == g.d && j < |g.wte|
    ensures OutputRow(g, x)[j] == Dot(g.lmHead[j], Normalize(g.an, x, g.lnF))
  {
    hide Normalize, Dot;
    DotCommutes(g.lmHead[j], Normalize(g.an, x, g.lnF));
  }

  lemma ZeroMeanMeansZeroSum(x: Row)
    requires x != [] && Mean(x) == 0.0
    ensures Sum(x) == 0.0
  {
  }

  lemma ConstantTimesZeroMean(a: Row, x: Row, t: real)
    requires |a| == |x| && x != [] && Mean(x) == 0.0 && forall c | 0 <= c < |a| :: a[c] == t
    ensures Dot(a, x) == 0.0
  {
    ZeroMeanMeansZeroSum(x);
    DotOfConstant(a, x, t);
  }

  lemma OutputOfConstantHead(g: GPT2, x: Row, j: nat, t: real)
    requires g.Valid() && |x| == g.d && j < |g.wte|
    requires forall c | 0 <= c < g.d :: g.lnF.weights[c] == 1.0 && g.lnF.bias[c] == 0.0 && g.lmHead[j][c] == t
    ensures OutputRow(g, x)[j] == 0.0
  {
    hide Normalize, Mean, OutputRow, Dot;
    OutputIsDotWithHead(g, x, j);
    NormalizeIsCentred(g.an, x, g.lnF);
    ConstantTimesZeroMean(g.lmHead[j], Normalize(g.an, x, g.lnF), t);
  }

  lemma OutputOfUnitHead(g: GPT2, x: Row, j: nat, c: nat, t: real)
    requires g.Valid() && |x| == g.d && j < |g.wte| && IsUnit(g.lmHead[j], c, t)
    ensures OutputRow(g, x)[j] == t * Normalize(g.an, x, g.lnF)[c]
  {
    hide Normalize, OutputRow, Dot;
    OutputIsDotWithHead(g, x, j);
    DotOfUnit(g.lmHead[j], Normalize(g.an, x, g.lnF), c, t);
  }

  lemma OutputIsLinearInHead(g: GPT2, x: Row, j: nat, s: real, j1: nat, t: real, j2: nat)
    requires g.Valid() && |x| == g.d && j < |g.wte| && j1 < |g.wte| && j2 < |g.wte|
    requires Combines(g.lmHead[j], s, g.lmHead[j1], t, g.lmHead[j2])
    ensures OutputRow(g, x)[j] == s * OutputRow(g, x)[j1] + t * OutputRow(g, x)[j2]
  {
    hide Normalize, OutputRow, Dot;
    OutputIsDotWithHead(g, x, j);
    OutputIsDotWithHead(g, x, j1);
    OutputIsDotWithHead(g, x, j2);
    DotOfCombination(g.lmHead[j], s, g.lmHead[j1], t, g.lmHead[j2], Normalize(g.an, x, g.lnF));
  }

  /** With a plain final layer norm, a constant head row gives the logit 0: its input is centred. */
  lemma LogitOfConstantHead(g: GPT2, tokens: seq<Token>, i: nat, j: nat, t: real)
    requires g.Valid() && g.Accepts(tokens) && i < |tokens| && j < |g.wte|
    requires forall c | 0 <= c < g.d :: g.lnF.weights[c] == 1.0 && g.lnF.bias[c] == 0.0 && g.lmHead[j][c] == t
    ensures Logits(g, tokens)[i][j] == 0.0
  {
    hide OutputRow, Hidden;
    OutputOfConstantHead(g, Hidden(g, tokens, |g.blocks|)[i], j, t);
  }

  /** A unit head row reads one coordinate of the final layer norm. */
  lemma LogitOfUnitHead(g: GPT2, tokens: seq<Token>, i: nat, j: nat, c: nat, t: real)
    requires g.Valid() && g.Accepts(tokens) && i < |tokens| && j < |g.wte| && IsUnit(g.lmHead[j], c, t)
    ensures Logits(g, tokens)[i][j] == t * Normalize(g.an, Hidden(g, tokens, |g.blocks|)[i], g.lnF)[c]
  {
    hide OutputRow, Hidden, Normalize;
    OutputOfUnitHead(g, Hidden(g, tokens, |g.blocks|)[i], j, c, t);
  }

  /** Logits are linear in the head: with the unit rows this fixes all of them. */
  lemma LogitsAreLinearInHead(g: GPT2, tokens: seq<Token>, i: nat, j: nat, s: real, j1: nat, t: real, j2: nat)
    requires g.Valid() && g.Accepts(tokens) && i < |tokens| && j < |g.wte| && j1 < |g.wte| && j2 < |g.wte|
    requires Combines(g.lmHead[j], s, g.lmHead[j1], t, g.lmHead[j2])
    ensures Logits(g, tokens)[i][j] == s * Logits(g, tokens)[i][j1] + t * Logits(g, tokens)[i][j2]
  {
    hide OutputRow, Hidden;
    OutputIsLinearInHead(g, Hidden(g, tokens, |g.blocks|)[i], j, s, j1, t, j2);
  }

  // ------------------------------------------------------------- the embeddings

  ghost predicate IsZeroMatrix(m: Matrix) {
    forall i, c | 0 <= i < |m| && 0 <= c < |m[i]| :: m[i][c] == 0.0
  }

  /** Without token embeddings the first block sees the first rows of the position table. */
  lemma PositionsAlone(g: GPT2, tokens: seq<Token>)
    requires g.Valid() && g.Accepts(tokens) && IsZeroMatrix(g.wte)
    ensures Hidden(g, tokens, 0) == g.wpe[..|tokens|]
  {
    forall i | 0 <= i < |tokens| ensures Hidden(g, tokens, 0)[i] == g.wpe[i] {
      assert g.wte[tokens[i]] == seq(g.d, _ => 0.0);
    }
  }

  /** Without positions it sees the table row of each token. */
  lemma TokensAlone(g: GPT2, tokens: seq<Token>, i: nat)
    requires g.Valid() && g.Accepts(tokens) && i < |tokens| && IsZeroMatrix(g.wpe)
    ensures Hidden(g, tokens, 0)[i] == g.wte[tokens[i]]
  {
    assert g.wpe[i] == seq(g.d, _ => 0.0);
  }
}
