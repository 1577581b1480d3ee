/** Multi-head attention: the head views, the masked form of prefill and the bare form of decode. */
module Attention {
  import opened Tensors
  import opened MaskedSoftmax

  lemma HeadFits(h: nat, heads: nat, width: nat)
    requires h < heads
    ensures (h + 1) * width <= heads * width
  {
    assert heads * width == (h + 1) * width + (heads - h - 1) * width;
  }

  /** `view(n, heads, width).transpose(0, 1)`: one matrix per head. */
  function SplitHeads(x: Matrix, heads: nat, width: nat): (r: seq<Matrix>)
    requires Width(x, heads * width)
    ensures |r| == heads && forall h | 0 <= h < heads :: Shape(r[h], |x|, width)
  {
    seq(heads, h requires 0 <= h < heads => HeadFits(h, heads, width); Slices(x, h, width))
  }

  function Flatten(parts: seq<Row>): Row {
    if parts == [] then [] else Flatten(parts[..|parts| - 1]) + parts[|parts| - 1]
  }

  /** Row `i` of every head. */
  function RowOfHeads(heads: seq<Matrix>, i: nat): seq<Row>
    requires forall h | 0 <= h < |heads| :: i < |heads[h]|
  {
    seq(|heads|, h requires 0 <= h < |heads| => heads[h][i])
  }

  /** `transpose(0, 1).contiguous().view(n, -1)`: the heads' rows side by side. */
  function MergeHeads(heads: seq<Matrix>, rows: nat): (r: Matrix)
    requires forall h | 0 <= h < |heads| :: |heads[h]| == rows
    ensures |r| == rows
  {
    seq(rows, i requires 0 <= i < rows => Flatten(RowOfHeads(heads, i)))
  }

  lemma {:induction false} FlattenWidth(parts: seq<Row>, width: nat)
    requires Width(parts, width)
    ensures |Flatten(parts)| == |parts| * width
  {
    if parts == [] {
    } else {
      var init := parts[..|parts| - 1];
      FlattenWidth(init, width);
      assert |parts| * width == |init| * width + width;
    }
  }

  lemma SliceOfConcat(a: Row, b: Row, h: nat, width: nat)
    requires (h + 1) * width <= |a|
    ensures (h + 1) * width <= |a + b| && Slice(a + b, h, width) == Slice(a, h, width)
  {
    var start := h * width;
    assert start + width == (h + 1) * width;
    assert (a + b)[start..start + width] == a[start..start + width];
  }

  lemma {:induction false} SliceOfFlatten(parts: seq<Row>, h: nat, width: nat)
    requires Width(parts, width) && h < |parts|
    ensures (h + 1) * width <= |Flatten(parts)|
    ensures Slice(Flatten(parts), h, width) == parts[h]
  {
    var n := |parts| - 1;
    var init := parts[..n];
    FlattenWidth(parts, width);
    FlattenWidth(init, width);
    HeadFits(h, |parts|, width);
    if h == n {
      assert Flatten(parts)[n * width..] == parts[n];
    } else {
      SliceOfFlatten(init, h, width);
      SliceOfConcat(Flatten(init), parts[n], h, width);
    }
  }

  ghost predicate IsSlice(part: Row, x: Row, h: nat, width: nat) {
    (h + 1) * width <= |x| && part == Slice(x, h, width)
  }

  lemma SliceOfPrefix(part: Row, x: Row, h: nat, n: nat, width: nat)
    requires h < n && n * width <= |x| && IsSlice(part, x, h, width)
    ensures IsSlice(part, x[..n * width], h, width)
  {
    HeadFits(h, n, width);
    var start := h * width;
    assert start + width == (h + 1) * width;
    assert x[..n * width][start..start + width] == x[start..start + width];
  }

  lemma {:induction false} FlattenOfSlices(x: Row, parts: seq<Row>, width: nat)
    requires |x| == |parts| * width
    requires forall h | 0 <= h < |parts| :: IsSlice(parts[h], x, h, width)
    ensures Flatten(parts) == x
  {
    if parts == [] {
    } else {
      var n := |parts| - 1;
      var start := n * width;
      assert |x| == start + width;
      forall h | 0 <= h < n ensures IsSlice(parts[..n][h], x[..start], h, width) {
        assert IsSlice(parts[h], x, h, width);
        SliceOfPrefix(parts[h], x, h, n, width);
      }
      FlattenOfSlices(x[..start], parts[..n], width);
      assert IsSlice(parts[n], x, n, width);
    }
  }

  /** Splitting into heads and merging back is the identity, for every number of rows. */
  lemma MergeOfSplit(x: Matrix, heads: nat, width: nat)
    requires Width(x, heads * width)
    ensures MergeHeads(SplitHeads(x, heads, width), |x|) == x
  {
    var split := SplitHeads(x, heads, width);
    forall i | 0 <= i < |x| ensures Flatten(RowOfHeads(split, i)) == x[i] {
      forall h | 0 <= h < heads ensures IsSlice(split[h][i], x[i], h, width) {
        HeadFits(h, heads, width);
      }
      FlattenOfSlices(x[i], RowOfHeads(split, i), width);
    }
  }

  lemma SplitOfMerge(heads: seq<Matrix>, rows: nat, width: nat)
    requires forall h | 0 <= h < |heads| :: |heads[h]| == rows && Width(heads[h], width)
    ensures Width(MergeHeads(heads, rows), |heads| * width)
    ensures SplitHeads(MergeHeads(heads, rows), |heads|, width) == heads
  {
    var merged := MergeHeads(heads, rows);
    forall i | 0 <= i < rows ensures |merged[i]| == |heads| * width {
      FlattenWidth(RowOfHeads(heads, i), width);
    }
    forall h | 0 <= h < |heads| ensures SplitHeads(merged, |heads|, width)[h] == heads[h] {
      HeadFits(h, |heads|, width);
      forall i | 0 <= i < rows ensures Slice(merged[i], h, width) == heads[h][i] {
        SliceOfFlatten(RowOfHeads(heads, i), h, width);
      }
    }
  }

  // ----------------------------------------------------------- attention

  /** One row of `(q @ k.mT) / sqrt(width)`. */
  function Scores(an: Analysis, q: Row, k: Matrix): Row
    requires an.Valid() && |q| > 0 && Width(k, |q|)
  {
    var scale := an.sqrt(|q| as real);
    seq(|k|, j requires 0 <= j < |k| => Dot(q, k[j]) / scale)
  }

  /** The attention weights of query row `i`, under the causal mask or without one. */
  function Probabilities(an: Analysis, q: Row, k: Matrix, causal: bool, i: nat): (p: Row)
    requires an.Valid() && |q| > 0 && Width(k, |q|) && k != []
    ensures |p| == |k| && IsDistribution(p)
  {
    var scores := Scores(an, q, k);
    var visible := if causal then CausalMask(scores, i) else Unmasked(scores);
    SoftmaxIsDistribution(an, visible);
    Softmax(an, visible)
  }

  /** One head: `softmax(scores) @ v`. */
  function AttendHead(an: Analysis, q: Matrix, k: Matrix, v: Matrix, width: nat, causal: bool): (r: Matrix)
    requires an.Valid() && width > 0 && |k| == |v| > 0
    requires Width(q, width) && Width(k, width) && Width(v, width)
    ensures Shape(r, |q|, width)
  {
    seq(|q|, i requires 0 <= i < |q| => Times(Probabilities(an, q[i], k, causal, i), v, width))
  }

  /** The heads of `q`, `k`, `v` attended separately. */
  function AttendHeads(an: Analysis, q: Matrix, k: Matrix, v: Matrix, heads: nat, width: nat, causal: bool)
    : (r: seq<Matrix>)
    requires an.Valid() && width > 0 && |k| == |v| > 0
    requires Width(q, heads * width) && Width(k, heads * width) && Width(v, heads * width)
    ensures |r| == heads && forall h | 0 <= h < heads :: Shape(r[h], |q|, width)
  {
    var qs, ks, vs := SplitHeads(q, heads, width), SplitHeads(k, heads, width), SplitHeads(v, heads, width);
    seq(heads, h requires 0 <= h < heads => AttendHead(an, qs[h], ks[h], vs[h], width, causal))
  }

  function Attend(an: Analysis, q: Matrix, k: Matrix, v: Matrix, heads: nat, width: nat, causal: bool): (r: Matrix)
    requires an.Valid() && width > 0 && |k| == |v| > 0
    requires Width(q, heads * width) && Width(k, heads * width) && Width(v, heads * width)
    ensures Shape(r, |q|, heads * width)
  {
    var out := AttendHeads(an, q, k, v, heads, width, causal);
    SplitOfMerge(out, |q|, width);
    MergeHeads(out, |q|)
  }

  /** One head, row `i`: the mask makes all rows after `i` irrelevant. */
  lemma CausalHeadRow(an: Analysis, q: Matrix, k: Matrix, v: Matrix, width: nat, i: nat)
    requires an.Valid() && width > 0 && |k| == |v| && i < |q| && i < |k|
    requires Width(q, width) && Width(k, width) && Width(v, width)
    ensures AttendHead(an, q, k, v, width, true)[i]
         == AttendHead(an, [q[i]], k[..i + 1], v[..i + 1], width, false)[0]
  {
    var scores := Scores(an, q[i], k);
    assert Scores(an, q[i], k[..i + 1]) == scores[..i + 1];
    forall c | 0 <= c < width
      ensures Dot(Probabilities(an, q[i], k, true, i), Column(v, c))
           == Dot(Probabilities(an, q[i], k[..i + 1], false, 0), Column(v[..i + 1], c))
    {
      MaskedAverageIsPrefixAverage(an, scores, i, Column(v, c));
      assert Column(v, c)[..i + 1] == Column(v[..i + 1], c);
    }
  }

  /**
   * Row `i` of masked attention over all rows is the unmasked attention of that one query
   * over the rows `0..i`, which is what decode computes.
   */
  lemma CausalRow(an: Analysis, q: Matrix, k: Matrix, v: Matrix, heads: nat, width: nat, i: nat)
    requires an.Valid() && width > 0 && |k| == |v| && i < |q| && i < |k|
    requires Width(q, heads * width) && Width(k, heads * width) && Width(v, heads * width)
    ensures Attend(an, q, k, v, heads, width, true)[i]
         == Attend(an, [q[i]], k[..i + 1], v[..i + 1], heads, width, false)[0]
  {
    var all := AttendHeads(an, q, k, v, heads, width, true);
    var one := AttendHeads(an, [q[i]], k[..i + 1], v[..i + 1], heads, width, false);
    forall h | 0 <= h < heads ensures all[h][i] == one[h][0] {
      HeadFits(h, heads, width);
      CausalHeadRow(an, Slices(q, h, width), Slices(k, h, width), Slices(v, h, width), width, i);
      assert Slices(k, h, width)[..i + 1] == Slices(k[..i + 1], h, width);
      assert Slices(v, h, width)[..i + 1] == Slices(v[..i + 1], h, width);
      assert Slices([q[i]], h, width) == [Slices(q, h, width)[i]];
    }
    assert RowOfHeads(all, i) == RowOfHeads(one, 0);
  }

  /** The merged columns of head `h` depend on head `h` of the queries, keys and values only. */
  lemma HeadsAreIndependent(an: Analysis, q: Matrix, k: Matrix, v: Matrix, q': Matrix, k': Matrix, v': Matrix,
                            heads: nat, width: nat, causal: bool, h: nat)
    requires an.Valid() && width > 0 && |k| == |v| > 0 && |k'| == |v'| > 0 && h < heads
    requires Width(q, heads * width) && Width(k, heads * width) && Width(v, heads * width)
    requires Width(q', heads * width) && Width(k', heads * width) && Width(v', heads * width)
    requires SplitHeads(q, heads, width)[h] == SplitHeads(q', heads, width)[h]
    requires SplitHeads(k, heads, width)[h] == SplitHeads(k', heads, width)[h]
    requires SplitHeads(v, heads, width)[h] == SplitHeads(v', heads, width)[h]
    ensures SplitHeads(Attend(an, q, k, v, heads, width, causal), heads, width)[h]
         == SplitHeads(Attend(an, q', k', v', heads, width, causal), heads, width)[h]
  {
    SplitOfMerge(AttendHeads(an, q, k, v, heads, width, causal), |q|, width);
    SplitOfMerge(AttendHeads(an, q', k', v', heads, width, causal), |q'|, width);
  }

  /**
   * Every output coordinate lies between the bounds of that coordinate over the value rows
   * the query can see: the first `i + 1` under the mask, all of them in decode.
   */
  lemma AttentionIsConvex(an: Analysis, q: Matrix, k: Matrix, v: Matrix, heads: nat, width: nat, causal: bool,
                          i: nat, h: nat, c: nat, lo: real, hi: real)
    requires an.Valid() && width > 0 && |k| == |v| > 0
    requires Width(q, heads * width) && Width(k, heads * width) && Width(v, heads * width)
    requires i < |q| && (causal ==> i < |k|) && h < heads && c < width
    requires forall j | 0 <= j < |v| && (causal ==> j <= i) :: lo <= SplitHeads(v, heads, width)[h][j][c] <= hi
    ensures lo <= SplitHeads(Attend(an, q, k, v, heads, width, causal), heads, width)[h][i][c] <= hi
  {
    var out := AttendHeads(an, q, k, v, heads, width, causal);
    SplitOfMerge(out, |q|, width);
    var q1, k1, v1 := SplitHeads(q, heads, width)[h], SplitHeads(k, heads, width)[h], SplitHeads(v, heads, width)[h];
    if causal {
      CausalHeadRow(an, q1, k1, v1, width, i);
      AverageBounds(Probabilities(an, q1[i], k1[..i + 1], false, 0), Column(v1[..i + 1], c), lo, hi);
    } else {
      AverageBounds(Probabilities(an, q1[i], k1, false, i), Column(v1, c), lo, hi);
    }
  }

  // ------------------------------------------------- what attention computes

  /** With a true square root, a score is the dot product over the root of the head width. */
  lemma ScoresAreScaled(an: Analysis, q: Row, k: Matrix, j: nat)
    requires an.Valid() && |q| > 0 && Width(k, |q|) && j < |k|
    requires forall y: real :: y > 0.0 ==> an.sqrt(y) * an.sqrt(y) == y
    ensures var s := Scores(an, q, k)[j];
      && s * s * |q| as real == Dot(q, k[j]) * Dot(q, k[j])
      && (s > 0.0 <==> Dot(q, k[j]) > 0.0) && (s < 0.0 <==> Dot(q, k[j]) < 0.0)
  {
    var n := |q| as real;
    QuotientByRoot(Dot(q, k[j]), an.sqrt(n), n, Scores(an, q, k)[j]);
  }

  lemma QuotientByRoot(dot: real, root: real, n: real, s: real)
    requires root > 0.0 && root * root == n && s == dot / root
    ensures s * s * n == dot * dot
    ensures (s > 0.0 <==> dot > 0.0) && (s < 0.0 <==> dot < 0.0)
  {
    assert dot == s * root;
    assert dot * dot == (s * s) * (root * root);
  }

  /**
   * Every output coordinate is the average of that coordinate of the visible value rows, weighted
   * by the one distribution in the ratio of the exponentials of the scores.
   */
  lemma AttentionIsSoftmaxAverage(an: Analysis, q: Matrix, k: Matrix, v: Matrix, heads: nat, width: nat, causal: bool,
                                  i: nat, h: nat, c: nat, p: Row)
    requires an.Valid() && width > 0 && |k| == |v| > 0
    requires Width(q, heads * width) && Width(k, heads * width) && Width(v, heads * width)
    requires i < |q| && (causal ==> i < |k|) && h < heads && c < width
    requires var visible := if causal then i + 1 else |k|;
      IsSoftmaxOf(an, p, Scores(an, SplitHeads(q, heads, width)[h][i], SplitHeads(k, heads, width)[h][..visible]))
    ensures var visible := if causal then i + 1 else |k|;
      SplitHeads(Attend(an, q, k, v, heads, width, causal), heads, width)[h][i][c]
      == Dot(p, Column(SplitHeads(v, heads, width)[h][..visible], c))
  {
    SplitOfMerge(AttendHeads(an, q, k, v, heads, width, causal), |q|, width);
    var q1, k1, v1 := SplitHeads(q, heads, width)[h], SplitHeads(k, heads, width)[h], SplitHeads(v, heads, width)[h];
    if causal {
      CausalHeadRow(an, q1, k1, v1, width, i);
      SoftmaxIsUnique(an, Scores(an, q1[i], k1[..i + 1]), p);
    } else {
      assert k1[..|k|] == k1 && v1[..|k|] == v1;
      SoftmaxIsUnique(an, Scores(an, q1[i], k1), p);
    }
  }
}
