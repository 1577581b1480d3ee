/** `MessagePassingGNN`: gather the features over the out-edges of each node, twice. */
module MessagePassing {
  import opened Tensors
  import opened MaskedSoftmax

  /** A column of `edge_index`. */
  datatype Edge = Edge(source: nat, target: nat)

  /** Every edge joins two of the first `n` nodes. */
  ghost predicate Joins(edges: seq<Edge>, n: nat) {
    forall e | 0 <= e < |edges| :: edges[e].source < n && edges[e].target < n
  }

  datatype Graph = Graph(x: Matrix, edges: seq<Edge>) {
    ghost predicate Valid(features: nat) {
      Width(x, features) && Joins(edges, |x|)
    }
  }

  /** `nn.Linear`, with its weights stored one row per output. */
  datatype Dense = Dense(inFeatures: nat, weights: Matrix, bias: Row) {
    ghost predicate Valid() {
      Shape(weights, |bias|, inFeatures)
    }
  }

  datatype Network = Network(an: Analysis, linear1: Dense, linear2: Dense, linear3: Dense) {
    ghost predicate Valid() {
      && an.Valid() && linear1.Valid() && linear2.Valid() && linear3.Valid()
      && linear2.inFeatures == |linear1.bias| && linear3.inFeatures == |linear2.bias|
      && |linear3.bias| == linear3.inFeatures > 0
    }
  }

  function Apply(l: Dense, x: Row): (r: Row)
    requires l.Valid() && |x| == l.inFeatures
    ensures |r| == |l.bias|
  {
    Add(TimesTransposed(x, l.weights), l.bias)
  }

  function Relu(x: Row): Row {
    seq(|x|, i requires 0 <= i < |x| => if x[i] > 0.0 then x[i] else 0.0)
  }

  ghost predicate Below(indexes: seq<nat>, n: nat) {
    forall k | 0 <= k < |indexes| :: indexes[k] < n
  }

  /** `edge_index[1][edge_index[0] == i]`. */
  function Neighbors(edges: seq<Edge>, i: nat): seq<nat> {
    if edges == [] then []
    else
      var last := edges[|edges| - 1];
      Neighbors(edges[..|edges| - 1], i) + if last.source == i then [last.target] else []
  }

  /** The out-neighbours of `i`, once for every edge, and `i` itself. */
  function NeighborsAndNode(edges: seq<Edge>, i: nat): seq<nat> {
    Neighbors(edges, i) + [i]
  }

  function Gather<T>(xs: seq<T>, indexes: seq<nat>): (r: seq<T>)
    requires Below(indexes, |xs|)
    ensures |r| == |indexes| && forall k | 0 <= k < |r| :: r[k] == xs[indexes[k]]
  {
    seq(|indexes|, k requires 0 <= k < |indexes| => xs[indexes[k]])
  }

  /** Coordinate `c` of the gathered rows, summed. */
  function PoolAt(xs: Matrix, indexes: seq<nat>, c: nat): real
    requires Below(indexes, |xs|) && forall i | 0 <= i < |xs| :: c < |xs[i]|
  {
    Sum(Column(Gather(xs, indexes), c))
  }

  /** `torch.sum(xs[indexes], dim=0)`. */
  function Pool(xs: Matrix, indexes: seq<nat>, width: nat): (r: Row)
    requires Width(xs, width) && Below(indexes, |xs|)
    ensures |r| == width
  {
    seq(width, c requires 0 <= c < width => PoolAt(xs, indexes, c))
  }

  lemma {:induction false} NeighborsBelow(edges: seq<Edge>, i: nat, n: nat)
    requires Joins(edges, n)
    ensures Below(Neighbors(edges, i), n)
  {
    if edges == [] {
    } else {
      NeighborsBelow(edges[..|edges| - 1], i, n);
    }
  }

  /** What `message_pass` appends to `output` for node `i`. */
  function NodeResult(xs: Matrix, edges: seq<Edge>, i: nat, pooling: Dense): (r: Row)
    requires pooling.Valid() && Width(xs, pooling.inFeatures) && Joins(edges, |xs|) && i < |xs|
    ensures |r| == |pooling.bias|
  {
    NeighborsBelow(edges, i, |xs|);
    Relu(Apply(pooling, Pool(xs, NeighborsAndNode(edges, i), pooling.inFeatures)))
  }

  /** Row `i` of `message_pass`. */
  function LayerRow(xs: Matrix, edges: seq<Edge>, i: nat, pooling: Dense, linear: Dense): (r: Row)
    requires pooling.Valid() && linear.Valid() && linear.inFeatures == |pooling.bias|
    requires Width(xs, pooling.inFeatures) && Joins(edges, |xs|) && i < |xs|
    ensures |r| == |linear.bias|
  {
    Relu(Apply(linear, NodeResult(xs, edges, i, pooling)))
  }

  function Layer(xs: Matrix, edges: seq<Edge>, pooling: Dense, linear: Dense): (r: Matrix)
    requires pooling.Valid() && linear.Valid() && linear.inFeatures == |pooling.bias|
    requires Width(xs, pooling.inFeatures) && Joins(edges, |xs|)
    ensures Shape(r, |xs|, |linear.bias|)
  {
    seq(|xs|, i requires 0 <= i < |xs| => LayerRow(xs, edges, i, pooling, linear))
  }

  /** Both layers before the softmax. */
  function Embedding(net: Network, graph: Graph): (r: Matrix)
    requires net.Valid() && graph.Valid(net.linear1.inFeatures)
    ensures Shape(r, |graph.x|, |net.linear3.bias|)
  {
    Layer(Layer(graph.x, graph.edges, net.linear1, net.linear2), graph.edges, net.linear3, net.linear3)
  }

  /** `F.softmax` of a matrix: its implicit dimension is the last. */
  function SoftmaxRows(an: Analysis, xs: Matrix): (r: Matrix)
    requires an.Valid() && forall i | 0 <= i < |xs| :: xs[i] != []
    ensures |r| == |xs|
  {
    seq(|xs|, i requires 0 <= i < |xs| => Softmax(an, Unmasked(xs[i])))
  }

  /** Row `i` of the network's output, as a function of the graph. */
  function Prediction(net: Network, graph: Graph, i: nat): Row
    requires net.Valid() && graph.Valid(net.linear1.inFeatures) && i < |graph.x|
  {
    var row := Embedding(net, graph)[i];
    Softmax(net.an, Unmasked(row))
  }

  // ----------------------------------------------------- the code's own form

  /** `torch.stack` raises on an empty list. */
  datatype Output = StackError | Stacked(rows: Matrix)

  method MessagePass(xs: Matrix, edges: seq<Edge>, pooling: Dense, linear: Dense) returns (r: Output)
    requires pooling.Valid() && linear.Valid() && linear.inFeatures == |pooling.bias|
    requires Width(xs, pooling.inFeatures) && Joins(edges, |xs|)
    ensures r == if xs == [] then StackError else Stacked(Layer(xs, edges, pooling, linear))
  {
    var output: Matrix := [];
    for i := 0 to |xs|
      invariant |output| == i
      invariant forall k | 0 <= k < i :: output[k] == NodeResult(xs, edges, k, pooling)
    {
      NeighborsBelow(edges, i, |xs|);
      var aggregation := Pool(xs, NeighborsAndNode(edges, i), pooling.inFeatures);
      var result := Relu(Apply(pooling, aggregation));
      output := output + [result];
    }
    if output == [] {
      return StackError;
    }
    return Stacked(seq(|output|, i requires 0 <= i < |output| => Relu(Apply(linear, output[i]))));
  }

  method Forward(net: Network, graph: Graph) returns (r: Output)
    requires net.Valid() && graph.Valid(net.linear1.inFeatures)
    ensures r.StackError? <==> graph.x == []
    ensures r.Stacked? ==>
      |r.rows| == |graph.x| && forall i | 0 <= i < |r.rows| :: r.rows[i] == Prediction(net, graph, i)
    ensures r.Stacked? ==>
      forall i | 0 <= i < |r.rows| :: IsSoftmaxOf(net.an, r.rows[i], Embedding(net, graph)[i])
  {
    var first := MessagePass(graph.x, graph.edges, net.linear1, net.linear2);
    if first.StackError? {
      return first;
    }
    var second := MessagePass(first.rows, graph.edges, net.linear3, net.linear3);
    assert second == Stacked(Embedding(net, graph));
    forall i | 0 <= i < |second.rows|
      ensures IsSoftmaxOf(net.an, SoftmaxRows(net.an, second.rows)[i], second.rows[i])
    {
      SoftmaxIsUnique(net.an, second.rows[i], Softmax(net.an, Unmasked(second.rows[i])));
    }
    return Stacked(SoftmaxRows(net.an, second.rows));
  }

  // ------------------------------------------------------ order independence

  lemma PoolOfSameRows(xs: Matrix, a: seq<nat>, ys: Matrix, b: seq<nat>, width: nat)
    requires Width(xs, width) && Width(ys, width) && Below(a, |xs|) && Below(b, |ys|)
    requires Gather(xs, a) == Gather(ys, b)
    ensures Pool(xs, a, width) == Pool(ys, b, width)
  {
  }

  lemma PoolAtWithout(xs: Matrix, indexes: seq<nat>, k: nat, c: nat)
    requires Below(indexes, |xs|) && (forall i | 0 <= i < |xs| :: c < |xs[i]|) && k < |indexes|
    ensures PoolAt(xs, indexes, c) == PoolAt(xs, indexes[..k] + indexes[k + 1..], c) + xs[indexes[k]][c]
  {
    var column := Column(Gather(xs, indexes), c);
    SumWithout(column, k);
    assert column[..k] + column[k + 1..] == Column(Gather(xs, indexes[..k] + indexes[k + 1..]), c);
  }

  lemma MultisetWithout(a: seq<nat>, k: nat)
    requires k < |a|
    ensures multiset(a[..k] + a[k + 1..]) == multiset(a) - multiset{a[k]}
  {
    assert a == a[..k] + [a[k]] + a[k + 1..];
  }

  lemma {:induction false} PoolAtPermutation(xs: Matrix, a: seq<nat>, b: seq<nat>, c: nat)
    requires Below(a, |xs|) && Below(b, |xs|) && forall i | 0 <= i < |xs| :: c < |xs[i]|
    requires multiset(a) == multiset(b)
    ensures PoolAt(xs, a, c) == PoolAt(xs, b, c)
    decreases |a|
  {
    hide PoolAt;
    if a == [] {
      assert |multiset(b)| == 0;
    } else {
      assert a[0] in multiset(b);
      var k :| 0 <= k < |b| && b[k] == a[0];
      PoolAtWithout(xs, a, 0, c);
      PoolAtWithout(xs, b, k, c);
      MultisetWithout(a, 0);
      MultisetWithout(b, k);
      PoolAtPermutation(xs, a[..0] + a[1..], b[..k] + b[k + 1..], c);
    }
  }

  /** Pooling depends on how often each index occurs, not on the order. */
  lemma PoolPermutation(xs: Matrix, a: seq<nat>, b: seq<nat>, width: nat)
    requires Width(xs, width) && Below(a, |xs|) && Below(b, |xs|) && multiset(a) == multiset(b)
    ensures Pool(xs, a, width) == Pool(xs, b, width)
  {
    forall c | 0 <= c < width ensures PoolAt(xs, a, c) == PoolAt(xs, b, c) {
      PoolAtPermutation(xs, a, b, c);
    }
  }

  lemma {:induction false} NeighborsCount(edges: seq<Edge>, i: nat, j: nat)
    ensures multiset(Neighbors(edges, i))[j] == multiset(edges)[Edge(i, j)]
  {
    if edges == [] {
    } else {
      NeighborsCount(edges[..|edges| - 1], i, j);
      assert edges == edges[..|edges| - 1] + [edges[|edges| - 1]];
    }
  }

  /** Reordering the edge list only reorders neighbours. */
  lemma NeighborsOfReordered(edges: seq<Edge>, edges': seq<Edge>, i: nat)
    requires multiset(edges) == multiset(edges')
    ensures multiset(NeighborsAndNode(edges, i)) == multiset(NeighborsAndNode(edges', i))
  {
    forall j ensures multiset(Neighbors(edges, i))[j] == multiset(Neighbors(edges', i))[j] {
      NeighborsCount(edges, i, j);
      NeighborsCount(edges', i, j);
    }
    assert multiset(Neighbors(edges, i)) == multiset(Neighbors(edges', i));
  }

  // --------------------------------------------------- permutation symmetry

  /** `p` lists the new name of every node. */
  ghost predicate IsRelabelling(p: seq<nat>, n: nat) {
    && |p| == n && (forall i | 0 <= i < n :: p[i] < n)
    && forall i, j | 0 <= i < j < n :: p[i] != p[j]
  }

  function RenameEdges(p: seq<nat>, edges: seq<Edge>): (r: seq<Edge>)
    requires Joins(edges, |p|)
    ensures |r| == |edges|
    ensures forall e | 0 <= e < |r| :: r[e] == Edge(p[edges[e].source], p[edges[e].target])
  {
    seq(|edges|, e requires 0 <= e < |edges| => Edge(p[edges[e].source], p[edges[e].target]))
  }

  lemma {:induction false} NeighborsOfRenamed(p: seq<nat>, edges: seq<Edge>, i: nat)
    requires IsRelabelling(p, |p|) && Joins(edges, |p|) && i < |p|
    ensures Below(Neighbors(edges, i), |p|)
    ensures Neighbors(RenameEdges(p, edges), p[i]) == Gather(p, Neighbors(edges, i))
  {
    if edges == [] {
    } else {
      var n := |edges| - 1;
      NeighborsOfRenamed(p, edges[..n], i);
      assert RenameEdges(p, edges)[..n] == RenameEdges(p, edges[..n]);
      NeighborsBelow(edges, i, |p|);
    }
  }

  /** Row `p[j]` of `ys` is row `j` of `xs`. */
  ghost predicate Permutes(p: seq<nat>, xs: Matrix, ys: Matrix) {
    && IsRelabelling(p, |xs|) && |ys| == |xs|
    && forall j | 0 <= j < |xs| :: ys[p[j]] == xs[j]
  }

  /** `edges'` are the edges of `edges` under their new names, in any order. */
  ghost predicate RenamesEdges(p: seq<nat>, edges: seq<Edge>, edges': seq<Edge>) {
    Joins(edges, |p|) && Joins(edges', |p|) && multiset(edges') == multiset(RenameEdges(p, edges))
  }

  lemma PoolIsEquivariant(p: seq<nat>, xs: Matrix, ys: Matrix, edges: seq<Edge>, edges': seq<Edge>, i: nat, width: nat)
    requires Permutes(p, xs, ys) && RenamesEdges(p, edges, edges')
    requires Width(xs, width) && Width(ys, width) && i < |xs|
    requires Below(NeighborsAndNode(edges, i), |xs|) && Below(NeighborsAndNode(edges', p[i]), |xs|)
    ensures Pool(ys, NeighborsAndNode(edges', p[i]), width) == Pool(xs, NeighborsAndNode(edges, i), width)
  {
    hide Pool;
    var renamed := NeighborsAndNode(RenameEdges(p, edges), p[i]);
    NeighborsOfRenamed(p, edges, i);
    assert renamed == Gather(p, NeighborsAndNode(edges, i));
    NeighborsOfReordered(RenameEdges(p, edges), edges', p[i]);
    PoolPermutation(ys, NeighborsAndNode(edges', p[i]), renamed, width);
    assert Gather(ys, renamed) == Gather(xs, NeighborsAndNode(edges, i));
    PoolOfSameRows(ys, renamed, xs, NeighborsAndNode(edges, i), width);
  }

  lemma LayerIsEquivariant(p: seq<nat>, xs: Matrix, ys: Matrix, edges: seq<Edge>, edges': seq<Edge>,
                           pooling: Dense, linear: Dense)
    requires Permutes(p, xs, ys) && RenamesEdges(p, edges, edges')
    requires pooling.Valid() && linear.Valid() && linear.inFeatures == |pooling.bias|
    requires Width(xs, pooling.inFeatures) && Width(ys, pooling.inFeatures)
    ensures Permutes(p, Layer(xs, edges, pooling, linear), Layer(ys, edges', pooling, linear))
  {
    forall i | 0 <= i < |xs|
      ensures Layer(ys, edges', pooling, linear)[p[i]] == Layer(xs, edges, pooling, linear)[i]
    {
      NeighborsBelow(edges, i, |xs|);
      NeighborsBelow(edges', p[i], |xs|);
      PoolIsEquivariant(p, xs, ys, edges, edges', i, pooling.inFeatures);
    }
  }

  /**
   * Renaming the nodes by any bijection and reordering the edge list in any way permutes the
   * predictions by the same bijection.
   */
  lemma ForwardIsEquivariant(net: Network, graph: Graph, graph': Graph, p: seq<nat>, i: nat)
    requires net.Valid() && graph.Valid(net.linear1.inFeatures) && graph'.Valid(net.linear1.inFeatures)
    requires Permutes(p, graph.x, graph'.x) && RenamesEdges(p, graph.edges, graph'.edges) && i < |graph.x|
    ensures Prediction(net, graph', p[i]) == Prediction(net, graph, i)
  {
    LayerIsEquivariant(p, graph.x, graph'.x, graph.edges, graph'.edges, net.linear1, net.linear2);
    LayerIsEquivariant(p, Layer(graph.x, graph.edges, net.linear1, net.linear2),
                       Layer(graph'.x, graph'.edges, net.linear1, net.linear2),
                       graph.edges, graph'.edges, net.linear3, net.linear3);
  }

  // ------------------------------------------------------------- matrix form

  /** Row `i` of `A + I`, where `A` counts the edges between two nodes. */
  function AdjacencyAndSelf(edges: seq<Edge>, n: nat, i: nat): (r: Row)
    ensures |r| == n
  {
    seq(n, j requires 0 <= j < n => multiset(edges)[Edge(i, j)] as real + if i == j then 1.0 else 0.0)
  }

  function Counts(indexes: seq<nat>, n: nat): (r: Row)
    ensures |r| == n
  {
    seq(n, j requires 0 <= j < n => multiset(indexes)[j] as real)
  }

  lemma DotOfIncrement(a: Row, b: Row, x: Row, k: nat)
    requires |a| == |b| == |x| && k < |a| && b == a[k := a[k] + 1.0]
    ensures Dot(b, x) == Dot(a, x) + x[k]
  {
    var pa, pb := Products(a, x), Products(b, x);
    OneMoreTimes(a[k], x[k]);
    forall j | 0 <= j < |a| && j != k ensures pa[j] == pb[j] {
      assert a[j] == b[j];
    }
    SumOfUpdate(pa, pb, k);
  }

  lemma OneMoreTimes(a: real, x: real)
    ensures (a + 1.0) * x == a * x + x
  {
  }

  lemma {:induction false} PoolAtIsWeightedByCounts(xs: Matrix, indexes: seq<nat>, c: nat)
    requires Below(indexes, |xs|) && forall i | 0 <= i < |xs| :: c < |xs[i]|
    ensures PoolAt(xs, indexes, c) == Dot(Counts(indexes, |xs|), Column(xs, c))
  {
    if indexes == [] {
      DotOfZeros(Counts(indexes, |xs|), Column(xs, c));
    } else {
      hide PoolAt, Dot;
      var n := |indexes| - 1;
      var init, last := indexes[..n] + indexes[n + 1..], indexes[n];
      PoolAtWithout(xs, indexes, n, c);
      MultisetWithout(indexes, n);
      PoolAtIsWeightedByCounts(xs, init, c);
      CountsOfOneMore(indexes, init, last, |xs|);
      DotOfIncrement(Counts(init, |xs|), Counts(indexes, |xs|), Column(xs, c), last);
    }
  }

  lemma CountsOfOneMore(indexes: seq<nat>, init: seq<nat>, last: nat, n: nat)
    requires last in indexes && last < n && multiset(init) == multiset(indexes) - multiset{last}
    ensures Counts(indexes, n) == Counts(init, n)[last := Counts(init, n)[last] + 1.0]
  {
  }

  /** The gather-and-sum of node `i` is row `i` of `(A + I) @ xs`, duplicates and self-loops included. */
  lemma PoolIsMatrixForm(xs: Matrix, edges: seq<Edge>, i: nat, width: nat)
    requires Width(xs, width) && Joins(edges, |xs|) && i < |xs|
    ensures Below(NeighborsAndNode(edges, i), |xs|)
    ensures Pool(xs, NeighborsAndNode(edges, i), width) == Times(AdjacencyAndSelf(edges, |xs|, i), xs, width)
  {
    NeighborsBelow(edges, i, |xs|);
    var indexes := NeighborsAndNode(edges, i);
    forall c | 0 <= c < width
      ensures PoolAt(xs, indexes, c) == Dot(Counts(indexes, |xs|), Column(xs, c))
    {
      PoolAtIsWeightedByCounts(xs, indexes, c);
    }
    forall j | 0 <= j < |xs| ensures Counts(indexes, |xs|)[j] == AdjacencyAndSelf(edges, |xs|, i)[j] {
      NeighborsCount(edges, i, j);
    }
    assert Counts(indexes, |xs|) == AdjacencyAndSelf(edges, |xs|, i);
  }

  // ---------------------------------------------------------------- locality

  /** Node `i` has the same out-edges in both graphs, and the nodes they lead to the same rows. */
  ghost predicate SameNeighborhood(xs: Matrix, edges: seq<Edge>, xs': Matrix, edges': seq<Edge>, i: nat) {
    && multiset(Neighbors(edges, i)) == multiset(Neighbors(edges', i))
    && forall j | j in NeighborsAndNode(edges, i) :: j < |xs| && j < |xs'| && xs[j] == xs'[j]
  }

  lemma LayerIsLocal(xs: Matrix, edges: seq<Edge>, xs': Matrix, edges': seq<Edge>, i: nat,
                     pooling: Dense, linear: Dense)
    requires pooling.Valid() && linear.Valid() && linear.inFeatures == |pooling.bias|
    requires Width(xs, pooling.inFeatures) && Joins(edges, |xs|) && i < |xs|
    requires Width(xs', pooling.inFeatures) && Joins(edges', |xs'|) && i < |xs'|
    requires SameNeighborhood(xs, edges, xs', edges', i)
    ensures Layer(xs, edges, pooling, linear)[i] == Layer(xs', edges', pooling, linear)[i]
  {
    NeighborsBelow(edges, i, |xs|);
    NeighborsBelow(edges', i, |xs'|);
    var here, there := NeighborsAndNode(edges, i), NeighborsAndNode(edges', i);
    assert Below(here, |xs'|) by {
      forall k | 0 <= k < |here| ensures here[k] < |xs'| {
        assert here[k] in here;
      }
    }
    assert Gather(xs, here) == Gather(xs', here);
    PoolOfSameRows(xs, here, xs', here, pooling.inFeatures);
    PoolPermutation(xs', here, there, pooling.inFeatures);
  }

  /**
   * Row `i` of the prediction depends on the out-edges of `i` and of its out-neighbours, and on
   * the features of what these lead to. Anything else, the number of nodes included, may change.
   */
  lemma ForwardIsTwoHopLocal(net: Network, graph: Graph, graph': Graph, i: nat)
    requires net.Valid() && graph.Valid(net.linear1.inFeatures) && graph'.Valid(net.linear1.inFeatures)
    requires i < |graph.x| && i < |graph'.x|
    requires forall j | j in NeighborsAndNode(graph.edges, i) ::
      SameNeighborhood(graph.x, graph.edges, graph'.x, graph'.edges, j)
    ensures Prediction(net, graph, i) == Prediction(net, graph', i)
  {
    var hidden := Layer(graph.x, graph.edges, net.linear1, net.linear2);
    var hidden' := Layer(graph'.x, graph'.edges, net.linear1, net.linear2);
    forall j | j in NeighborsAndNode(graph.edges, i)
      ensures j < |hidden| && j < |hidden'| && hidden[j] == hidden'[j]
    {
      assert SameNeighborhood(graph.x, graph.edges, graph'.x, graph'.edges, j);
      assert j in NeighborsAndNode(graph.edges, j);
      LayerIsLocal(graph.x, graph.edges, graph'.x, graph'.edges, j, net.linear1, net.linear2);
    }
    assert i in NeighborsAndNode(graph.edges, i);
    LayerIsLocal(hidden, graph.edges, hidden', graph'.edges, i, net.linear3, net.linear3);
  }

  // ------------------------------------------------- what a layer computes

  lemma ApplyOfUnitRow(l: Dense, x: Row, m: nat, c: nat, t: real)
    requires l.Valid() && |x| == l.inFeatures && m < |l.bias| && IsUnit(l.weights[m], c, t)
    ensures Apply(l, x)[m] == t * x[c] + l.bias[m]
  {
    DotOfUnit(l.weights[m], x, c, t);
  }

  /** An output is linear in its weight row; with the unit rows this fixes the linear layer. */
  lemma ApplyOfCombination(l: Dense, x: Row, m: nat, s: real, m1: nat, t: real, m2: nat)
    requires l.Valid() && |x| == l.inFeatures && m < |l.bias| && m1 < |l.bias| && m2 < |l.bias|
    requires Combines(l.weights[m], s, l.weights[m1], t, l.weights[m2])
    ensures Apply(l, x)[m] - l.bias[m] == s * (Apply(l, x)[m1] - l.bias[m1]) + t * (Apply(l, x)[m2] - l.bias[m2])
  {
    DotOfCombination(l.weights[m], s, l.weights[m1], t, l.weights[m2], x);
    DotCommutes(l.weights[m], x);
    DotCommutes(l.weights[m1], x);
    DotCommutes(l.weights[m2], x);
    assert Apply(l, x)[m1] - l.bias[m1] == Dot(x, l.weights[m1]);
    assert Apply(l, x)[m2] - l.bias[m2] == Dot(x, l.weights[m2]);
  }

  /** Every output of a layer is non-negative. */
  lemma LayerIsNonNegative(xs: Matrix, edges: seq<Edge>, pooling: Dense, linear: Dense, i: nat, m: nat)
    requires pooling.Valid() && linear.Valid() && linear.inFeatures == |pooling.bias|
    requires Width(xs, pooling.inFeatures) && Joins(edges, |xs|) && i < |xs| && m < |linear.bias|
    ensures Layer(xs, edges, pooling, linear)[i][m] >= 0.0
  {
  }

  /**
   * Output `m` through unit rows with factors `s` and `t`: the coordinate `c` of row `i` of
   * `(A + I) @ xs`, scaled and shifted, cut off below zero, twice. `u` and `w` are the two inputs
   * of the cut-off.
   */
  lemma LayerOfUnitRows(xs: Matrix, edges: seq<Edge>, pooling: Dense, linear: Dense, i: nat,
                        m: nat, t: real, h: nat, s: real, c: nat, u: real, w: real)
    requires pooling.Valid() && linear.Valid() && linear.inFeatures == |pooling.bias|
    requires Width(xs, pooling.inFeatures) && Joins(edges, |xs|) && i < |xs|
    requires m < |linear.bias| && IsUnit(linear.weights[m], h, t) && IsUnit(pooling.weights[h], c, s)
    requires u == s * Times(AdjacencyAndSelf(edges, |xs|, i), xs, pooling.inFeatures)[c] + pooling.bias[h]
    requires w == t * (if u > 0.0 then u else 0.0) + linear.bias[m]
    ensures Layer(xs, edges, pooling, linear)[i][m] == if w > 0.0 then w else 0.0
  {
    hide Times, Pool, Apply;
    PoolIsMatrixForm(xs, edges, i, pooling.inFeatures);
    var pooled := Pool(xs, NeighborsAndNode(edges, i), pooling.inFeatures);
    ApplyOfUnitRow(pooling, pooled, h, c, s);
    var result := NodeResult(xs, edges, i, pooling);
    assert Apply(pooling, pooled)[h] == u;
    assert result[h] == if u > 0.0 then u else 0.0;
    ApplyOfUnitRow(linear, result, m, h, t);
  }

  /** `l` multiplies every coordinate by `t`. */
  ghost predicate IsScaling(l: Dense, t: real) {
    && |l.bias| == l.inFeatures && |l.weights| == |l.bias|
    && forall m | 0 <= m < |l.bias| :: IsUnit(l.weights[m], m, t) && l.bias[m] == 0.0
  }

  lemma MatrixFormIsNonNegative(xs: Matrix, edges: seq<Edge>, i: nat, width: nat, c: nat)
    requires Width(xs, width) && c < width
    requires forall j, k | 0 <= j < |xs| && 0 <= k < width :: xs[j][k] >= 0.0
    ensures Times(AdjacencyAndSelf(edges, |xs|, i), xs, width)[c] >= 0.0
  {
    DotIsNonNegative(AdjacencyAndSelf(edges, |xs|, i), Column(xs, c));
  }

  /** With identities for the linear layers and non-negative features, a layer is `(A + I) @ xs`. */
  lemma LayerOfIdentities(xs: Matrix, edges: seq<Edge>, pooling: Dense, linear: Dense, i: nat)
    requires pooling.Valid() && linear.Valid() && linear.inFeatures == |pooling.bias|
    requires IsScaling(pooling, 1.0) && IsScaling(linear, 1.0)
    requires Width(xs, pooling.inFeatures) && Joins(edges, |xs|) && i < |xs|
    requires forall j, k | 0 <= j < |xs| && 0 <= k < pooling.inFeatures :: xs[j][k] >= 0.0
    ensures Layer(xs, edges, pooling, linear)[i] == Times(AdjacencyAndSelf(edges, |xs|, i), xs, pooling.inFeatures)
  {
    var expected := Times(AdjacencyAndSelf(edges, |xs|, i), xs, pooling.inFeatures);
    forall m | 0 <= m < pooling.inFeatures ensures Layer(xs, edges, pooling, linear)[i][m] == expected[m] {
      MatrixFormIsNonNegative(xs, edges, i, pooling.inFeatures, m);
      LayerOfUnitRows(xs, edges, pooling, linear, i, m, 1.0, m, 1.0, m, expected[m], expected[m]);
    }
  }

  /** With minus the identity in the pooling, such a layer is zero. */
  lemma LayerOfMinusIdentity(xs: Matrix, edges: seq<Edge>, pooling: Dense, linear: Dense, i: nat, m: nat)
    requires pooling.Valid() && linear.Valid() && linear.inFeatures == |pooling.bias|
    requires IsScaling(pooling, -1.0) && IsScaling(linear, 1.0)
    requires Width(xs, pooling.inFeatures) && Joins(edges, |xs|) && i < |xs| && m < pooling.inFeatures
    requires forall j, k | 0 <= j < |xs| && 0 <= k < pooling.inFeatures :: xs[j][k] >= 0.0
    ensures Layer(xs, edges, pooling, linear)[i][m] == 0.0
  {
    var product := Times(AdjacencyAndSelf(edges, |xs|, i), xs, pooling.inFeatures)[m];
    MatrixFormIsNonNegative(xs, edges, i, pooling.inFeatures, m);
    LayerOfUnitRows(xs, edges, pooling, linear, i, m, 1.0, m, -1.0, m, -product, 0.0);
  }
}
