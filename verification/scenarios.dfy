/**
 The concrete batches of the test suite, stated on the model. Feature values
 are small integers standing for the float entries; random tensors are
 arbitrary arguments constrained only by their sizes.
 */
module Scenarios {
  import opened Results
  import opened Offsets
  import opened Segments
  import opened Edges
  import opened Stores
  import opened Batching
  import Hetero

  /** `edge_index` `[[0, 1, 1, 2], [1, 0, 2, 1]]`. */
  function Edges1(): seq<Edge>
  {
    [Edge(0, 1), Edge(1, 0), Edge(1, 2), Edge(2, 1)]
  }

  /** `edge_index` `[[0, 1], [1, 0]]`. */
  function Edges2(): seq<Edge>
  {
    [Edge(0, 1), Edge(1, 0)]
  }

  /** First graph of the basic batch: three nodes, one feature block `x`, the
      `edge_index` and its adjacency `adj` as two index blocks, no edge
      attribute rows, and the string `s`. */
  function Graph1(): Data<int, int, string>
  {
    Data(NodeStore(3, [[1, 2, 3]]), EdgeStore([Edges1(), Edges1()], []), "1")
  }

  function Graph2(): Data<int, int, string>
  {
    Data(NodeStore(2, [[1, 2]]), EdgeStore([Edges2(), Edges2()], []), "2")
  }

  /** The basic batch's node side: features concatenated, strings collected
      in a list, `num_nodes` 5, `batch` `[0, 0, 0, 1, 1]` and `ptr` `[0, 3, 5]`. */
  lemma {:induction false} BasicNodes(d1: Data<int, int, string>, d2: Data<int, int, string>, b: Batch<int, int, string>)
    requires d1 == Graph1() && d2 == Graph2()
    requires FromDataList([d1, d2]) == Ok(b)
    ensures b.nodes.x[0] == [1, 2, 3, 1, 2]
    ensures b.graph == ["1", "2"]
    ensures b.nodes.numNodes == 5
    ensures b.nodes.batch == [0, 0, 0, 1, 1]
    ensures b.nodes.ptr == [0, 3, 5]
    ensures b.numGraphs == 2
  {
    TwoGraphs(d1, d2, b);
    assert Repeat(0, 3) + Repeat(1, 2) == [0, 0, 0, 1, 1];
  }

  /** The basic batch's edge side: the second graph's edges are shifted by 3
      and the adjacency block equals `edge_index`. */
  lemma {:induction false} BasicEdges(d1: Data<int, int, string>, d2: Data<int, int, string>, b: Batch<int, int, string>)
    requires d1 == Graph1() && d2 == Graph2()
    requires FromDataList([d1, d2]) == Ok(b)
    ensures Sources(b.edges.index[0]) == [0, 1, 1, 2, 3, 4]
    ensures Targets(b.edges.index[0]) == [1, 0, 2, 1, 4, 3]
    ensures b.edges.index[1] == b.edges.index[0]
  {
    TwoGraphs(d1, d2, b);
    IndexBlocksAgree([d1, d2], b, 0, 1);
    BasicEdgeRows(b.edges.index[0]);
  }

  /** The rows of the basic batch's `edge_index`. */
  lemma {:induction false} BasicEdgeRows(es: seq<Edge>)
    requires es == Edges1() + Shift(Edges2(), 3, 3)
    ensures Sources(es) == [0, 1, 1, 2, 3, 4]
    ensures Targets(es) == [1, 0, 2, 1, 4, 3]
  {
    assert Shift(Edges2(), 3, 3) == [Edge(3, 4), Edge(4, 3)];
    assert es == [Edge(0, 1), Edge(1, 0), Edge(1, 2), Edge(2, 1), Edge(3, 4), Edge(4, 3)];
  }

  /** Selecting from the basic batch by the index list `[1, 0]` gives the
      two graphs in swapped order, and the index 2 is past the end. */
  lemma {:induction false} BasicIndexSelect(d1: Data<int, int, string>, d2: Data<int, int, string>, b: Batch<int, int, string>)
    requires d1 == Graph1() && d2 == Graph2()
    requires FromDataList([d1, d2]) == Ok(b)
    ensures IndexSelect(b, [1, 0]) == Ok([d2, d1])
    ensures Get(b, 2) == Err(IndexOutOfRange(2))
  {
    var idx := [1, 0];
    SelectGraphs([d1, d2], b, idx);
    var r := IndexSelect(b, idx).value;
    assert r == [d2, d1] by {
      assert |r| == 2 && r[0] == d2 && r[1] == d1;
    }
  }

  /** The mask `[True, False]` selects the first graph only. */
  lemma {:induction false} BasicMaskSelect(d1: Data<int, int, string>, d2: Data<int, int, string>, b: Batch<int, int, string>,
                                           mask: seq<bool>)
    requires d1 == Graph1() && d2 == Graph2()
    requires FromDataList([d1, d2]) == Ok(b)
    requires mask == [true, false]
    ensures MaskSelect(b, mask) == Ok([d1])
  {
    FirstOnly(mask);
    MaskGraphs([d1, d2], b, mask);
    var r := MaskSelect(b, mask).value;
    assert r == [d1] by {
      assert |r| == 1 && r[0] == d1;
    }
  }

  /** The true positions of `[True, False]`. */
  lemma {:induction false} FirstOnly(mask: seq<bool>)
    requires mask == [true, false]
    ensures TrueIndices(mask) == [0]
  {
    assert mask[..1][..0] == [];
    assert mask[..1] == [true];
  }

  /** `batch[:2]` and `to_data_list` give back both graphs, the second with
      its unshifted edges. */
  lemma {:induction false} BasicDataList(d1: Data<int, int, string>, d2: Data<int, int, string>, b: Batch<int, int, string>)
    requires d1 == Graph1() && d2 == Graph2()
    requires FromDataList([d1, d2]) == Ok(b)
    ensures SliceSelect(b, 0, 2) == [d1, d2]
    ensures ToDataList(b) == [d1, d2]
    ensures ToDataList(b)[1].edges.index[0] == Edges2()
  {
    ToDataListRoundTrip([d1, d2], b);
  }

  /** Graph-level values of the stacking test: a scalar label `y` and a
      length-4 vector `foo` whose concatenation dimension is `None`. */
  datatype Label = Label(y: int, foo: seq<real>)

  /** Stacking: `x` is concatenated, while `y` becomes `[1, 2]` and `foo`
      becomes a 2 x 4 table whose rows are the graphs' vectors. */
  lemma {:induction false} NewDimension(foo1: seq<real>, foo2: seq<real>, b: Batch<int, int, Label>)
    requires |foo1| == 4 && |foo2| == 4
    requires FromDataList([Data(NodeStore(3, [[1, 2, 3]]), EdgeStore([], []), Label(1, foo1)),
                           Data(NodeStore(2, [[1, 2]]), EdgeStore([], []), Label(2, foo2))]) == Ok(b)
    ensures b.nodes.x[0] == [1, 2, 3, 1, 2]
    ensures |b.graph| == 2 && b.graph[0].y == 1 && b.graph[1].y == 2
    ensures b.graph[0].foo == foo1 && b.graph[1].foo == foo2
    ensures |b.graph[0].foo| == 4 && |b.graph[1].foo| == 4
    ensures b.nodes.batch == [0, 0, 0, 1, 1] && b.nodes.ptr == [0, 3, 5]
  {
    TwoGraphs(Data(NodeStore(3, [[1, 2, 3]]), EdgeStore([], []), Label(1, foo1)),
              Data(NodeStore(2, [[1, 2]]), EdgeStore([], []), Label(2, foo2)), b);
    assert Repeat(0, 3) + Repeat(1, 2) == [0, 0, 0, 1, 1];
  }

  /** Nested attributes: with 30 and 60 nodes, each of the two feature blocks
      is concatenated on its own, each of the two `edge_index` blocks of the
      second graph is shifted by 30, and separating gives back each graph. */
  lemma {:induction false} RecursiveBatch<T>(d1: Data<T, int, int>, d2: Data<T, int, int>, b: Batch<T, int, int>)
    requires d1.nodes.numNodes == 30 && d2.nodes.numNodes == 60
    requires |d1.nodes.x| == 2 && |d1.edges.index| == 2
    requires FromDataList([d1, d2]) == Ok(b)
    ensures b.numGraphs == 2 && b.nodes.numNodes == 90
    ensures |b.nodes.batch| == 90 && |b.nodes.ptr| == 3
    ensures b.nodes.x[0] == d1.nodes.x[0] + d2.nodes.x[0]
    ensures b.nodes.x[1] == d1.nodes.x[1] + d2.nodes.x[1]
    ensures b.edges.index[0] == d1.edges.index[0] + Shift(d2.edges.index[0], 30, 30)
    ensures b.edges.index[1] == d1.edges.index[1] + Shift(d2.edges.index[1], 30, 30)
    ensures Separate(b, 0) == d1 && Separate(b, 1) == d2
  {
    TwoGraphs(d1, d2, b);
    RoundTrip([d1, d2], b, 0);
    RoundTrip([d1, d2], b, 1);
  }

  /** Two heterogeneous graphs with node types `p` (0) and `a` (1) and edge
      type `(p, a)`: `p` counts 100 and 50, `a` counts 200 and 100. */
  predicate PaperAuthor<T, E>(d1: Hetero.HeteroData<T, E>, d2: Hetero.HeteroData<T, E>)
  {
    && |d1.nodes| == 2 && |d2.nodes| == 2
    && d1.nodes[0].numNodes == 100 && d1.nodes[1].numNodes == 200
    && d2.nodes[0].numNodes == 50 && d2.nodes[1].numNodes == 100
    && |d1.nodes[0].x| == 1 && |d1.nodes[1].x| == 1
    && |d1.edges| == 1 && d1.edges[0].src == 0 && d1.edges[0].dst == 1
    && |d1.edges[0].store.index| == 1
  }

  /** The heterogeneous batch: each type's features are concatenated, the
      second graph's edges get `+100` on the source row and `+200` on the
      destination row, edge attributes are concatenated, each type has its
      own `ptr` of size 3 and `batch` of size 150 or 300, `num_nodes` is 450,
      and separating gives back each graph with 300 and 150 nodes. */
  lemma {:induction false} HeteroBatchScenario<T, E>(d1: Hetero.HeteroData<T, E>, d2: Hetero.HeteroData<T, E>, hb: Hetero.HeteroBatch<T, E>)
    requires PaperAuthor(d1, d2)
    requires Hetero.FromDataList([d1, d2]) == Ok(hb)
    ensures hb.numGraphs == 2 && |hb.nodes| == 2 && |hb.edges| == 1
    ensures hb.nodes[0].x[0] == d1.nodes[0].x[0] + d2.nodes[0].x[0]
    ensures hb.nodes[1].x[0] == d1.nodes[1].x[0] + d2.nodes[1].x[0]
    ensures hb.edges[0].store.index[0] == d1.edges[0].store.index[0] + Shift(d2.edges[0].store.index[0], 100, 200)
    ensures hb.edges[0].store.attr == d1.edges[0].store.attr + d2.edges[0].store.attr
    ensures |hb.nodes[0].ptr| == 3 && |hb.nodes[0].batch| == 150
    ensures |hb.nodes[1].ptr| == 3 && |hb.nodes[1].batch| == 300
    ensures Hetero.BatchNumNodes(hb) == 450
    ensures Hetero.Separate(hb, 0) == d1 && Hetero.Separate(hb, 1) == d2
    ensures Hetero.NumNodes(d1) == 300 && Hetero.NumNodes(d2) == 150
  {
    Hetero.TwoGraphsType(d1, d2, hb, 0);
    Hetero.TwoGraphsType(d1, d2, hb, 1);
    Hetero.TwoGraphsRelation(d1, d2, hb, 0);
    Hetero.RoundTrip([d1, d2], hb, 0);
    Hetero.RoundTrip([d1, d2], hb, 1);
    HeteroNodeCounts(d1, d2, hb);
  }

  /** The node counts of the paper/author scenario: 300 and 150 per graph and
      450 in the batch. */
  lemma {:induction false} HeteroNodeCounts<T, E>(d1: Hetero.HeteroData<T, E>, d2: Hetero.HeteroData<T, E>, hb: Hetero.HeteroBatch<T, E>)
    requires PaperAuthor(d1, d2)
    requires Hetero.FromDataList([d1, d2]) == Ok(hb)
    ensures Hetero.BatchNumNodes(hb) == 450
    ensures Hetero.NumNodes(d1) == 300 && Hetero.NumNodes(d2) == 150
  {
    Hetero.TwoGraphsType(d1, d2, hb, 0);
    Hetero.TwoGraphsType(d1, d2, hb, 1);
    GraphNodeCount(d1, 100, 200);
    GraphNodeCount(d2, 50, 100);
    BatchNodeCount(hb, 150, 300);
  }

  /** A graph with two node types of `a` and `b` nodes has `a + b` nodes. */
  lemma {:induction false} GraphNodeCount<T, E>(d: Hetero.HeteroData<T, E>, a: nat, b: nat)
    requires |d.nodes| == 2 && d.nodes[0].numNodes == a && d.nodes[1].numNodes == b
    ensures Hetero.NumNodes(d) == a + b
  {
    assert Hetero.TypeCounts(d) == [a, b];
    SumPair(a, b);
  }

  /** A batch with two node types of `a` and `b` merged nodes has `a + b` nodes. */
  lemma {:induction false} BatchNodeCount<T, E>(hb: Hetero.HeteroBatch<T, E>, a: nat, b: nat)
    requires |hb.nodes| == 2 && hb.nodes[0].numNodes == a && hb.nodes[1].numNodes == b
    ensures Hetero.BatchNumNodes(hb) == a + b
  {
    assert Hetero.BatchTypeCounts(hb) == [a, b];
    SumPair(a, b);
  }

  /** Sum of two counts. */
  lemma {:induction false} SumPair(a: nat, b: nat)
    ensures Sum([a, b]) == a + b
  {
    assert [a, b][..1] == [a];
    assert [a][..0] == [];
    assert Sum([a]) == Sum([]) + a;
  }
}
