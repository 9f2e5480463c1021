# Graph batching in PyTorch Geometric, modelled in Dafny

This project models the graph-batching core of PyTorch Geometric. The
operations are:

- `Batch.from_data_list` merges a list of graphs into one batch;
- `batch[i]`, `index_select` (by index list or boolean mask) and slicing
  `batch[a:b]` recover single graphs or sub-lists;
- `to_data_list` recovers the whole list.

The behaviour modelled is the behaviour that `test/data/test_batch.py` pins
down: the homogeneous batch, the batch with a new graph-level dimension, the
batch of nested (dict- and list-valued) attributes, and the heterogeneous
batch.

Modules, in dependency order:

- `Results`: `Result<T>` with the two errors, a layout mismatch and an index
  out of range.
- `Offsets`: the side tables. `Ptr` is the pointer array `ptr`, the prefix
  sums of the node counts. `Membership` is the membership vector `batch`,
  each graph index repeated once per node. `CumSum` and `RepeatInterleave`
  are the loops that compute them.
- `Segments`: concatenating a list of blocks (`Flatten`) and recovering
  block `i` as the slice between entries `i` and `i + 1` of its slice array.
- `Edges`: edge lists as sequences of `(src, dst)` pairs, and shifting them
  by a node offset.
- `Stores`: the node store and edge store of one graph, their merged forms,
  and collation and separation of a column of stores.
- `Batching`: homogeneous graphs (`Data`) and batches (`Batch`), with
  `FromDataList`, `Get`, `IndexSelect`, `MaskSelect`, `SliceSelect` and
  `ToDataList`.
- `Hetero`: heterogeneous graphs (`HeteroData`). There is one store per
  node type and per edge type, and a separate `ptr` and `batch` per node
  type.
- `Scenarios`: the concrete batches of the test file, stated on the model.

Representation choices:

- A node store holds `num_nodes` and a list of feature blocks (`x`). A
  dict- or list-valued attribute is one block per key, in key order.
- Each block is concatenated along its first dimension. It is sliced back
  through its own slice array, not through `ptr`. In the nested-attribute
  test, `x['1']` has 10 rows in a graph of 30 nodes, so block rows and node
  rows differ.
- An edge store holds a list of index blocks (`edge_index`, and `adj` kept
  as its coordinate list) and the edge attribute rows (`edge_attr`).
- Index blocks are shifted by the node offset of their graph. Attribute rows
  are only concatenated.
- Graph-level values (`y`, a vector `foo` whose concatenation dimension is
  `None`, the string `s`) are one generic value `G` per graph. The batch
  stacks them into a list with one entry per graph.
- Feature entries are a type parameter; the concrete scenarios use small
  integers for the float entries.

Each block is cut back at its own slice array, not at `ptr`. In
`test/data/test_batch.py` lines 126-127, `x['1']` has 10 rows in a graph of
30 nodes, and lines 144-147 and 158 require it back whole.

## Model

| member | source | states |
|---|---|---|
| Offsets.Ptr | test/data/test_batch.py:42 | `ptr` has one entry more than there are graphs, starts at 0, grows by each graph's node count, and ends at the total node count |
| Offsets.PtrMonotone | test/data/test_batch.py:42 | entries of `ptr` never decrease |
| Offsets.PtrIsSliceArray | test/data/test_batch.py:42 | `ptr` is a valid slice array over the total node count |
| Offsets.CumSum | test/data/test_batch.py:42 | the cumulative-sum loop computes exactly `ptr` |
| Offsets.Membership | test/data/test_batch.py:41 | `batch` has one entry per node, and every entry is the index of an existing graph |
| Offsets.MembershipSegment | test/data/test_batch.py:41-42 | `batch[j] == i` exactly when `ptr[i] <= j < ptr[i+1]`: the two side tables describe the same partition |
| Offsets.SideTables | test/data/test_batch.py:41-42 | for every graph and row, the two side tables agree on ownership, and `batch` is sorted |
| Offsets.MembershipSorted | test/data/test_batch.py:41 | `batch` is sorted in non-decreasing order |
| Offsets.MembershipSlice | test/data/test_batch.py:41 | the segment of `batch` owned by graph `i` is `i` repeated `num_nodes` times |
| Offsets.RepeatInterleave | test/data/test_batch.py:41 | the repeat-interleave loop computes exactly `batch` |
| Offsets.SumSwap | test/data/test_batch.py:190 | summing a count table over types and then over graphs gives the same total as the other order |
| Segments.Flatten | test/data/test_batch.py:34 | the concatenation is as long as the parts together |
| Segments.FlattenSlice | test/data/test_batch.py:34 | part `i` is the slice of the concatenation between entries `i` and `i + 1` of the prefix sums of the part lengths |
| Segments.FlattenMember | test/data/test_batch.py:35-36 | every element of a concatenation comes from one of the parts |
| Edges.Shift | test/data/test_batch.py:196-198 | a shift keeps the number of edges; what it does to each row is stated by `Edges.ShiftRows` and `Edges.ShiftRoundTrip` |
| Edges.ShiftRoundTrip | test/data/test_batch.py:63 | shifting an edge list and shifting it back by the opposite offsets gives the original list |
| Edges.ShiftRows | test/data/test_batch.py:35-36 | a shift adds its source offset to row 0 and its destination offset to row 1 |
| Edges.ShiftWithin | test/data/test_batch.py:35-36 | edges valid for `ns` source and `nd` destination nodes, shifted by `(ds, dd)`, land in `[ds, ds + ns)` and `[dd, dd + nd)` |
| Stores.CollateNodes | test/data/test_batch.py:34-42 | the merged node store is well formed, keeps the block count, and has as many `batch` entries as nodes, with `ptr` ending at that count |
| Stores.CollateEdges | test/data/test_batch.py:35-36 | the merged edge store is well formed and keeps the block count |
| Stores.NodeTables | test/data/test_batch.py:40-42 | the merged `ptr` and `batch` are the prefix sums and membership vector of the node counts, related both ways and sorted |
| Stores.FeatureSegment | test/data/test_batch.py:144-147 | block `b` of graph `i` is the slice of merged block `b` at its own offsets |
| Stores.EdgeSegment | test/data/test_batch.py:148-151 | index block `b` of graph `i` appears in the merged block, shifted by graph `i`'s offsets |
| Stores.AttrSegment | test/data/test_batch.py:199-201 | graph `i`'s edge attribute rows are a slice of the merged rows at their own offsets |
| Stores.AttrSegments | test/data/test_batch.py:199-201 | the edge attribute slice array starts at 0, ends at the row count, and cuts out every graph's rows |
| Stores.SeparateNodes | test/data/test_batch.py:62 | graph `i`'s node count is the width of its `ptr` window, and each of its blocks has exactly the rows between entries `i` and `i + 1` of that block's slice array, in order |
| Stores.SeparateEdges | test/data/test_batch.py:63 | each index block of graph `i` is the merged block's window at its slice array, with the given offsets taken off both rows, and the attribute rows are the merged rows' window |
| Stores.NodesRoundTrip | test/data/test_batch.py:62 | separating graph `i` from the merged node store gives back its node store |
| Stores.EdgesRoundTrip | test/data/test_batch.py:63 | separating graph `i` and unshifting by its offsets gives back its edge store |
| Stores.EdgesWithin | test/data/test_batch.py:35-36 | edges valid in their own graphs stay valid in the merged node space |
| Batching.FromDataList | test/data/test_batch.py:26-29 | the batch exists exactly when all graphs share one layout; it is then well formed, counts the graphs and keeps the block counts |
| Batching.Get | test/data/test_batch.py:45-50 | `batch[i]` succeeds exactly for `0 <= i < num_graphs`, returns graph `i`, and otherwise reports `i` as out of range |
| Batching.Separate | test/data/test_batch.py:45-50 | graph `i` has the node count of its `ptr` window, as many feature and index blocks as the batch, and its own graph-level value; its full meaning is fixed by `Batching.RoundTrip` |
| Batching.IndexSelect | test/data/test_batch.py:52 | selection succeeds exactly when all indices are in range; it returns one graph per index, in order, and otherwise reports an index from the list |
| Batching.TrueIndices | test/data/test_batch.py:54 | a mask selects exactly its true positions, in increasing order, and as many as it has `true` entries |
| Batching.MaskSelect | test/data/test_batch.py:54 | mask selection succeeds exactly when every true position names a graph; it returns the graphs at the true positions |
| Batching.SliceIndices | test/data/test_batch.py:57 | `[start:stop]` is the run of indices from `start` clipped to the graph count |
| Batching.SliceSelect | test/data/test_batch.py:57 | slicing returns the graphs `start`, `start + 1`, … that exist, up to `stop` |
| Batching.ToDataList | test/data/test_batch.py:59-60 | `to_data_list` returns one graph per graph in the batch |
| Batching.PointerArray | test/data/test_batch.py:40-42 | the batch's `ptr` starts at 0, steps by each graph's node count and ends at `num_nodes`, the length of `batch` |
| Batching.MembershipVector | test/data/test_batch.py:41-42 | `batch[j] == i` exactly when `ptr[i] <= j < ptr[i+1]`, and `batch` is sorted |
| Batching.BatchNodeTables | test/data/test_batch.py:40-42 | the batch's side tables are the prefix sums and membership vector of the graphs' node counts |
| Batching.FeaturesConcatenated | test/data/test_batch.py:34 | every feature block of the batch is the graphs' blocks concatenated in order |
| Batching.EdgeSegmentShifted | test/data/test_batch.py:35-36 | graph `i`'s edges sit in the merged index block shifted by `ptr[i]` on both rows |
| Batching.EdgeIndexShifted | test/data/test_batch.py:148-151 | every index block of the batch is the graphs' blocks, each shifted by its `ptr` entry, concatenated in order |
| Batching.EdgeOwnership | test/data/test_batch.py:35-41 | both endpoints of a merged edge of graph `i` are nodes that `batch` assigns to graph `i` |
| Batching.EdgeIndexValid | test/data/test_batch.py:35-36 | edges valid in their graphs are valid node indices of the batch |
| Batching.IndexBlocksAgree | test/data/test_batch.py:37-38 | two index blocks that agree in every graph (`adj` and `edge_index`) agree in the batch |
| Batching.GraphAttrsStacked | test/data/test_batch.py:106-108 | graph-level vectors of length `w` are stacked into a table of one row per graph |
| Batching.RoundTrip | test/data/test_batch.py:62-75 | separating graph `i` from the batch gives back graph `i` |
| Batching.MaskGraphs | test/data/test_batch.py:54 | a mask over the graphs selects the original graphs at its `true` positions, in order |
| Batching.SelectGraphs | test/data/test_batch.py:52-53 | `index_select` with indices in range returns the original graph at each index, in the order of the indices |
| Batching.SliceGraphs | test/data/test_batch.py:57 | for any batch that separates into `ds`, `batch[start:stop]` is the Python slice of `ds`: `stop` clipped to the list length, and empty when `start` is not below it |
| Batching.SliceRoundTrip | test/data/test_batch.py:57 | slicing a batch built from `ds` gives that slice of `ds` |
| Batching.ToDataListRoundTrip | test/data/test_batch.py:59-75 | `to_data_list` of a batch gives back the list it was built from |
| Batching.TwoGraphs | test/data/test_batch.py:34-43 | for two graphs, `ptr == [0, n1, n1 + n2]`, `batch` is `n1` zeros then `n2` ones, blocks are concatenated, and the second graph's edges are shifted by `n1` |
| Hetero.FromDataList | test/data/test_batch.py:186 | a heterogeneous batch exists exactly when all graphs share the first graph's node and edge types; it is then well formed and counts the graphs |
| Hetero.Separate | test/data/test_batch.py:207-217 | graph `i` has every node and edge type of the batch, each node type with the count of that type's `ptr` window, and each edge type with its endpoint types kept; its full meaning is fixed by `Hetero.RoundTrip` |
| Hetero.NumNodes | test/data/test_batch.py:209 | a graph's `num_nodes` is at least each type's count, and is 0 when every type is empty |
| Hetero.BatchNumNodes | test/data/test_batch.py:190 | the batch's `num_nodes` is at least each type's merged count, and is 0 when every type is empty |
| Hetero.ToDataList | test/data/test_batch.py:207-221 | one graph per graph in the batch |
| Hetero.TypeTables | test/data/test_batch.py:202-205 | each node type has a `ptr` of one entry more than the graph count, stepping by that type's node counts, and a matching `batch` |
| Hetero.RelationShifted | test/data/test_batch.py:196-198 | graph `i`'s edges of an edge type appear shifted by the source type's `ptr[i]` on row 0 and the destination type's `ptr[i]` on row 1 |
| Hetero.RelationValid | test/data/test_batch.py:196-198 | edges valid for their endpoint types stay valid in the merged node spaces of those types |
| Hetero.TypeRoundTrip | test/data/test_batch.py:210-211 | separating graph `i` gives back each node type's store |
| Hetero.RelationRoundTrip | test/data/test_batch.py:212-213 | separating graph `i` gives back each edge type's store, unshifted |
| Hetero.RoundTrip | test/data/test_batch.py:207-221 | separating graph `i` from the heterogeneous batch gives back graph `i` |
| Hetero.ToDataListRoundTrip | test/data/test_batch.py:207-221 | `to_data_list` of a heterogeneous batch gives back the list it was built from |
| Hetero.TypeTotal | test/data/test_batch.py:190 | a node type's merged node count is the sum of that type's counts over the graphs |
| Hetero.NumNodesAdd | test/data/test_batch.py:190 | the batch's `num_nodes`, summed over node types, is the sum of the graphs' `num_nodes` |
| Hetero.TypeFeatures | test/data/test_batch.py:192-195 | each node type's feature block is the graphs' blocks of that type, concatenated at their own offsets |
| Hetero.TwoGraphsType | test/data/test_batch.py:192-205 | for two graphs, a node type's `ptr` is `[0, n1, n1 + n2]`, it has `n1 + n2` membership entries, and its blocks are concatenated |
| Hetero.TwoGraphsRelation | test/data/test_batch.py:196-201 | for two graphs, an edge type's blocks are the first graph's edges followed by the second's, shifted by the first graph's source and destination counts, and the attribute rows are concatenated |
| Scenarios.BasicNodes | test/data/test_batch.py:34-43 | the basic batch has `x == [1, 2, 3, 1, 2]`, `s == ['1', '2']`, 5 nodes, `batch == [0, 0, 0, 1, 1]`, `ptr == [0, 3, 5]` and 2 graphs |
| Scenarios.BasicEdges | test/data/test_batch.py:35-38 | the basic batch's `edge_index` rows are `[0, 1, 1, 2, 3, 4]` and `[1, 0, 2, 1, 4, 3]`, and `adj` has the same coordinates |
| Scenarios.BasicEdgeRows | test/data/test_batch.py:35-36 | the concrete rows of the first edge list followed by the second shifted by 3 |
| Scenarios.BasicIndexSelect | test/data/test_batch.py:52-53 | selecting `[1, 0]` from the basic batch gives the second graph then the first, and index 2 is out of range |
| Scenarios.BasicMaskSelect | test/data/test_batch.py:54 | the mask `[True, False]` selects exactly the first graph |
| Scenarios.BasicDataList | test/data/test_batch.py:57-75 | `batch[:2]` and `to_data_list` give back both graphs, the second with its edges unshifted |
| Scenarios.NewDimension | test/data/test_batch.py:105-111 | `x` is concatenated; `y` becomes `[1, 2]`; `foo` becomes a 2 x 4 table whose rows are `foo1` and `foo2`; the side tables are those of 3 and 2 nodes |
| Scenarios.RecursiveBatch | test/data/test_batch.py:138-159 | with 30 and 60 nodes the batch has 90 nodes, 90 membership entries and 3 pointer entries; both feature blocks are concatenated, both index blocks of the second graph are shifted by 30, and both graphs separate back |
| Scenarios.HeteroBatchScenario | test/data/test_batch.py:186-221 | for the paper/author batch: features concatenated per type, edges shifted by 100 and 200, attributes concatenated, pointer sizes 3, membership sizes 150 and 300, 450 nodes, and each graph (300 and 150 nodes) separates back |
| Scenarios.HeteroNodeCounts | test/data/test_batch.py:186-217 | in the paper/author batch each graph has 300 and 150 nodes and the batch has 450 |

## Left out

- The printed forms of batches and graphs (`str`, `repr`) and `len(batch)`, the number of attribute keys: these are presentation, not data.
- The tensor shape metadata of a separated 0-dimensional value (`y` coming back with shape `[1]`): the model stores graph-level values as they are, with no shapes.
- The floating-point contents of features and `allclose` comparisons: feature entries are a type parameter and compared exactly.
- Inferring `num_nodes` from the features when it is not given: every graph states its node count.
- The internals of the sparse adjacency: `adj` is kept as its coordinate list, which the tests compare with `edge_index`.
- Random edge generation (`get_edge_index`): the scenarios take arbitrary graphs of the stated sizes.
- The debug switch (`set_debug`): it has no effect on the values.
- The torch-tensor and numpy-array variants of index and mask selectors: they select the same graphs as the plain list, which is what is modelled.
- Negative indices and negative or missing slice bounds: `Get` and `IndexSelect` report a negative index as out of range, and `SliceSelect` takes non-negative bounds.
- Nesting deeper than one dict or list level: attributes are one level of blocks.
- Per-key overrides of the concatenation dimension and of the increment: a block is either a feature block, concatenated and not shifted, or an index block, concatenated and shifted by node offsets, or a graph-level value, stacked.
- Relation names in heterogeneous edge types: an edge type is identified by its position and its endpoint node types.
- Selection of heterogeneous batches: `Hetero.Separate` requires an index in range, while the range-checked `batch[i]` and the selectors are modelled on homogeneous batches only.
- The collation implementation (`torch_geometric/data/batch.py` and its collate and separate helpers) is not part of this model. The model follows the behaviour the tests demand.
- An empty list of graphs gives an empty batch whose `ptr` is `[0]`, since `Offsets.Ptr([]) == [0]`; no test in the file exercises it.
- Batching.FromDataList: does not reject two inputs the library rejects. Blocks whose rows have different widths in different graphs still collate, because a row is an opaque element type with no width. An `edge_attr` present in only some graphs still collates, because a missing attribute is modelled as zero rows.
- Hetero.FromDataList: the same two gaps as `Batching.FromDataList`, per node and edge type.
