# Vertex-group weight smoothing, modelled in Dafny

This project models the "Smooth Selected Vertices Weights" operator of the
TechAnim Friend Blender add-on (`SmoothSelectedVerticesWeightsOperator`).
The operator takes the selected vertices of a mesh and smooths every vertex
group's weights over them by neighbour averaging:

- it cancels when no vertex is selected, and then when the object has no
  vertex groups;
- it builds an undirected neighbour map from the mesh's edge list, with an
  entry (possibly empty) for every vertex;
- it runs `iterations` iterations (at least 1, at most 100, 10 by default).
  Each iteration runs one pass per vertex group, in order;
- a pass over one group computes a new weight for every selected vertex
  from the weights as they stood before the pass. The new weight is
  `(own + mean of the neighbours' weights) / 2`, or the vertex's own weight
  when it has no neighbours. A vertex that is not in the group reads as 0.0;
- only after all new weights of the pass are computed are they written
  into the group, replacing the old ones.

Files and modules:

- `weights.dfy`, module `Weights`: the weight table, and reading it with the
  0.0 default. `SumOver` sums a group's weights over a set of vertices.
  Class `VertexGroups` holds the object's groups and rewrites them in place
  (`Add` is the host's `vgroup.add(..., 'REPLACE')`).
- `adjacency.dfy`, module `Adjacency`: the neighbour map. `Graph` is a
  declarative definition. `BuildNeighbors` is the operator's loop over the
  edges, proved to produce it.
- `smoothing.dfy`, module `Smoothing`: the specification of one pass
  (`NewWeight`, `Snapshot`, `GroupPass`), of one iteration (`Pass`) and of
  `k` iterations (`Smooth`). It holds the two loops that compute a pass
  (`NeighborWeightSum`, `ComputeNewWeights`) and the lemmas about passes and
  iterations.
- `operator.dfy`, module `SmoothOperator`: the guards, the iteration count,
  the operator with its nested loops (`Execute`, proved equal to the
  specification `Operate`), and lemmas about the whole operator.

Modelling choices:

- Vertices are `0 .. n-1`, edges are `seq<(nat, nat)>`, groups are
  `0 .. count-1`, and weights are `real` (exact arithmetic, no rounding).
- The weight table is `map<Group, map<Vertex, real>>`: one sparse table per
  vertex group, as the operator reads and writes them, one group at a time. An absent group or vertex reads as
  0.0.
- The host hands over the edges and the selected indices, and every index
  names a vertex of the mesh. That is the `EdgesInRange` and
  `SelectionInRange` precondition.
- The selection is a sequence and may list a vertex twice. The pass depends
  only on the set of selected vertices (`Members`), as the source's
  `new_weights` dictionary does.
- The loops over a neighbour set and over the `new_weights` dictionary visit
  elements in an arbitrary order (`:|`). The sum and the final table are
  proved not to depend on that order.
- The operator has no threshold pruning, no clamping and no renormalising
  after a pass, and neither does the model. It smooths every vertex group of
  the object, not only the groups that hold weights on the selection.

## Model

| member | source | states |
|---|---|---|
| `Weights.WeightOf` | TechAnimFriend.py:157-160 | a vertex that is not in the group reads as weight 0.0 instead of raising; a member reads as its stored weight |
| `Weights.SumOverRemove` | TechAnimFriend.py:163-173 | the sum of the neighbours' weights does not depend on the order the neighbour set is walked: any element can be taken out first |
| `Weights.SumOverAdd` | TechAnimFriend.py:164-169 | appending one more neighbour's weight adds exactly that weight to the sum |
| `Weights.SumOverCongruent` | TechAnimFriend.py:164-169 | the neighbour sum only depends on the neighbours' weights in the group being read |
| `Weights.SumOverBounds` | TechAnimFriend.py:173 | a sum of weights in [0, 1] over a set lies between 0 and the set's size |
| `Weights.SumOverUniform` | TechAnimFriend.py:173 | a sum of equal weights c over a set is c times the set's size |
| `Weights.VertexGroups.Add` | TechAnimFriend.py:183 | writing one weight replaces that vertex's weight in that group and changes no other (group, vertex) |
| `Weights.VertexGroups.AddAll` | TechAnimFriend.py:182-183 | writing all collected new weights, in any order, leaves group g holding them on top of its old weights, and all other groups as they were |
| `Weights.WrittenOneMore` | TechAnimFriend.py:182-183 | writing one more entry equals writing the others and then that one |
| `Weights.WrittenAt` | TechAnimFriend.py:182-183 | after the write, a written vertex of group g reads its new weight and every other (group, vertex) reads as before |
| `Adjacency.Graph` | TechAnimFriend.py:139 | the neighbour map has an entry for exactly the vertices 0 .. n-1 |
| `Adjacency.NeighborsInAppend` | TechAnimFriend.py:140-143 | one more edge (a, b) adds b to a's neighbours and a to b's, and nothing else |
| `Adjacency.GraphAppend` | TechAnimFriend.py:140-143 | the map for one more edge is the old map with the two set updates the loop body makes |
| `Adjacency.BuildNeighbors` | TechAnimFriend.py:139-143 | the loop over the edges produces the neighbour map of the whole edge list |
| `Adjacency.GraphProperties` | TechAnimFriend.py:139-143 | the map has an entry, possibly empty, for every vertex and no other; it names only mesh vertices; both ends of every edge are each other's neighbours; every neighbour comes from an edge; `u ∈ nbrs[v] ⇔ v ∈ nbrs[u]` |
| `Smoothing.SnapshotAdd` | TechAnimFriend.py:179 | recording one more vertex's new weight extends the collected new weights by that vertex |
| `Smoothing.NeighborWeightSum` | TechAnimFriend.py:163-169 | the loop over the neighbour set, in any order, yields the sum of the neighbours' weights and the number of neighbours |
| `Smoothing.ComputeNewWeights` | TechAnimFriend.py:150-179 | the collected new weights have exactly the selected vertices as keys. Each value is `(w + sum/len)/2`, or `w` without neighbours, all read from the table before the pass |
| `Smoothing.GroupPassAt` | TechAnimFriend.py:150-183 | after a pass over group g, each selected vertex of g holds its new weight; unselected vertices and other groups read as before |
| `Smoothing.IsolatedKeepsWeight` | TechAnimFriend.py:176-177 | a selected vertex with no neighbours keeps its weight |
| `Smoothing.NewWeightLocal` | TechAnimFriend.py:153-179 | a vertex's new weight depends only on the weights of the group being smoothed |
| `Smoothing.NewWeightInUnit` | TechAnimFriend.py:171-177 | if the group's weights lie in [0, 1], the new weight also lies in [0, 1] |
| `Smoothing.GroupPassUnit` | TechAnimFriend.py:150-183 | a pass over any group keeps a group whose weights lie in [0, 1] inside [0, 1] |
| `Smoothing.PassSkips` | TechAnimFriend.py:148-183 | the passes over groups 0 .. count-1 leave every later group unchanged |
| `Smoothing.PassSkipsGroup` | TechAnimFriend.py:148-183 | the same, for every vertex of such a group at once |
| `Smoothing.PassAt` | TechAnimFriend.py:148-183 | groups do not interact within an iteration. Each selected vertex of each group gets the new weight computed from the pre-iteration table: its result depends only on the table before the iteration, not on the passes over earlier groups; everything else is untouched |
| `Smoothing.SmoothUnit` | TechAnimFriend.py:146-183 | a group whose weights lie in [0, 1] stays in [0, 1] through any number of iterations |
| `Smoothing.SmoothUntouched` | TechAnimFriend.py:146-183 | through any number of iterations, unselected vertices and groups beyond the object's groups keep their weights |
| `Smoothing.SmoothAdditive` | TechAnimFriend.py:146 | b iterations after a iterations equal a + b iterations: each iteration reads the table the previous one wrote |
| `Smoothing.UniformNewWeight` | TechAnimFriend.py:171-177 | a vertex whose own and neighbours' weights all equal c gets new weight c |
| `Smoothing.SmoothUniform` | TechAnimFriend.py:146-183 | a group with the same weight c on every vertex keeps it through any number of iterations (a fixed point) |
| `SmoothOperator.Execute` | TechAnimFriend.py:87-192 | the operator returns the outcome `Operate` gives and leaves the vertex groups holding the weights `Operate` gives. It cancels on an empty selection or no groups, and otherwise runs `iterations` iterations of per-group passes |
| `SmoothOperator.OperateCancels` | TechAnimFriend.py:120-136 | the operator cancels exactly when no vertex is selected (checked first) or the object has no vertex groups, and then no weight changes |
| `SmoothOperator.OperateFinished` | TechAnimFriend.py:146-183 | a finished run changes only selected vertices of the object's groups, keeps [0, 1] weights in [0, 1], and leaves a uniformly weighted group unchanged |
| `SmoothOperator.PathGraph` | TechAnimFriend.py:139-143 | the edges (0,1), (1,2) give the neighbour sets {1}, {0,2}, {1} |
| `SmoothOperator.PathNewWeights` | TechAnimFriend.py:171-177 | with only vertex 0 at weight 1.0, the new weights on that path are 0.5, 0.25 and 0.0 |
| `SmoothOperator.PathExample` | TechAnimFriend.py:146-183 | one iteration of the operator on that path gives 0.5, 0.25, 0.0. Vertex 1 uses vertex 0's weight from before the pass (1.0), not its updated 0.5 |

## Left out

- The edit-mode check at the start of `execute` (TechAnimFriend.py:108-110) and `poll` (TechAnimFriend.py:96-102): editor mode is host state. The model starts with the mesh data already in hand.
- Mode switching, BMesh creation and update, `self.report` messages and the `invoke` dialog: host I/O and UI.
- `Execute` takes the iteration count as a 1 .. 100 value (`IterationCount`). How the host clamps or rejects out-of-range property values is not modelled.
- Floating-point rounding: weights are exact `real` numbers.
- The host's own range check on the weight passed to `vgroup.add` is not modelled. Starting from weights in [0, 1], every written weight is proved to stay in [0, 1] (`SmoothUnit`), so that check never rejects a write.
- Edges or selected indices naming a nonexistent vertex (a lookup error in the source) are excluded by precondition. The host never supplies them.
- The other operators (`CopyBonesTransformsOperator`, `CreateConstraintsOperator`, `RemoveConstraintsOperator`, `CheckWeightAmountOperator`), the panel and registration: their bodies are empty stubs or UI glue.
