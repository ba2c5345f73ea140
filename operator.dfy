/**
 * The "Smooth Selected Vertices Weights" operator: guards, neighbour map,
 * and the iterations of per-group smoothing passes over the object's
 * vertex groups.
 */
module SmoothOperator {
  import opened Weights
  import opened Adjacency
  import opened Smoothing

  /** The operator's iteration count: at least 1, at most 100, 10 unless set. */
  const MinIterations: int := 1
  const MaxIterations: int := 100
  const DefaultIterations: int := 10

  type IterationCount = k: int | MinIterations <= k <= MaxIterations witness DefaultIterations

  /** Why the operator stopped before writing anything. */
  datatype CancelReason = NothingSelected | NoVertexGroups

  datatype Outcome = Finished | Cancelled(reason: CancelReason)

  /** Every selected index names a vertex of a mesh with `n` vertices. */
  predicate SelectionInRange(n: nat, selection: seq<Vertex>)
  {
    forall i :: 0 <= i < |selection| ==> selection[i] < n
  }

  /**
   * What the operator does to a weight table `w` with `count` groups on a
   * mesh of `n` vertices: cancel on an empty selection, then cancel when
   * there are no groups, and otherwise smooth for `iterations` iterations.
   */
  ghost function Operate(w: Weights, count: nat, n: nat, edges: seq<Edge>, selection: seq<Vertex>,
                         iterations: IterationCount): (Outcome, Weights)
    requires EdgesInRange(n, edges) && SelectionInRange(n, selection)
  {
    if selection == [] then (Cancelled(NothingSelected), w)
    else if count == 0 then (Cancelled(NoVertexGroups), w)
    else (Finished, Smooth(w, Graph(n, edges), Members(selection), count, iterations))
  }

  /**
   * Runs the operator on a mesh with `n` vertices and the given edges, over
   * the selected vertices, rewriting `groups` in place.
   */
  method Execute(groups: VertexGroups, n: nat, edges: seq<Edge>, selection: seq<Vertex>,
                 iterations: IterationCount) returns (outcome: Outcome)
    requires EdgesInRange(n, edges) && SelectionInRange(n, selection)
    modifies groups
    ensures (outcome, groups.weights)
         == Operate(old(groups.weights), groups.count, n, edges, selection, iterations)
  {
    if selection == [] {
      return Cancelled(NothingSelected);
    }
    if groups.count == 0 {
      return Cancelled(NoVertexGroups);
    }
    var nbrs := BuildNeighbors(n, edges);
    ghost var sel := Members(selection);
    for it := 0 to iterations
      invariant groups.weights == Smooth(old(groups.weights), nbrs, sel, groups.count, it)
    {
      ghost var before := groups.weights;
      for g := 0 to groups.count
        invariant groups.weights == Pass(before, nbrs, sel, g)
      {
        var newWeights := ComputeNewWeights(groups.weights, nbrs, selection, g);
        groups.AddAll(g, newWeights);
      }
    }
    outcome := Finished;
  }

  /**
   * The operator cancels exactly on an empty selection or an object without
   * vertex groups, and a cancelled run leaves every weight as it was.
   */
  lemma OperateCancels(w: Weights, count: nat, n: nat, edges: seq<Edge>, selection: seq<Vertex>,
                       iterations: IterationCount)
    requires EdgesInRange(n, edges) && SelectionInRange(n, selection)
    ensures var (outcome, w') := Operate(w, count, n, edges, selection, iterations);
      && (outcome == Cancelled(NothingSelected) <==> selection == [])
      && (outcome == Cancelled(NoVertexGroups) <==> selection != [] && count == 0)
      && (outcome.Cancelled? ==> w' == w)
  {
  }

  /**
   * A finished run writes only selected vertices of the object's groups,
   * keeps every group whose weights lie in [0, 1] inside [0, 1], and leaves
   * a group that has the same weight on every vertex as it was.
   */
  lemma OperateFinished(w: Weights, count: nat, n: nat, edges: seq<Edge>, selection: seq<Vertex>,
                        iterations: IterationCount)
    requires EdgesInRange(n, edges) && SelectionInRange(n, selection)
    ensures var (outcome, w') := Operate(w, count, n, edges, selection, iterations);
      && (forall h: Group, u: Vertex :: (u !in selection || h >= count) ==> WeightOf(w', h, u) == WeightOf(w, h, u))
      && (forall h :: UnitGroup(w, h) ==> UnitGroup(w', h))
      && (forall h, c :: UniformGroup(w, n, h, c) ==> UniformGroup(w', n, h, c))
  {
    var (outcome, w') := Operate(w, count, n, edges, selection, iterations);
    if outcome == Finished {
      var nbrs, sel := Graph(n, edges), Members(selection);
      GraphProperties(n, edges);
      forall h: Group, u: Vertex | u !in selection || h >= count
        ensures WeightOf(w', h, u) == WeightOf(w, h, u)
      {
        SmoothUntouched(w, nbrs, sel, count, iterations, h, u);
      }
      forall h | UnitGroup(w, h)
        ensures UnitGroup(w', h)
      {
        SmoothUnit(w, nbrs, sel, count, iterations, h);
      }
      forall h, c | UniformGroup(w, n, h, c)
        ensures UniformGroup(w', n, h, c)
      {
        SmoothUniform(w, nbrs, n, sel, count, iterations, h, c);
      }
    }
  }

  /** The neighbour map of the path 0 - 1 - 2. */
  lemma PathGraph()
    ensures Graph(3, [(0, 1), (1, 2)]) == map[0 := {1}, 1 := {0, 2}, 2 := {1}]
  {
    var edges: seq<Edge> := [(0, 1), (1, 2)];
    assert edges[0] == (0, 1) && edges[1] == (1, 2);
    assert NeighborsIn(edges, 0) == {1};
    assert NeighborsIn(edges, 1) == {0, 2};
    assert NeighborsIn(edges, 2) == {1};
  }

  /**
   * One pass on the path 0 - 1 - 2 with all three selected and only
   * vertex 0 in the group, at weight 1.0: vertex 0 gets (1 + 0) / 2,
   * vertex 1 gets (0 + (1 + 0) / 2) / 2 from vertex 0's weight before the
   * pass, and vertex 2 stays 0.
   */
  lemma PathNewWeights()
    ensures var w: Weights := map[0 := map[0 := 1.0]];
      var nbrs := map[0 := {1}, 1 := {0, 2}, 2 := {1}];
      && NewWeight(w, nbrs, 0, 0) == 0.5
      && NewWeight(w, nbrs, 0, 1) == 0.25
      && NewWeight(w, nbrs, 0, 2) == 0.0
  {
    var w: Weights := map[0 := map[0 := 1.0]];
    SumOverRemove(w, 0, {1}, 1);
    SumOverRemove(w, 0, {0, 2}, 0);
    assert {0, 2} - {0} == {2};
    SumOverRemove(w, 0, {2}, 2);
  }

  /** The same pass, run through the operator with one group and one iteration. */
  lemma PathExample()
    ensures var (outcome, w') := Operate(map[0 := map[0 := 1.0]], 1, 3, [(0, 1), (1, 2)], [0, 1, 2], 1);
      && outcome == Finished
      && WeightOf(w', 0, 0) == 0.5
      && WeightOf(w', 0, 1) == 0.25
      && WeightOf(w', 0, 2) == 0.0
  {
    var w: Weights := map[0 := map[0 := 1.0]];
    PathGraph();
    PathNewWeights();
    var nbrs := map[0 := {1}, 1 := {0, 2}, 2 := {1}];
    var sel := Members([0, 1, 2]);
    assert sel == {0, 1, 2};
    PassAt(w, nbrs, sel, 1, 0, 0);
    PassAt(w, nbrs, sel, 1, 0, 1);
    PassAt(w, nbrs, sel, 1, 0, 2);
  }
}
