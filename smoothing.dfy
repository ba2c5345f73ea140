/**
 * Neighbour-averaging of vertex-group weights over a selection of vertices.
 *
 * One pass over one group computes, for every selected vertex, the mean of
 * its own weight and the average weight of its neighbours, all read from the
 * table as it stood before the pass; only then are the new weights written.
 * One iteration runs that pass for every group in turn, and the operator
 * runs a fixed number of iterations.
 */
module Smoothing {
  import opened Weights
  import opened Adjacency

  type Neighbors = map<Vertex, set<Vertex>>

  /** The vertices listed in a selection, without order or repeats. */
  function Members(selection: seq<Vertex>): set<Vertex>
  {
    set v | v in selection
  }

  /** Every selected vertex has an entry in the neighbour map. */
  ghost predicate Covers(nbrs: Neighbors, sel: set<Vertex>)
  {
    forall v :: v in sel ==> v in nbrs
  }

  /**
   * The new weight of vertex `v` in group `g`: its own weight averaged with
   * the mean of its neighbours' weights, or its own weight when it has none.
   */
  ghost function NewWeight(w: Weights, nbrs: Neighbors, g: Group, v: Vertex): real
    requires v in nbrs
  {
    var s := nbrs[v];
    if s == {} then WeightOf(w, g, v)
    else (WeightOf(w, g, v) + SumOver(w, g, s) / |s| as real) / 2.0
  }

  /** The new weights of one group, every one computed from the table `w`. */
  ghost function Snapshot(w: Weights, nbrs: Neighbors, sel: set<Vertex>, g: Group): map<Vertex, real>
    requires Covers(nbrs, sel)
  {
    map v | v in sel :: NewWeight(w, nbrs, g, v)
  }

  /** One pass over group `g`: compute every new weight, then write them all. */
  ghost function GroupPass(w: Weights, nbrs: Neighbors, sel: set<Vertex>, g: Group): Weights
    requires Covers(nbrs, sel)
  {
    Written(w, g, Snapshot(w, nbrs, sel, g))
  }

  /** One iteration: a pass over each of the groups 0 .. count-1, in that order. */
  ghost function Pass(w: Weights, nbrs: Neighbors, sel: set<Vertex>, count: nat): Weights
    requires Covers(nbrs, sel)
    decreases count
  {
    if count == 0 then w
    else GroupPass(Pass(w, nbrs, sel, count - 1), nbrs, sel, count - 1)
  }

  /** `k` iterations, each one reading the table the previous one left. */
  ghost function Smooth(w: Weights, nbrs: Neighbors, sel: set<Vertex>, count: nat, k: nat): Weights
    requires Covers(nbrs, sel)
    decreases k
  {
    if k == 0 then w
    else Pass(Smooth(w, nbrs, sel, count, k - 1), nbrs, sel, count)
  }

  /** Computing one more vertex's new weight adds it to the snapshot. */
  lemma SnapshotAdd(w: Weights, nbrs: Neighbors, sel: set<Vertex>, g: Group, v: Vertex)
    requires Covers(nbrs, sel) && v in nbrs
    ensures Covers(nbrs, sel + {v})
    ensures Snapshot(w, nbrs, sel + {v}, g) == Snapshot(w, nbrs, sel, g)[v := NewWeight(w, nbrs, g, v)]
  {
  }

  /**
   * Sums the weights of group `g` over the set `s`, visiting its elements
   * in an arbitrary order, and counts them.
   */
  method NeighborWeightSum(w: Weights, g: Group, s: set<Vertex>) returns (sum: real, count: nat)
    ensures sum == SumOver(w, g, s)
    ensures count == |s|
  {
    sum, count := 0.0, 0;
    var rest := s;
    while rest != {}
      invariant rest <= s
      invariant sum == SumOver(w, g, s - rest)
      invariant count == |s - rest|
      decreases rest
    {
      var u :| u in rest;
      SumOverAdd(w, g, s - rest, u);
      assert s - rest + {u} == s - (rest - {u});
      sum := sum + WeightOf(w, g, u);
      count := count + 1;
      rest := rest - {u};
    }
    assert s - {} == s;
  }

  /**
   * The new weights of group `g` for every selected vertex, each computed
   * from `w` alone; `w` is not written while they are computed.
   */
  method ComputeNewWeights(w: Weights, nbrs: Neighbors, selection: seq<Vertex>, g: Group)
    returns (newWeights: map<Vertex, real>)
    requires forall i :: 0 <= i < |selection| ==> selection[i] in nbrs
    ensures Covers(nbrs, Members(selection))
    ensures newWeights == Snapshot(w, nbrs, Members(selection), g)
  {
    newWeights := map[];
    for i := 0 to |selection|
      invariant Covers(nbrs, Members(selection[..i]))
      invariant newWeights == Snapshot(w, nbrs, Members(selection[..i]), g)
    {
      var v := selection[i];
      var own := WeightOf(w, g, v);
      var sum, count := NeighborWeightSum(w, g, nbrs[v]);
      var x;
      if count > 0 {
        x := (own + sum / count as real) / 2.0;
      } else {
        x := own;
      }
      assert selection[..i + 1] == selection[..i] + [v];
      assert Members(selection[..i + 1]) == Members(selection[..i]) + {v};
      SnapshotAdd(w, nbrs, Members(selection[..i]), g, v);
      newWeights := newWeights[v := x];
    }
    assert selection[..|selection|] == selection;
  }

  /**
   * After a pass over group `g`, a selected vertex of `g` holds its new
   * weight and every other (group, vertex) reads as before.
   */
  lemma GroupPassAt(w: Weights, nbrs: Neighbors, sel: set<Vertex>, g: Group, h: Group, u: Vertex)
    requires Covers(nbrs, sel)
    ensures WeightOf(GroupPass(w, nbrs, sel, g), h, u)
         == if h == g && u in sel then NewWeight(w, nbrs, g, u) else WeightOf(w, h, u)
  {
    WrittenAt(w, g, Snapshot(w, nbrs, sel, g), h, u);
  }

  /** A selected vertex without neighbours keeps its weight. */
  lemma IsolatedKeepsWeight(w: Weights, nbrs: Neighbors, sel: set<Vertex>, g: Group, v: Vertex)
    requires Covers(nbrs, sel) && v in sel && nbrs[v] == {}
    ensures WeightOf(GroupPass(w, nbrs, sel, g), g, v) == WeightOf(w, g, v)
  {
    GroupPassAt(w, nbrs, sel, g, g, v);
  }

  /** The new weight of a vertex only depends on the weights of its own group. */
  lemma NewWeightLocal(w: Weights, w': Weights, nbrs: Neighbors, g: Group, v: Vertex)
    requires v in nbrs
    requires forall u :: WeightOf(w, g, u) == WeightOf(w', g, u)
    ensures NewWeight(w, nbrs, g, v) == NewWeight(w', nbrs, g, v)
  {
    SumOverCongruent(w, w', g, g, nbrs[v]);
  }

  /** A mean of weights in [0, 1] lies in [0, 1]. */
  lemma NewWeightInUnit(w: Weights, nbrs: Neighbors, g: Group, v: Vertex)
    requires v in nbrs && UnitGroup(w, g)
    ensures 0.0 <= NewWeight(w, nbrs, g, v) <= 1.0
  {
    var s := nbrs[v];
    if s != {} {
      SumOverBounds(w, g, s);
      var mean := SumOver(w, g, s) / |s| as real;
      assert mean * |s| as real == SumOver(w, g, s);
    }
  }

  /** Where the weights of a group lie in [0, 1], they still do after any pass. */
  lemma GroupPassUnit(w: Weights, nbrs: Neighbors, sel: set<Vertex>, g: Group, h: Group)
    requires Covers(nbrs, sel) && UnitGroup(w, h)
    ensures UnitGroup(GroupPass(w, nbrs, sel, g), h)
  {
    forall u
      ensures 0.0 <= WeightOf(GroupPass(w, nbrs, sel, g), h, u) <= 1.0
    {
      GroupPassAt(w, nbrs, sel, g, h, u);
      if h == g && u in sel {
        NewWeightInUnit(w, nbrs, g, u);
      }
    }
  }

  /** The passes over groups 0 .. count-1 leave every later group as it was. */
  lemma {:induction false} PassSkips(w: Weights, nbrs: Neighbors, sel: set<Vertex>, count: nat, h: Group, u: Vertex)
    requires Covers(nbrs, sel) && count <= h
    ensures WeightOf(Pass(w, nbrs, sel, count), h, u) == WeightOf(w, h, u)
    decreases count
  {
    if count > 0 {
      GroupPassAt(Pass(w, nbrs, sel, count - 1), nbrs, sel, count - 1, h, u);
      PassSkips(w, nbrs, sel, count - 1, h, u);
    }
  }

  /** The same, for all vertices of a later group at once. */
  lemma PassSkipsGroup(w: Weights, nbrs: Neighbors, sel: set<Vertex>, count: nat, h: Group)
    requires Covers(nbrs, sel) && count <= h
    ensures forall x :: WeightOf(Pass(w, nbrs, sel, count), h, x) == WeightOf(w, h, x)
  {
    forall x
      ensures WeightOf(Pass(w, nbrs, sel, count), h, x) == WeightOf(w, h, x)
    {
      PassSkips(w, nbrs, sel, count, h, x);
    }
  }

  /**
   * Within one iteration the groups do not interact: after the passes over
   * groups 0 .. count-1, a selected vertex of one of those groups holds the
   * new weight computed from the table as it stood before the iteration,
   * and every other (group, vertex) is untouched.
   */
  lemma {:induction false} PassAt(w: Weights, nbrs: Neighbors, sel: set<Vertex>, count: nat, h: Group, u: Vertex)
    requires Covers(nbrs, sel)
    ensures WeightOf(Pass(w, nbrs, sel, count), h, u)
         == if h < count && u in sel then NewWeight(w, nbrs, h, u) else WeightOf(w, h, u)
    decreases count
  {
    if count <= h {
      PassSkips(w, nbrs, sel, count, h, u);
    } else {
      var prev := Pass(w, nbrs, sel, count - 1);
      GroupPassAt(prev, nbrs, sel, count - 1, h, u);
      if h < count - 1 {
        PassAt(w, nbrs, sel, count - 1, h, u);
      } else if u in sel {
        PassSkipsGroup(w, nbrs, sel, count - 1, h);
        NewWeightLocal(prev, w, nbrs, h, u);
      } else {
        PassSkips(w, nbrs, sel, count - 1, h, u);
      }
    }
  }

  /** A group whose weights lie in [0, 1] keeps them there for any number of iterations. */
  lemma {:induction false} SmoothUnit(w: Weights, nbrs: Neighbors, sel: set<Vertex>, count: nat, k: nat, h: Group)
    requires Covers(nbrs, sel) && UnitGroup(w, h)
    ensures UnitGroup(Smooth(w, nbrs, sel, count, k), h)
    decreases k
  {
    if k > 0 {
      var prev := Smooth(w, nbrs, sel, count, k - 1);
      SmoothUnit(w, nbrs, sel, count, k - 1, h);
      forall u
        ensures 0.0 <= WeightOf(Pass(prev, nbrs, sel, count), h, u) <= 1.0
      {
        PassAt(prev, nbrs, sel, count, h, u);
        if u in sel {
          NewWeightInUnit(prev, nbrs, h, u);
        }
      }
    }
  }

  /**
   * Smoothing writes nothing but the selected vertices of the groups
   * 0 .. count-1: every other (group, vertex) reads as before.
   */
  lemma {:induction false} SmoothUntouched(w: Weights, nbrs: Neighbors, sel: set<Vertex>, count: nat, k: nat, h: Group, u: Vertex)
    requires Covers(nbrs, sel) && (u !in sel || h >= count)
    ensures WeightOf(Smooth(w, nbrs, sel, count, k), h, u) == WeightOf(w, h, u)
    decreases k
  {
    if k > 0 {
      var prev := Smooth(w, nbrs, sel, count, k - 1);
      SmoothUntouched(w, nbrs, sel, count, k - 1, h, u);
      PassAt(prev, nbrs, sel, count, h, u);
      if h < count {
        GroupPassAt(prev, nbrs, sel, h, h, u);
      }
    }
  }

  /** Iterations compose: b iterations after a iterations are a + b iterations. */
  lemma {:induction false} SmoothAdditive(w: Weights, nbrs: Neighbors, sel: set<Vertex>, count: nat, a: nat, b: nat)
    requires Covers(nbrs, sel)
    ensures Smooth(Smooth(w, nbrs, sel, count, a), nbrs, sel, count, b) == Smooth(w, nbrs, sel, count, a + b)
    decreases b
  {
    if b > 0 {
      SmoothAdditive(w, nbrs, sel, count, a, b - 1);
    }
  }

  /** Group `g` has the same weight c on every vertex 0 .. n-1. */
  ghost predicate UniformGroup(w: Weights, n: nat, g: Group, c: real)
  {
    forall v: Vertex :: v < n ==> WeightOf(w, g, v) == c
  }

  /** A vertex whose neighbours all carry its own weight c gets weight c. */
  lemma UniformNewWeight(w: Weights, nbrs: Neighbors, g: Group, v: Vertex, c: real)
    requires v in nbrs && WeightOf(w, g, v) == c
    requires forall u :: u in nbrs[v] ==> WeightOf(w, g, u) == c
    ensures NewWeight(w, nbrs, g, v) == c
  {
    var s := nbrs[v];
    if s != {} {
      SumOverUniform(w, g, s, c);
    }
  }

  /**
   * A group whose weight is the same value c on every vertex of the mesh
   * is a fixed point of smoothing: it keeps weight c on every vertex.
   */
  lemma {:induction false} SmoothUniform(w: Weights, nbrs: Neighbors, n: nat, sel: set<Vertex>, count: nat, k: nat, g: Group, c: real)
    requires GraphOn(nbrs, n) && Covers(nbrs, sel) && UniformGroup(w, n, g, c)
    ensures UniformGroup(Smooth(w, nbrs, sel, count, k), n, g, c)
    decreases k
  {
    if k > 0 {
      var prev := Smooth(w, nbrs, sel, count, k - 1);
      SmoothUniform(w, nbrs, n, sel, count, k - 1, g, c);
      forall v: Vertex | v < n
        ensures WeightOf(Pass(prev, nbrs, sel, count), g, v) == c
      {
        PassAt(prev, nbrs, sel, count, g, v);
        if g < count && v in sel {
          UniformNewWeight(prev, nbrs, g, v, c);
        }
      }
    }
  }
}
