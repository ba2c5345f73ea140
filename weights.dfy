/**
 * The vertex-group weight table of a mesh object, as the smoothing
 * operator reads it: a sparse table from (group, vertex) to a weight,
 * where a vertex that is not a member of a group reads as weight 0.0.
 */
module Weights {

  /** Group indices and vertex indices are natural numbers. */
  type Group = nat
  type Vertex = nat

  /** The stored weights of one group, by vertex; a vertex absent from it is not a member. */
  type Table = map<Vertex, real>

  /** The weights of all groups; a group absent from it has no members. */
  type Weights = map<Group, Table>

  /** The stored weights of group `g`. */
  function Row(w: Weights, g: Group): Table
  {
    if g in w then w[g] else map[]
  }

  /**
   * Reading a weight: the host raises an error for a vertex that is not in
   * the group, and the operator turns that error into 0.0.
   */
  function WeightOf(w: Weights, g: Group, v: Vertex): (r: real)
    ensures v !in Row(w, g) ==> r == 0.0
    ensures v in Row(w, g) ==> r == Row(w, g)[v]
  {
    if v in Row(w, g) then Row(w, g)[v] else 0.0
  }

  /** Every weight of group `g` (stored or defaulted) lies in [0, 1]. */
  ghost predicate UnitGroup(w: Weights, g: Group)
  {
    forall v :: 0.0 <= WeightOf(w, g, v) <= 1.0
  }

  /**
   * The sum of the weights of group `g` over a finite set of vertices,
   * taken in no particular order.
   */
  ghost function SumOver(w: Weights, g: Group, s: set<Vertex>): real
    decreases s
  {
    if s == {} then 0.0
    else
      var u :| u in s;
      WeightOf(w, g, u) + SumOver(w, g, s - {u})
  }

  /** The sum does not depend on which element is taken out first. */
  lemma {:induction false} SumOverRemove(w: Weights, g: Group, s: set<Vertex>, y: Vertex)
    requires y in s
    ensures SumOver(w, g, s) == WeightOf(w, g, y) + SumOver(w, g, s - {y})
    decreases s
  {
    var u :| u in s && SumOver(w, g, s) == WeightOf(w, g, u) + SumOver(w, g, s - {u});
    if u != y {
      SumOverRemove(w, g, s - {u}, y);
      SumOverRemove(w, g, s - {y}, u);
      assert s - {u} - {y} == s - {y} - {u};
    }
  }

  /** Adding one vertex to the set adds its weight to the sum. */
  lemma SumOverAdd(w: Weights, g: Group, s: set<Vertex>, y: Vertex)
    requires y !in s
    ensures SumOver(w, g, s + {y}) == SumOver(w, g, s) + WeightOf(w, g, y)
  {
    SumOverRemove(w, g, s + {y}, y);
    assert s + {y} - {y} == s;
  }

  /** The sum only looks at the weights of group `g` of the vertices in `s`. */
  lemma {:induction false} SumOverCongruent(w: Weights, w': Weights, g: Group, g': Group, s: set<Vertex>)
    requires forall u :: u in s ==> WeightOf(w, g, u) == WeightOf(w', g', u)
    ensures SumOver(w, g, s) == SumOver(w', g', s)
    decreases s
  {
    if s != {} {
      var u :| u in s;
      SumOverRemove(w, g, s, u);
      SumOverRemove(w', g', s, u);
      SumOverCongruent(w, w', g, g', s - {u});
    }
  }

  /** A sum of |s| weights in [0, 1] lies in [0, |s|]. */
  lemma {:induction false} SumOverBounds(w: Weights, g: Group, s: set<Vertex>)
    requires forall u :: u in s ==> 0.0 <= WeightOf(w, g, u) <= 1.0
    ensures 0.0 <= SumOver(w, g, s) <= |s| as real
    decreases s
  {
    if s != {} {
      var u :| u in s;
      SumOverRemove(w, g, s, u);
      SumOverBounds(w, g, s - {u});
    }
  }

  /** A sum of |s| copies of the weight c is c * |s|. */
  lemma {:induction false} SumOverUniform(w: Weights, g: Group, s: set<Vertex>, c: real)
    requires forall u :: u in s ==> WeightOf(w, g, u) == c
    ensures SumOver(w, g, s) == c * |s| as real
    decreases s
  {
    if s != {} {
      var u :| u in s;
      SumOverRemove(w, g, s, u);
      SumOverUniform(w, g, s - {u}, c);
      var m := |s - {u}| as real;
      assert |s| as real == m + 1.0;
      assert c * (m + 1.0) == c * m + c;
    }
  }

  /**
   * The object's vertex groups. Each group is a weight channel of the mesh;
   * the operator rewrites the table in place, one vertex at a time.
   */
  class VertexGroups {
    /** The number of vertex groups; the groups are 0 .. count - 1. */
    const count: nat
    /** All groups' weights. */
    var weights: Weights

    constructor (count: nat, weights: Weights)
      ensures this.count == count && this.weights == weights
    {
      this.count := count;
      this.weights := weights;
    }

    /** Sets the weight of vertex `v` in group `g`, replacing any previous weight. */
    method Add(g: Group, v: Vertex, x: real)
      modifies this
      ensures weights == old(weights)[g := Row(old(weights), g)[v := x]]
      ensures WeightOf(weights, g, v) == x
      ensures forall h: Group, u: Vertex :: (h, u) != (g, v) ==> WeightOf(weights, h, u) == WeightOf(old(weights), h, u)
    {
      weights := weights[g := Row(weights, g)[v := x]];
    }

    /**
     * Writes every entry of `pending` into group `g`, in whatever order the
     * map is walked; the outcome does not depend on that order.
     */
    method AddAll(g: Group, pending: Table)
      modifies this
      ensures weights == Written(old(weights), g, pending)
    {
      var rest := pending.Keys;
      assert pending - rest == map[];
      while rest != {}
        invariant rest <= pending.Keys
        invariant weights == Written(old(weights), g, pending - rest)
        decreases rest
      {
        var v :| v in rest;
        Add(g, v, pending[v]);
        assert pending - (rest - {v}) == (pending - rest)[v := pending[v]];
        WrittenOneMore(old(weights), g, pending - rest, v, pending[v]);
        rest := rest - {v};
      }
      assert pending - {} == pending;
    }
  }

  /** The table after writing every entry of `pending` into group `g`. */
  function Written(w: Weights, g: Group, pending: Table): Weights
  {
    if pending == map[] then w else w[g := Row(w, g) + pending]
  }

  /** Writing one more entry is writing the others, then that one. */
  lemma WrittenOneMore(w: Weights, g: Group, pending: Table, v: Vertex, x: real)
    ensures Written(w, g, pending[v := x])
         == Written(w, g, pending)[g := Row(Written(w, g, pending), g)[v := x]]
  {
    assert v in pending[v := x];
    assert Row(w, g) + pending[v := x] == (Row(w, g) + pending)[v := x];
    if pending == map[] {
      assert Row(w, g) + pending == Row(w, g);
      assert Row(Written(w, g, pending), g) == Row(w, g);
    } else {
      assert Row(Written(w, g, pending), g) == Row(w, g) + pending;
    }
  }

  /**
   * What a write leaves behind: the written entries of group `g` hold
   * their new weights, every other (group, vertex) reads as it did.
   */
  lemma WrittenAt(w: Weights, g: Group, pending: Table, h: Group, u: Vertex)
    ensures WeightOf(Written(w, g, pending), h, u)
         == if h == g && u in pending then pending[u] else WeightOf(w, h, u)
  {
  }
}
