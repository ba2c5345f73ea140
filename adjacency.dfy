/**
 * The neighbour map of a mesh: for every vertex 0 .. n-1, the set of
 * vertices joined to it by an edge, built once from the edge list.
 */
module Adjacency {
  import opened Weights

  type Edge = (Vertex, Vertex)

  /** Every edge joins two vertices of a mesh with `n` vertices. */
  predicate EdgesInRange(n: nat, edges: seq<Edge>)
  {
    forall i :: 0 <= i < |edges| ==> edges[i].0 < n && edges[i].1 < n
  }

  /** The vertices that share an edge of `edges` with `v`, in either direction. */
  function NeighborsIn(edges: seq<Edge>, v: Vertex): set<Vertex>
  {
    (set i | 0 <= i < |edges| && edges[i].0 == v :: edges[i].1)
    + (set i | 0 <= i < |edges| && edges[i].1 == v :: edges[i].0)
  }

  /** The neighbour map: an entry, possibly empty, for each vertex 0 .. n-1. */
  function Graph(n: nat, edges: seq<Edge>): (g: map<Vertex, set<Vertex>>)
    ensures forall v: Vertex :: v in g <==> v < n
  {
    map v: Vertex | v < n :: NeighborsIn(edges, v)
  }

  /** A neighbour map over the vertices 0 .. n-1 that only names those vertices. */
  ghost predicate GraphOn(nbrs: map<Vertex, set<Vertex>>, n: nat)
  {
    && (forall v: Vertex :: v in nbrs <==> v < n)
    && (forall v, u :: v in nbrs && u in nbrs[v] ==> u < n)
  }

  /** Appending one edge adds each of its ends to the other's neighbours. */
  lemma NeighborsInAppend(edges: seq<Edge>, e: Edge, v: Vertex)
    ensures NeighborsIn(edges + [e], v)
         == NeighborsIn(edges, v) + (if e.0 == v then {e.1} else {}) + (if e.1 == v then {e.0} else {})
  {
    var es := edges + [e];
    var n := |edges|;
    assert es[n] == e;
    forall u | u in NeighborsIn(es, v)
      ensures u in NeighborsIn(edges, v) || (e.0 == v && u == e.1) || (e.1 == v && u == e.0)
    {
      var i :| 0 <= i < |es| && ((es[i].0 == v && es[i].1 == u) || (es[i].1 == v && es[i].0 == u));
      if i < n {
        assert es[i] == edges[i];
      }
    }
    forall u | u in NeighborsIn(edges, v)
      ensures u in NeighborsIn(es, v)
    {
      var i :| 0 <= i < n && ((edges[i].0 == v && edges[i].1 == u) || (edges[i].1 == v && edges[i].0 == u));
      assert es[i] == edges[i];
    }
  }

  /** The neighbour map of one more edge, as two updates of the map. */
  lemma GraphAppend(n: nat, edges: seq<Edge>, e: Edge)
    requires e.0 < n && e.1 < n
    ensures var g := Graph(n, edges);
      var g' := g[e.0 := g[e.0] + {e.1}];
      Graph(n, edges + [e]) == g'[e.1 := g'[e.1] + {e.0}]
  {
    var g := Graph(n, edges);
    var g' := g[e.0 := g[e.0] + {e.1}];
    var g'' := g'[e.1 := g'[e.1] + {e.0}];
    var h := Graph(n, edges + [e]);
    forall v | v in g''
      ensures v in h && h[v] == g''[v]
    {
      NeighborsInAppend(edges, e, v);
    }
    assert h.Keys == g''.Keys;
  }

  /**
   * Builds the neighbour map the way the operator does: start every vertex
   * with an empty set, then for each edge add each end to the other's set.
   */
  method BuildNeighbors(n: nat, edges: seq<Edge>) returns (nbrs: map<Vertex, set<Vertex>>)
    requires EdgesInRange(n, edges)
    ensures nbrs == Graph(n, edges)
  {
    // every vertex starts with an empty set of neighbours
    nbrs := Graph(n, []);
    assert edges[..0] == [];
    for i := 0 to |edges|
      invariant nbrs == Graph(n, edges[..i])
    {
      var (a, b) := edges[i];
      GraphAppend(n, edges[..i], edges[i]);
      assert edges[..i + 1] == edges[..i] + [edges[i]];
      nbrs := nbrs[a := nbrs[a] + {b}];
      nbrs := nbrs[b := nbrs[b] + {a}];
    }
    assert edges[..|edges|] == edges;
  }

  /**
   * The neighbour map has an entry for every vertex and no other, names
   * only vertices of the mesh, holds both ends of every edge, holds nothing
   * that no edge accounts for, and is symmetric.
   */
  lemma GraphProperties(n: nat, edges: seq<Edge>)
    requires EdgesInRange(n, edges)
    ensures GraphOn(Graph(n, edges), n)
    ensures forall i :: 0 <= i < |edges| ==>
      edges[i].1 in Graph(n, edges)[edges[i].0] && edges[i].0 in Graph(n, edges)[edges[i].1]
    ensures forall v, u :: v in Graph(n, edges) && u in Graph(n, edges)[v] ==>
      exists i :: 0 <= i < |edges| && (edges[i] == (v, u) || edges[i] == (u, v))
    ensures forall v, u :: v in Graph(n, edges) && u in Graph(n, edges) ==>
      (u in Graph(n, edges)[v] <==> v in Graph(n, edges)[u])
  {
    var g := Graph(n, edges);
    forall v, u | v in g && u in g[v]
      ensures u < n
      ensures exists i :: 0 <= i < |edges| && (edges[i] == (v, u) || edges[i] == (u, v))
    {
      var i :| 0 <= i < |edges| && ((edges[i].0 == v && edges[i].1 == u) || (edges[i].1 == v && edges[i].0 == u));
      assert edges[i] == (v, u) || edges[i] == (u, v);
    }
  }
}
