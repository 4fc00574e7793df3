/** The dependency graph of a build (src/core/build.ts): which outputs each source feeds. */
module BuildGraph {
  import opened Paths
  import opened Schema

  /** `Map<string, Set<string>>` from a source path to the output paths built from it. */
  type Edges = map<Path, set<Path>>

  /** `g.edges.get(src)`, with a missing source read as the empty set. */
  function Targets(e: Edges, src: Path): set<Path> {
    if src in e then e[src] else {}
  }

  /** The edges after `addEdge(g, src, out)`. */
  function WithEdge(e: Edges, src: Path, out: Path): (r: Edges)
    ensures r.Keys == e.Keys + {src}
    ensures forall k :: Targets(r, k) == if k == src then Targets(e, k) + {out} else Targets(e, k)
  {
    e[src := Targets(e, src) + {out}]
  }

  /** Adding an edge that is already there changes nothing. */
  lemma WithEdgeIdempotent(e: Edges, src: Path, out: Path)
    ensures WithEdge(WithEdge(e, src, out), src, out) == WithEdge(e, src, out)
  {
    var once := WithEdge(e, src, out);
    assert Targets(once, src) + {out} == Targets(once, src);
  }

  /** `for (const s of srcs) addEdge(g, s, out)`. */
  function WithEdges(e: Edges, srcs: seq<Path>, out: Path): Edges
    decreases |srcs|
  {
    if srcs == [] then e else WithEdges(WithEdge(e, srcs[0], out), srcs[1..], out)
  }

  /** Adding `out` from every source of `srcs` adds exactly those edges. */
  lemma {:induction false} WithEdgesExact(e: Edges, srcs: seq<Path>, out: Path)
    ensures WithEdges(e, srcs, out).Keys == e.Keys + set s | s in srcs
    ensures forall k ::
      Targets(WithEdges(e, srcs, out), k) == Targets(e, k) + (if k in srcs then {out} else {})
    decreases |srcs|
  {
    if srcs != [] {
      var e1 := WithEdge(e, srcs[0], out);
      WithEdgesExact(e1, srcs[1..], out);
      assert forall k :: k in srcs <==> k == srcs[0] || k in srcs[1..];
    }
  }

  /** Adding the edges of `a + b` is adding those of `a`, then those of `b`. */
  lemma {:induction false} WithEdgesAppend(e: Edges, a: seq<Path>, b: seq<Path>, out: Path)
    ensures WithEdges(e, a + b, out) == WithEdges(WithEdges(e, a, out), b, out)
    decreases |a|
  {
    if a == [] {
      assert a + b == b;
    } else {
      assert (a + b)[0] == a[0] && (a + b)[1..] == a[1..] + b;
      WithEdgesAppend(WithEdge(e, a[0], out), a[1..], b, out);
    }
  }

  /** Every edge of `e` is still in `e2`. */
  ghost predicate Grows(e: Edges, e2: Edges) {
    forall k :: Targets(e, k) <= Targets(e2, k)
  }

  lemma GrowsTrans(e1: Edges, e2: Edges, e3: Edges)
    requires Grows(e1, e2) && Grows(e2, e3)
    ensures Grows(e1, e3)
  {
  }

  /** The graph object `{ edges, docs }` of a build. */
  class Graph {
    var edges: Edges
    var docs: map<Path, Doc>

    /** `createGraph()`. */
    constructor ()
      ensures edges == map[] && docs == map[]
    {
      edges := map[];
      docs := map[];
    }
  }

  /** `addEdge(g, src, out)`. */
  method AddEdge(g: Graph, src: Path, out: Path)
    modifies g
    ensures g.edges == WithEdge(old(g.edges), src, out)
    ensures g.docs == old(g.docs)
  {
    var targets := if src in g.edges then g.edges[src] else {};
    g.edges := g.edges[src := targets + {out}];
  }
}
