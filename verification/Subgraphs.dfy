/** Subgraphs of a query graph, their neighbours, and the order in which their variables can be matched
    (src/binder/query/reading_clause/query_graph.cpp:47-135). */
module Subgraphs {
  import opened QueryPlans

  /** getFullyMatchedSubqueryGraph */
  function Whole(g: QueryGraph): Subgraph {
    Subgraph(g.nodes, g.rels.Keys)
  }

  ghost predicate Apart(a: Subgraph, b: Subgraph) {
    a.nodes !! b.nodes && a.rels !! b.rels
  }

  ghost predicate Inside(a: Subgraph, b: Subgraph) {
    a.nodes <= b.nodes && a.rels <= b.rels
  }

  lemma UnionLevel(a: Subgraph, b: Subgraph)
    requires Apart(a, b)
    ensures Level(Union(a, b)) == Level(a) + Level(b)
    ensures Union(a, b) == Union(b, a)
  {
  }

  // ---------------------------------------------------------------------------------------------
  // Neighbours
  // ---------------------------------------------------------------------------------------------

  function NodeNbrs(g: QueryGraph, s: Subgraph): set<string> {
    set n | n in g.nodes && n !in s.nodes && exists r :: r in s.rels && r in g.rels && n in EndsOf(g, r)
  }

  function RelNbrs(g: QueryGraph, s: Subgraph): set<string> {
    set r | r in g.rels && r !in s.rels && (g.rels[r].src in s.nodes || g.rels[r].dst in s.nodes)
  }

  function BaseNbrs(g: QueryGraph, s: Subgraph): set<Subgraph> {
    (set n | n in NodeNbrs(g, s) :: Subgraph({n}, {})) + (set r | r in RelNbrs(g, s) :: Subgraph({}, {r}))
  }

  function NextNbrs(g: QueryGraph, s: Subgraph, nbr: Subgraph): set<Subgraph> {
    (set n | n in NodeNbrs(g, nbr) && n !in s.nodes :: Subgraph(nbr.nodes + {n}, nbr.rels))
    + (set r | r in RelNbrs(g, nbr) && r !in s.rels :: Subgraph(nbr.nodes, nbr.rels + {r}))
  }

  /** The subgraphs with `size` variables that can be joined to `s`. */
  function NbrSubgraphs(g: QueryGraph, s: Subgraph, size: nat): set<Subgraph>
    requires size >= 1
  {
    if size == 1 then BaseNbrs(g, s)
    else set prev, nbr | prev in NbrSubgraphs(g, s, size - 1) && nbr in NextNbrs(g, s, prev) :: nbr
  }

  function ConnectedNodes(g: QueryGraph, s: Subgraph, nbr: Subgraph): set<string> {
    (NodeNbrs(g, s) * nbr.nodes) + (NodeNbrs(g, nbr) * s.nodes)
  }

  /** No common variable, but a node of one that a relationship of the other touches. */
  ghost predicate Meets(g: QueryGraph, s: Subgraph, nbr: Subgraph) {
    Within(g, nbr) && Apart(s, nbr) && ConnectedNodes(g, s, nbr) != {}
  }

  lemma BaseNbrsMeet(g: QueryGraph, s: Subgraph, nbr: Subgraph)
    requires GraphOk(g) && Within(g, s) && nbr in BaseNbrs(g, s)
    ensures Meets(g, s, nbr) && Level(nbr) == 1
  {
    if nbr.rels == {} {
      var n :| n in NodeNbrs(g, s) && nbr == Subgraph({n}, {});
      assert n in ConnectedNodes(g, s, nbr);
    } else {
      var r :| r in RelNbrs(g, s) && nbr == Subgraph({}, {r});
      var n := if g.rels[r].src in s.nodes then g.rels[r].src else g.rels[r].dst;
      assert n in EndsOf(g, r);
      assert n in ConnectedNodes(g, s, nbr);
    }
  }

  lemma NextNbrsMeet(g: QueryGraph, s: Subgraph, prev: Subgraph, nbr: Subgraph)
    requires GraphOk(g) && Within(g, s) && Meets(g, s, prev) && nbr in NextNbrs(g, s, prev)
    ensures Meets(g, s, nbr) && Level(nbr) == Level(prev) + 1
  {
    assert Inside(prev, nbr);
    forall j | j in NodeNbrs(g, prev) * s.nodes ensures j in NodeNbrs(g, nbr) {
    }
    assert ConnectedNodes(g, s, prev) <= ConnectedNodes(g, s, nbr);
  }

  lemma PreviousNbr(g: QueryGraph, s: Subgraph, size: nat, nbr: Subgraph) returns (prev: Subgraph)
    requires size > 1 && nbr in NbrSubgraphs(g, s, size)
    ensures prev in NbrSubgraphs(g, s, size - 1) && nbr in NextNbrs(g, s, prev)
  {
    prev :| prev in NbrSubgraphs(g, s, size - 1) && nbr in NextNbrs(g, s, prev);
  }

  /** Neighbour subgraphs have the asked size, no variable in common with `s`, and a node they share with it. */
  lemma {:induction false} NbrsMeet(g: QueryGraph, s: Subgraph, size: nat, nbr: Subgraph)
    requires GraphOk(g) && Within(g, s) && size >= 1 && nbr in NbrSubgraphs(g, s, size)
    ensures Meets(g, s, nbr) && Level(nbr) == size
  {
    if size == 1 {
      BaseNbrsMeet(g, s, nbr);
    } else {
      var prev := PreviousNbr(g, s, size, nbr);
      NbrsMeet(g, s, size - 1, prev);
      NextNbrsMeet(g, s, prev, nbr);
    }
  }

  lemma ConnectedNodesAreShared(g: QueryGraph, s: Subgraph, nbr: Subgraph)
    requires Within(g, s) && Within(g, nbr)
    ensures ConnectedNodes(g, s, nbr) <= NodesOf(g, s) * NodesOf(g, nbr)
    ensures ConnectedNodes(g, s, nbr) != {} ==> s.rels + nbr.rels != {}
  {
    forall j | j in ConnectedNodes(g, s, nbr) ensures j in NodesOf(g, s) && j in NodesOf(g, nbr) {
    }
  }

  // ---------------------------------------------------------------------------------------------
  // Matching one variable after the other
  // ---------------------------------------------------------------------------------------------

  /** The variables of `s` can be matched one by one, each adjacent to those before it. */
  ghost predicate Buildable(g: QueryGraph, s: Subgraph)
    decreases Level(s), 1
  {
    && Within(g, s)
    && (Level(s) == 1 || NodeIsLast(g, s) || RelIsLast(g, s))
  }

  ghost predicate NodeIsLast(g: QueryGraph, s: Subgraph)
    decreases Level(s), 0
  {
    exists n :: n in s.nodes && OneNodeLess(g, s, n) && Buildable(g, WithoutNode(s, n))
  }

  ghost predicate RelIsLast(g: QueryGraph, s: Subgraph)
    decreases Level(s), 0
  {
    exists r :: r in s.rels && OneRelLess(g, s, r) && Buildable(g, WithoutRel(s, r))
  }

  predicate OneNodeLess(g: QueryGraph, s: Subgraph, n: string) {
    n in NodeNbrs(g, WithoutNode(s, n))
  }

  predicate OneRelLess(g: QueryGraph, s: Subgraph, r: string) {
    r in RelNbrs(g, WithoutRel(s, r))
  }

  function WithoutNode(s: Subgraph, n: string): Subgraph {
    Subgraph(s.nodes - {n}, s.rels)
  }

  function WithoutRel(s: Subgraph, r: string): Subgraph {
    Subgraph(s.nodes, s.rels - {r})
  }

  lemma NodeSplitOff(g: QueryGraph, s: Subgraph, n: string)
    requires n in s.nodes && OneNodeLess(g, s, n)
    ensures var nbr := Subgraph({n}, {});
            nbr in BaseNbrs(g, WithoutNode(s, n)) && Union(WithoutNode(s, n), nbr) == s
    ensures Level(WithoutNode(s, n)) == Level(s) - 1
  {
    assert s.nodes == WithoutNode(s, n).nodes + {n};
  }

  lemma RelSplitOff(g: QueryGraph, s: Subgraph, r: string)
    requires r in s.rels && OneRelLess(g, s, r)
    ensures var nbr := Subgraph({}, {r});
            nbr in BaseNbrs(g, WithoutRel(s, r)) && Union(WithoutRel(s, r), nbr) == s
    ensures Level(WithoutRel(s, r)) == Level(s) - 1
  {
    assert s.rels == WithoutRel(s, r).rels + {r};
  }

  lemma BuildableIsSome(g: QueryGraph, s: Subgraph)
    requires Buildable(g, s)
    ensures Level(s) >= 1 && Within(g, s)
  {
    if NodeIsLast(g, s) {
      var n :| n in s.nodes && OneNodeLess(g, s, n) && Buildable(g, WithoutNode(s, n));
      assert s.nodes != {};
    } else if RelIsLast(g, s) {
      var r :| r in s.rels && OneRelLess(g, s, r) && Buildable(g, WithoutRel(s, r));
      assert s.rels != {};
    }
  }

  lemma SingletonBuildable(g: QueryGraph, s: Subgraph)
    requires Within(g, s) && Level(s) == 1
    ensures Buildable(g, s)
  {
  }

  /** Splits off the last variable matched. */
  lemma LastMatched(g: QueryGraph, s: Subgraph) returns (right: Subgraph, nbr: Subgraph)
    requires Buildable(g, s) && Level(s) > 1
    ensures Buildable(g, right) && nbr in BaseNbrs(g, right) && Union(right, nbr) == s
    ensures Level(right) == Level(s) - 1 && Buildable(g, nbr) && Level(nbr) == 1
  {
    if NodeIsLast(g, s) {
      var n :| n in s.nodes && OneNodeLess(g, s, n) && Buildable(g, WithoutNode(s, n));
      right, nbr := WithoutNode(s, n), Subgraph({n}, {});
      NodeSplitOff(g, s, n);
      SingletonBuildable(g, nbr);
    } else {
      assert RelIsLast(g, s);
      var r :| r in s.rels && OneRelLess(g, s, r) && Buildable(g, WithoutRel(s, r));
      right, nbr := WithoutRel(s, r), Subgraph({}, {r});
      RelSplitOff(g, s, r);
      SingletonBuildable(g, nbr);
    }
  }

  lemma NodeBuilt(g: QueryGraph, s: Subgraph, n: string)
    requires Buildable(g, s) && n in NodeNbrs(g, s)
    ensures Buildable(g, Subgraph(s.nodes + {n}, s.rels))
  {
    var u := Subgraph(s.nodes + {n}, s.rels);
    assert WithoutNode(u, n) == s;
    assert n in u.nodes && OneNodeLess(g, u, n);
  }

  lemma RelBuilt(g: QueryGraph, s: Subgraph, r: string)
    requires Buildable(g, s) && r in RelNbrs(g, s)
    ensures Buildable(g, Subgraph(s.nodes, s.rels + {r}))
  {
    var u := Subgraph(s.nodes, s.rels + {r});
    assert WithoutRel(u, r) == s;
    assert r in u.rels && OneRelLess(g, u, r);
  }
}
