/** Which query graphs pass the assertion that two joined subgraphs have one join node
    (src/planner/join_order_enumerator.cpp:157-158). */
module JoinNodes {
  import opened QueryPlans
  import opened CyclicPlans
  import opened Subgraphs

  ghost predicate OneJoinNode(g: QueryGraph, s: Subgraph, nbr: Subgraph) {
    |ConnectedNodes(g, s, nbr)| == 1
  }

  /** The relationships between two different nodes. */
  function Between(g: QueryGraph, rels: set<string>): set<string>
    requires rels <= g.rels.Keys
  {
    set r | r in rels && g.rels[r].src != g.rels[r].dst
  }

  /** No cycle of two or more relationships; a relationship from a node to itself is allowed. */
  ghost predicate OnlySelfLoops(g: QueryGraph) {
    Acyclic(g, Between(g, g.rels.Keys))
  }

  lemma SelfLoopEnds(g: QueryGraph, r: string)
    requires r in g.rels && g.rels[r].src == g.rels[r].dst
    ensures |Endpoints(g, {r})| == 1
  {
    assert Endpoints(g, {r}) == EndsOf(g, r) == {g.rels[r].src};
  }

  /** The graphs that pass the assertion without being acyclic have a relationship from a node to itself. */
  lemma PassedOverCycle(g: QueryGraph)
    ensures Forest(g) <==> OnlySelfLoops(g) && forall r :: r in g.rels ==> g.rels[r].src != g.rels[r].dst
  {
    if Forest(g) {
      AcyclicPart(g, Between(g, g.rels.Keys), g.rels.Keys);
      forall r | r in g.rels ensures g.rels[r].src != g.rels[r].dst {
        assert |Endpoints(g, {r})| >= |{r}| + 1;
        if g.rels[r].src == g.rels[r].dst {
          SelfLoopEnds(g, r);
        }
      }
    } else if forall r :: r in g.rels ==> g.rels[r].src != g.rels[r].dst {
      assert Between(g, g.rels.Keys) == g.rels.Keys;
    }
  }

  // ---------------------------------------------------------------------------------------------
  // Without such cycles the assertion holds
  // ---------------------------------------------------------------------------------------------

  lemma OneMoreNode(old_: set<string>, new_: set<string>, n: string)
    requires new_ <= old_ + {n}
    ensures |new_| <= |old_| + 1
  {
    SubsetCardinality(new_, old_ + {n});
  }

  /** A plan has at most one node more than relationships between different nodes. */
  lemma {:induction false} NodesOfPlan(g: QueryGraph, p: Plan)
    requires GraphOk(g) && Built(g, p)
    ensures Rels(p) <= g.rels.Keys && |Columns(g, p) * g.nodes| <= |Between(g, Rels(p))| + 1
  {
    BuiltColumns(g, p);
    match p
    case ScanNode(n) => SubsetCardinality(Columns(g, p) * g.nodes, {n});
    case Extend(r, fwd, c) =>
      NodesOfPlan(g, c);
      NodesOfExtend(g, r, fwd, Rels(c), Columns(g, c));
    case HashJoin(j, l, b) =>
      NodesOfPlan(g, l);
      NodesOfPlan(g, b);
      NodesOfJoin(g, j, Rels(l), Rels(b), Columns(g, l), Columns(g, b));
    case Filter(_, c) => NodesOfPlan(g, c);
  }

  lemma NodesOfExtend(g: QueryGraph, r: string, fwd: bool, rels: set<string>, known: set<string>)
    requires GraphOk(g) && rels <= g.rels.Keys && r in g.rels && r !in rels && BoundNode(g, r, fwd) in known
    requires |known * g.nodes| <= |Between(g, rels)| + 1
    ensures |(known + {r, BoundNode(g, r, !fwd)}) * g.nodes| <= |Between(g, rels + {r})| + 1
  {
    var far := BoundNode(g, r, !fwd);
    var nodes := (known + {r, far}) * g.nodes;
    if g.rels[r].src == g.rels[r].dst {
      assert nodes == known * g.nodes && Between(g, rels + {r}) == Between(g, rels);
    } else {
      assert nodes <= known * g.nodes + {far};
      SubsetCardinality(nodes, known * g.nodes + {far});
      assert Between(g, rels + {r}) == Between(g, rels) + {r};
    }
  }

  lemma NodesOfJoin(g: QueryGraph, j: string, a: set<string>, b: set<string>, x: set<string>, y: set<string>)
    requires a <= g.rels.Keys && b <= g.rels.Keys && a !! b && j in g.nodes && j in x && j in y
    requires |x * g.nodes| <= |Between(g, a)| + 1 && |y * g.nodes| <= |Between(g, b)| + 1
    ensures |(x + y) * g.nodes| <= |Between(g, a + b)| + 1
  {
    var p, q := x * g.nodes, y * g.nodes;
    assert (x + y) * g.nodes == p + q;
    assert |p + q| == |p| + |q| - |p * q|;
    SubsetCardinality({j}, p * q);
    assert Between(g, a + b) == Between(g, a) + Between(g, b);
  }

  /** What every stored subgraph satisfies, because it has a plan. */
  ghost predicate Slim(g: QueryGraph, s: Subgraph) {
    Within(g, s) && |NodesOf(g, s)| <= |Between(g, s.rels)| + 1
  }

  lemma PlannedIsSlim(g: QueryGraph, s: Subgraph, p: Plan)
    requires GraphOk(g) && Within(g, s) && Built(g, p) && Rels(p) == s.rels && Columns(g, p) == NodesOf(g, s) + s.rels
    ensures Slim(g, s)
  {
    NodesOfPlan(g, p);
    NodesInside(g, s);
    assert Columns(g, p) * g.nodes == NodesOf(g, s);
  }

  lemma SlimMeetOnce(g: QueryGraph, a: Subgraph, b: Subgraph)
    requires GraphOk(g) && Slim(g, a) && Slim(g, b) && Apart(a, b) && OnlySelfLoops(g)
    ensures |NodesOf(g, a) * NodesOf(g, b)| <= 1
  {
    var na, nb, x, y := NodesOf(g, a), NodesOf(g, b), Between(g, a.rels), Between(g, b.rels);
    assert |na + nb| == |na| + |nb| - |na * nb|;
    if x + y == {} {
      SubsetCardinality(na * nb, na);
    } else {
      assert x + y <= Between(g, g.rels.Keys);
      assert |Endpoints(g, x + y)| >= |x + y| + 1;
      assert Endpoints(g, x + y) <= na + nb;
      SubsetCardinality(Endpoints(g, x + y), na + nb);
      assert |x + y| == |x| + |y|;
    }
  }

  /** Planned neighbours have one join node. */
  lemma OneJoinNodeHolds(g: QueryGraph, s: Subgraph, size: nat, nbr: Subgraph)
    requires GraphOk(g) && Slim(g, s) && Slim(g, nbr) && OnlySelfLoops(g)
    requires size >= 1 && nbr in NbrSubgraphs(g, s, size)
    ensures OneJoinNode(g, s, nbr)
  {
    NbrsMeet(g, s, size, nbr);
    ConnectedNodesAreShared(g, s, nbr);
    SlimMeetOnce(g, s, nbr);
    var shared, joined := NodesOf(g, s) * NodesOf(g, nbr), ConnectedNodes(g, s, nbr);
    SubsetCardinality(joined, shared);
  }

  // ---------------------------------------------------------------------------------------------
  // And with one it fails
  // ---------------------------------------------------------------------------------------------

  /** The nodes of `s`, with relationships of it that form no cycle. */
  ghost predicate Spans(g: QueryGraph, t: Subgraph, s: Subgraph) {
    && Within(g, s) && Within(g, t) && t.nodes == s.nodes && t.rels <= s.rels
    && NodesOf(g, t) == NodesOf(g, s) && Acyclic(g, t.rels)
  }

  lemma SingleNodeSpans(g: QueryGraph, s: Subgraph)
    requires Within(g, s) && Level(s) == 1 && s.nodes != {}
    ensures Spans(g, s, s)
  {
    var n :| n in s.nodes;
    assert s.nodes == {n} + (s.nodes - {n});
    assert s.rels == {};
  }

  lemma SecondHasNode(g: QueryGraph, s: Subgraph)
    requires Buildable(g, s) && Level(s) > 1
    ensures s.nodes != {}
  {
    var right, nbr := LastMatched(g, s);
    if nbr.nodes == {} {
      var r :| r in RelNbrs(g, right) && nbr == Subgraph({}, {r});
      assert right.nodes != {};
    }
  }

  /** A subgraph without nodes is a single relationship. */
  lemma NoNodesYet(g: QueryGraph, s: Subgraph) returns (r: string)
    requires Buildable(g, s) && s.nodes == {}
    ensures r in g.rels && s == OneRel(r)
  {
    BuildableIsSome(g, s);
    if Level(s) > 1 {
      SecondHasNode(g, s);
    }
    r :| r in s.rels;
    assert s.rels == {r} + (s.rels - {r});
  }

  lemma OneRelAcyclic(g: QueryGraph, r: string)
    requires r in g.rels && g.rels[r].src != g.rels[r].dst
    ensures Acyclic(g, {r})
  {
    assert Endpoints(g, {r}) == EndsOf(g, r);
    forall some | some <= {r} && some != {} ensures |Endpoints(g, some)| >= |some| + 1 {
      assert some == {r};
    }
  }

  lemma FirstNodeSpans(g: QueryGraph, r: string, n: string) returns (t: Subgraph)
    requires GraphOk(g) && r in g.rels && n in EndsOf(g, r)
    ensures Spans(g, t, Subgraph({n}, {r})) && (t == Subgraph({n}, {r}) || t == Subgraph({n}, {}))
  {
    var s := Subgraph({n}, {r});
    assert Endpoints(g, {r}) == EndsOf(g, r);
    if g.rels[r].src == g.rels[r].dst {
      t := Subgraph({n}, {});
      assert NodesOf(g, t) == {n} == NodesOf(g, s);
    } else {
      t := s;
      OneRelAcyclic(g, r);
    }
  }

  lemma NodeSpans(g: QueryGraph, t: Subgraph, s: Subgraph, n: string)
    requires GraphOk(g) && Spans(g, t, s) && n in NodeNbrs(g, s)
    ensures n in NodeNbrs(g, t) && Spans(g, Subgraph(t.nodes + {n}, t.rels), Union(s, Subgraph({n}, {})))
  {
    assert n in NodesOf(g, t) && n !in t.nodes;
    assert NodesOf(g, Subgraph(t.nodes + {n}, t.rels)) == NodesOf(g, t) + {n};
    assert NodesOf(g, Union(s, Subgraph({n}, {}))) == NodesOf(g, s) + {n};
  }

  /** A relationship that leads to a new node. */
  lemma RelSpans(g: QueryGraph, t: Subgraph, s: Subgraph, r: string, n: string, far: string)
    requires GraphOk(g) && Spans(g, t, s) && r in RelNbrs(g, s) && EndsOf(g, r) == {n, far}
    requires n in t.nodes && far !in NodesOf(g, t)
    ensures r in RelNbrs(g, t) && Spans(g, Subgraph(t.nodes, t.rels + {r}), Union(s, OneRel(r)))
  {
    assert Subgraph(t.nodes, t.rels + {r}) == Union(t, OneRel(r));
    NodesOfUnion(g, s, OneRel(r));
    NodesOfUnion(g, t, OneRel(r));
    ExtendAcyclic(g, t.rels, r, NodesOf(g, t), n, far);
  }

  /** A relationship that leads nowhere new is left out. */
  lemma RelSkipped(g: QueryGraph, t: Subgraph, s: Subgraph, r: string)
    requires GraphOk(g) && Spans(g, t, s) && r in g.rels && EndsOf(g, r) <= NodesOf(g, t)
    ensures Spans(g, t, Union(s, OneRel(r)))
  {
    assert Endpoints(g, {r}) == EndsOf(g, r);
    NodesOfUnion(g, s, OneRel(r));
  }

  /** Leaving out what closes a cycle, the nodes can still be matched one by one. */
  lemma {:induction false} Spanning(g: QueryGraph, s: Subgraph) returns (t: Subgraph)
    requires GraphOk(g) && Buildable(g, s) && s.nodes != {}
    ensures Buildable(g, t) && Spans(g, t, s)
    decreases Level(s)
  {
    BuildableIsSome(g, s);
    if Level(s) == 1 {
      SingleNodeSpans(g, s);
      return s;
    }
    var right, nbr := LastMatched(g, s);
    if right.nodes == {} {
      var r := NoNodesYet(g, right);
      var n :| n in s.nodes;
      assert nbr == Subgraph({n}, {}) && n in NodeNbrs(g, right);
      assert s == Subgraph({n}, {r});
      t := FirstNodeSpans(g, r, n);
      SingletonBuildable(g, Subgraph({n}, {}));
    } else {
      var u := Spanning(g, right);
      t := NextSpans(g, u, right, nbr);
    }
  }

  lemma NextSpans(g: QueryGraph, t: Subgraph, s: Subgraph, nbr: Subgraph) returns (u: Subgraph)
    requires GraphOk(g) && Buildable(g, t) && Spans(g, t, s) && nbr in BaseNbrs(g, s)
    ensures Buildable(g, u) && Spans(g, u, Union(s, nbr))
  {
    if nbr.rels == {} {
      var n :| n in NodeNbrs(g, s) && nbr == Subgraph({n}, {});
      u := Subgraph(t.nodes + {n}, t.rels);
      NodeSpans(g, t, s, n);
      NodeBuilt(g, t, n);
    } else {
      var r :| r in RelNbrs(g, s) && nbr == OneRel(r);
      u := NextRelSpans(g, t, s, r);
    }
  }

  lemma OneKnownEnd(g: QueryGraph, s: Subgraph, r: string) returns (n: string, far: string)
    requires r in RelNbrs(g, s)
    ensures n in s.nodes && EndsOf(g, r) == {n, far}
  {
    var Rel(src, dst) := g.rels[r];
    n, far := if src in s.nodes then src else dst, if src in s.nodes then dst else src;
  }

  lemma NextRelSpans(g: QueryGraph, t: Subgraph, s: Subgraph, r: string) returns (u: Subgraph)
    requires GraphOk(g) && Buildable(g, t) && Spans(g, t, s) && r in RelNbrs(g, s)
    ensures Buildable(g, u) && Spans(g, u, Union(s, OneRel(r)))
  {
    var n, far := OneKnownEnd(g, s, r);
    if far in NodesOf(g, t) {
      u := t;
      RelSkipped(g, t, s, r);
    } else {
      u := Subgraph(t.nodes, t.rels + {r});
      RelSpans(g, t, s, r, n, far);
      RelBuilt(g, t, r);
    }
  }

  /** The assertion holds for every subgraph of a level and a further relationship. */
  ghost predicate Asserted(g: QueryGraph, level: nat) {
    forall s, r :: Buildable(g, s) && Level(s) == level && r in RelNbrs(g, s) ==> OneJoinNode(g, s, OneRel(r))
  }

  lemma BothEndsJoin(g: QueryGraph, s: Subgraph, r: string)
    requires GraphOk(g) && Within(g, s) && s.nodes == g.nodes && r in Between(g, g.rels.Keys) && r !in s.rels
    ensures r in RelNbrs(g, s) && !OneJoinNode(g, s, OneRel(r))
  {
    assert NodeNbrs(g, OneRel(r)) == EndsOf(g, r);
    assert ConnectedNodes(g, s, OneRel(r)) == {g.rels[r].src, g.rels[r].dst};
  }

  lemma FailsAt(g: QueryGraph, s: Subgraph, r: string)
    requires GraphOk(g) && Buildable(g, s) && s.nodes == g.nodes && r in Between(g, g.rels.Keys) && r !in s.rels
    ensures Level(s) < Level(Whole(g)) && !Asserted(g, Level(s))
  {
    BuildableIsSome(g, s);
    SubsetCardinality(s.rels + {r}, g.rels.Keys);
    BothEndsJoin(g, s, r);
  }

  /** If it holds at every level, there are no cycles but relationships from a node to itself. */
  lemma AssertedIsAcyclic(g: QueryGraph)
    requires GraphOk(g) && Buildable(g, Whole(g))
    requires forall level: nat :: level < Level(Whole(g)) ==> Asserted(g, level)
    ensures OnlySelfLoops(g)
  {
    BuildableIsSome(g, Whole(g));
    assert g.rels.Keys != {} ==> g.nodes != {};
    var t := Spanning(g, Whole(g));
    var between := Between(g, g.rels.Keys);
    forall r | r in between ensures r in t.rels {
      if r !in t.rels {
        FailsAt(g, t, r);
      }
    }
    AcyclicPart(g, between, t.rels);
  }
}
