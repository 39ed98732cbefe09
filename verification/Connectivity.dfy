/** The binder's check that a query graph is connected, and what it means to the planner
    (src/binder/binder.cpp:644-675). */
module Connectivity {
  import opened QueryPlans
  import opened Subgraphs

  function Neighbours(g: QueryGraph, n: string): set<string> {
    (set r | r in g.rels && g.rels[r].src == n :: g.rels[r].dst)
    + (set r | r in g.rels && g.rels[r].dst == n :: g.rels[r].src)
  }

  // ---------------------------------------------------------------------------------------------
  // What has been visited can be built
  // ---------------------------------------------------------------------------------------------

  /** No relationship leads out of the nodes. */
  ghost predicate Closed(g: QueryGraph, nodes: set<string>) {
    forall r :: r in g.rels ==> (g.rels[r].src in nodes <==> g.rels[r].dst in nodes)
  }

  /** All nodes can be reached from the first. */
  ghost predicate Connected(g: QueryGraph, first: string) {
    forall nodes :: Closed(g, nodes) && first in nodes ==> g.nodes <= nodes
  }

  /** A relationship that leads out of a subgraph can be matched, and then its other end. */
  lemma OutwardBuilt(g: QueryGraph, s: Subgraph, r: string) returns (u: Subgraph)
    requires GraphOk(g) && Buildable(g, s) && r in g.rels
    requires g.rels[r].src in s.nodes <==> g.rels[r].dst !in s.nodes
    ensures Buildable(g, u) && s.nodes < u.nodes
  {
    u := Subgraph(s.nodes, s.rels + {r});
    if r in s.rels {
      assert u == s;
    } else {
      RelBuilt(g, s, r);
    }
    var n := if g.rels[r].src in s.nodes then g.rels[r].dst else g.rels[r].src;
    assert n in EndsOf(g, r) && n in NodeNbrs(g, u);
    NodeBuilt(g, u, n);
    u := Subgraph(u.nodes + {n}, u.rels);
  }

  lemma {:induction false} AllNodesBuilt(g: QueryGraph, s: Subgraph, first: string) returns (u: Subgraph)
    requires GraphOk(g) && Connected(g, first) && Buildable(g, s) && first in s.nodes
    ensures Buildable(g, u) && u.nodes == g.nodes
    decreases |g.nodes - s.nodes|
  {
    assert s.nodes <= g.nodes;
    if s.nodes == g.nodes {
      return s;
    }
    assert !Closed(g, s.nodes);
    var r :| r in g.rels && !(g.rels[r].src in s.nodes <==> g.rels[r].dst in s.nodes);
    var t := OutwardBuilt(g, s, r);
    assert t.nodes <= g.nodes;
    FewerLeft(g.nodes, s.nodes, t.nodes);
    u := AllNodesBuilt(g, t, first);
  }

  /** What holds of a subgraph with all nodes, and stays so with each relationship, holds with all of them. */
  lemma {:induction false} GrowRels(holds: Subgraph -> bool, nodes: set<string>, rels: set<string>, more: set<string>)
    requires holds(Subgraph(nodes, rels)) && more !! rels
    requires forall r, rs {:trigger holds(Subgraph(nodes, rs + {r}))} ::
               r in more && r !in rs && holds(Subgraph(nodes, rs)) ==> holds(Subgraph(nodes, rs + {r}))
    ensures holds(Subgraph(nodes, rels + more))
    decreases |more|
  {
    if more == {} {
      assert rels + more == rels;
    } else {
      var r :| r in more;
      GrowRels(holds, nodes, rels + {r}, more - {r});
      assert (rels + {r}) + (more - {r}) == rels + more;
    }
  }

  ghost function BuildableIn(g: QueryGraph): Subgraph -> bool {
    s => Buildable(g, s)
  }

  lemma AllRelsBuilt(g: QueryGraph, s: Subgraph)
    requires GraphOk(g) && Buildable(g, s) && s.nodes == g.nodes
    ensures Buildable(g, Whole(g))
  {
    var holds := BuildableIn(g);
    forall r, rs | r in g.rels.Keys && r !in rs && holds(Subgraph(g.nodes, rs))
      ensures holds(Subgraph(g.nodes, rs + {r})) {
      BetweenNodes(g, Subgraph(g.nodes, rs), r);
      RelBuilt(g, Subgraph(g.nodes, rs), r);
    }
    BuildableIsSome(g, s);
    assert s == Subgraph(g.nodes, s.rels) && s.rels + (g.rels.Keys - s.rels) == g.rels.Keys;
    GrowRels(holds, g.nodes, s.rels, g.rels.Keys - s.rels);
  }

  lemma BetweenNodes(g: QueryGraph, s: Subgraph, r: string)
    requires GraphOk(g) && s.nodes == g.nodes && r in g.rels && r !in s.rels
    ensures r in RelNbrs(g, s)
  {
  }

  // ---------------------------------------------------------------------------------------------
  // What a closed set of nodes separates cannot
  // ---------------------------------------------------------------------------------------------

  ghost predicate OnSide(g: QueryGraph, s: Subgraph, nodes: set<string>, side: bool) {
    (forall n :: n in s.nodes ==> (n in nodes <==> side))
    && forall r :: r in s.rels ==> r in g.rels && (g.rels[r].src in nodes <==> side)
  }

  lemma {:induction false} BuiltOnOneSide(g: QueryGraph, s: Subgraph, nodes: set<string>) returns (side: bool)
    requires GraphOk(g) && Closed(g, nodes) && Buildable(g, s)
    ensures OnSide(g, s, nodes, side)
    decreases Level(s)
  {
    BuildableIsSome(g, s);
    if Level(s) == 1 {
      side := SingleSide(g, s, nodes);
    } else {
      var right, nbr := LastMatched(g, s);
      side := BuiltOnOneSide(g, right, nodes);
      SideGrows(g, right, nbr, nodes, side);
    }
  }

  lemma SideGrows(g: QueryGraph, s: Subgraph, nbr: Subgraph, nodes: set<string>, side: bool)
    requires GraphOk(g) && Closed(g, nodes) && OnSide(g, s, nodes, side) && nbr in BaseNbrs(g, s)
    ensures OnSide(g, Union(s, nbr), nodes, side)
  {
    if nbr.rels == {} {
      var n :| n in NodeNbrs(g, s) && nbr == Subgraph({n}, {});
      var r :| r in s.rels && r in g.rels && n in EndsOf(g, r);
      assert n in nodes <==> side;
    } else {
      var r :| r in RelNbrs(g, s) && nbr == Subgraph({}, {r});
      assert g.rels[r].src in nodes <==> side;
    }
  }

  lemma SingleSide(g: QueryGraph, s: Subgraph, nodes: set<string>) returns (side: bool)
    requires Within(g, s) && Level(s) == 1
    ensures OnSide(g, s, nodes, side)
  {
    if s.rels == {} {
      var n :| n in s.nodes;
      assert |s.nodes - {n}| == 0;
      assert s.nodes == {n};
      side := n in nodes;
    } else {
      var r :| r in s.rels;
      assert |s.rels - {r}| == 0;
      assert s.rels == {r} && s.nodes == {};
      side := g.rels[r].src in nodes;
    }
  }

  lemma SeparatedIsNotBuilt(g: QueryGraph, nodes: set<string>, first: string)
    requires GraphOk(g) && Closed(g, nodes) && first in g.nodes && first in nodes && !(g.nodes <= nodes)
    ensures !Buildable(g, Whole(g))
  {
    var n :| n in g.nodes && n !in nodes;
    assert first in Whole(g).nodes && n in Whole(g).nodes;
    if Buildable(g, Whole(g)) {
      var _ := BuiltOnOneSide(g, Whole(g), nodes);
    }
  }

  /** The planner's premise is that the graph is connected. */
  lemma ConnectedIsBuildable(g: QueryGraph, first: string)
    requires GraphOk(g) && first in g.nodes
    ensures Connected(g, first) <==> Buildable(g, Whole(g))
  {
    if Connected(g, first) {
      var one := Subgraph({first}, {});
      SingletonBuildable(g, one);
      var s := AllNodesBuilt(g, one, first);
      AllRelsBuilt(g, s);
    } else {
      var nodes :| Closed(g, nodes) && first in nodes && !(g.nodes <= nodes);
      SeparatedIsNotBuilt(g, nodes, first);
    }
  }

  // ---------------------------------------------------------------------------------------------
  // The breadth-first search
  // ---------------------------------------------------------------------------------------------

  /** The neighbours of all nodes but those in the frontier have been visited. */
  ghost predicate Searched(g: QueryGraph, visited: set<string>, frontier: set<string>) {
    forall n :: n in visited && n !in frontier ==> Neighbours(g, n) <= visited
  }

  /** Nothing was visited that cannot be reached from the first node. */
  ghost predicate Reached(g: QueryGraph, first: string, visited: set<string>) {
    forall nodes :: Closed(g, nodes) && first in nodes ==> visited <= nodes
  }

  lemma ReachedMore(g: QueryGraph, first: string, visited: set<string>, n: string)
    requires GraphOk(g) && Reached(g, first, visited) && n in visited
    ensures Reached(g, first, visited + Neighbours(g, n)) && Neighbours(g, n) <= g.nodes
  {
    forall nodes | Closed(g, nodes) && first in nodes ensures visited + Neighbours(g, n) <= nodes {
      assert n in nodes;
    }
  }

  lemma SearchedIsClosed(g: QueryGraph, visited: set<string>)
    requires Searched(g, visited, {})
    ensures Closed(g, visited)
  {
    forall r | r in g.rels ensures g.rels[r].src in visited <==> g.rels[r].dst in visited {
      assert g.rels[r].dst in Neighbours(g, g.rels[r].src) && g.rels[r].src in Neighbours(g, g.rels[r].dst);
    }
  }

  lemma SameSize(a: set<string>, b: set<string>)
    requires a <= b
    ensures |a| == |b| <==> a == b
  {
    assert b == a + (b - a);
  }

  lemma FewerLeft(all: set<string>, was: set<string>, now: set<string>)
    requires was <= now <= all
    ensures was == now ==> |all - now| == |all - was|
    ensures was != now ==> |all - now| < |all - was|
  {
    if was != now {
      var x :| x in now && x !in was;
      assert all - now <= (all - was) - {x};
      SubsetCardinality(all - now, (all - was) - {x});
    }
  }

  /** The inner loop: the neighbours of one node that are new. */
  method NewNeighbours(g: QueryGraph, n: string, visited: set<string>) returns (found: set<string>)
    ensures found == Neighbours(g, n) - visited
  {
    found := {};
    var nbrs := Neighbours(g, n);
    while nbrs != {}
      invariant nbrs <= Neighbours(g, n) && found == (Neighbours(g, n) - nbrs) - visited
    {
      var nbr :| nbr in nbrs;
      if nbr !in visited && nbr !in found {
        found := found + {nbr};
      }
      nbrs := nbrs - {nbr};
    }
  }

  lemma SearchedOneMore(g: QueryGraph, visited: set<string>, frontier: set<string>, n: string)
    requires Searched(g, visited, frontier)
    ensures var found := Neighbours(g, n) - visited;
            Searched(g, visited + found, (frontier - {n}) + found)
  {
  }

  /** Visits the neighbours of the frontier. */
  method VisitNext(g: QueryGraph, ghost first: string, frontier: set<string>, visited: set<string>)
    returns (next: set<string>, visited': set<string>)
    requires GraphOk(g) && frontier <= visited <= g.nodes && Searched(g, visited, frontier)
             && Reached(g, first, visited)
    ensures visited <= visited' <= g.nodes && next == visited' - visited
    ensures Searched(g, visited', next) && Reached(g, first, visited')
    ensures visited == visited' <==> next == {}
  {
    next, visited' := {}, visited;
    var todo := frontier;
    while todo != {}
      invariant todo <= frontier && visited <= visited' <= g.nodes && next == visited' - visited
      invariant Searched(g, visited', next + todo) && Reached(g, first, visited')
    {
      var n :| n in todo;
      SearchedOneMore(g, visited', next + todo, n);
      ReachedMore(g, first, visited', n);
      var found := NewNeighbours(g, n, visited');
      assert ((next + todo) - {n}) + found == (next + found) + (todo - {n});
      assert visited' + Neighbours(g, n) == visited' + found;
      visited', next := visited' + found, next + found;
      todo := todo - {n};
    }
    assert next + {} == next;
  }

  /** validateQueryGraphIsConnected for a first MATCH, from the first query node. */
  method ValidateQueryGraphIsConnected(g: QueryGraph, first: string) returns (ok: bool)
    requires GraphOk(g) && first in g.nodes
    ensures ok <==> Connected(g, first)
  {
    var visited := {first};
    var frontier := visited;
    while frontier != {}
      invariant first in visited && frontier <= visited <= g.nodes && Searched(g, visited, frontier)
      invariant Reached(g, first, visited) && (frontier == {} ==> visited != g.nodes)
      decreases |g.nodes - visited| + if frontier == {} then 0 else 1
    {
      ghost var was := visited;
      frontier, visited := VisitNext(g, first, frontier, visited);
      SameSize(visited, g.nodes);
      if |visited| == |g.nodes| {
        return true;
      }
      FewerLeft(g.nodes, was, visited);
    }
    SearchedIsClosed(g, visited);
    return false;
  }
}
