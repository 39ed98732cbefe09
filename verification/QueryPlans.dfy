/** Query graphs, logical plans and what they denote
    (src/binder/query/reading_clause/query_graph.cpp, src/planner/join_order_enumerator.cpp). */
module QueryPlans {
  import opened Expressions

  datatype Rel = Rel(src: string, dst: string)
  datatype QueryGraph = QueryGraph(nodes: set<string>, rels: map<string, Rel>)

  ghost predicate GraphOk(g: QueryGraph) {
    && g.nodes !! g.rels.Keys
    && forall r :: r in g.rels ==> g.rels[r].src in g.nodes && g.rels[r].dst in g.nodes
  }

  /** The selected nodes and relationships; the key of the subplans table. */
  datatype Subgraph = Subgraph(nodes: set<string>, rels: set<string>)

  ghost predicate Within(g: QueryGraph, s: Subgraph) {
    s.nodes <= g.nodes && s.rels <= g.rels.Keys
  }

  function Level(s: Subgraph): nat {
    |s.nodes| + |s.rels|
  }

  function Union(a: Subgraph, b: Subgraph): Subgraph {
    Subgraph(a.nodes + b.nodes, a.rels + b.rels)
  }

  function EndsOf(g: QueryGraph, r: string): set<string>
    requires r in g.rels
  {
    {g.rels[r].src, g.rels[r].dst}
  }

  function Endpoints(g: QueryGraph, rels: set<string>): set<string>
    requires rels <= g.rels.Keys
  {
    set r, n | r in rels && n in EndsOf(g, r) :: n
  }

  /** Every node a plan for `s` has a column for. */
  function NodesOf(g: QueryGraph, s: Subgraph): set<string>
    requires s.rels <= g.rels.Keys
  {
    s.nodes + Endpoints(g, s.rels)
  }

  /** The relationships form no cycle: n of them always touch at least n + 1 nodes. */
  ghost predicate Acyclic(g: QueryGraph, rels: set<string>)
    requires rels <= g.rels.Keys
  {
    forall some :: some <= rels && some != {} ==> |Endpoints(g, some)| >= |some| + 1
  }

  ghost predicate Forest(g: QueryGraph) {
    Acyclic(g, g.rels.Keys)
  }

  lemma AcyclicPart(g: QueryGraph, part: set<string>, whole: set<string>)
    requires part <= whole <= g.rels.Keys && Acyclic(g, whole)
    ensures Acyclic(g, part)
  {
  }

  /** containAllVariables: names that are no node and no relationship of the graph are ignored. */
  predicate ContainAll(g: QueryGraph, s: Subgraph, names: set<string>) {
    (forall n :: n in names && n in g.nodes ==> n in s.nodes) && (forall n :: n in names && n in g.rels ==> n in s.rels)
  }

  /** The conjunct mentions a node or relationship of the graph. */
  predicate Mentions(g: QueryGraph, c: Expr) {
    exists n :: n in Vars(c) && (n in g.nodes || n in g.rels)
  }

  datatype Plan =
    | ScanNode(node: string)
    | Extend(rel: string, fwd: bool, child: Plan)
    | HashJoin(joinNode: string, probe: Plan, build: Plan)
    | Filter(pred: Expr, child: Plan)

  datatype Edge = Edge(src: Value, dst: Value, id: Value)

  /** The tables behind each query variable, and the meaning of the operators. */
  datatype Database = Database(nodes: map<string, set<Value>>, edges: map<string, set<Edge>>, ops: Operators)

  /** Edges connect nodes of the tables their query nodes are bound to. */
  ghost predicate DbOk(g: QueryGraph, db: Database) {
    && db.nodes.Keys == g.nodes && db.edges.Keys == g.rels.Keys
    && forall r, e :: r in g.rels && r in db.edges && e in db.edges[r] ==>
                        && g.rels[r].src in db.nodes && e.src in db.nodes[g.rels[r].src]
                        && g.rels[r].dst in db.nodes && e.dst in db.nodes[g.rels[r].dst]
  }

  function BoundNode(g: QueryGraph, r: string, fwd: bool): string
    requires r in g.rels
  {
    if fwd then g.rels[r].src else g.rels[r].dst
  }

  /** The row `Extend` makes of a child row and an edge; a column that is already there is kept. */
  function ExtendRow(g: QueryGraph, r: string, fwd: bool, row: Row, e: Edge): Row
    requires r in g.rels
  {
    (map[BoundNode(g, r, !fwd) := if fwd then e.dst else e.src] + row)[r := e.id]
  }

  ghost predicate EdgeFits(g: QueryGraph, db: Database, r: string, fwd: bool, row: Row, e: Edge)
    requires r in g.rels
  {
    && r in db.edges && e in db.edges[r]
    && BoundNode(g, r, fwd) in row && row[BoundNode(g, r, fwd)] == if fwd then e.src else e.dst
  }

  /** Rows agree on the join key; other shared columns would be taken from the probe side. */
  ghost predicate JoinFits(j: string, probe: Row, build: Row) {
    j in probe && j in build && probe[j] == build[j]
  }

  ghost predicate Produces(g: QueryGraph, db: Database, p: Plan, row: Row) {
    match p
    case ScanNode(n) => n in db.nodes && row.Keys == {n} && row[n] in db.nodes[n]
    case Extend(r, fwd, c) =>
      r in g.rels && exists a: Row, e :: Produces(g, db, c, a) && EdgeFits(g, db, r, fwd, a, e)
                                         && row == ExtendRow(g, r, fwd, a, e)
    case HashJoin(j, l, b) =>
      exists x: Row, y: Row :: Produces(g, db, l, x) && Produces(g, db, b, y) && JoinFits(j, x, y) && row == y + x
    case Filter(e, c) => Produces(g, db, c, row) && IsTrue(db.ops, e, row)
  }

  /** The rows of the join of all nodes and relationships of `s`, before any filter. */
  ghost predicate JoinRow(g: QueryGraph, db: Database, s: Subgraph, row: Row)
    requires s.rels <= g.rels.Keys
  {
    && row.Keys == NodesOf(g, s) + s.rels
    && (forall n :: n in NodesOf(g, s) ==> n in db.nodes && row[n] in db.nodes[n])
    && (forall r :: r in s.rels ==>
                      r in db.edges && g.rels[r].src in row && g.rels[r].dst in row
                      && Edge(row[g.rels[r].src], row[g.rels[r].dst], row[r]) in db.edges[r])
  }

  /** The conjuncts a plan for `s` has to have applied. */
  function Applied(g: QueryGraph, s: Subgraph, where: seq<Expr>): seq<Expr> {
    if where == [] then []
    else (if ContainAll(g, s, Vars(where[0])) && Mentions(g, where[0]) then [where[0]] else [])
         + Applied(g, s, where[1..])
  }

  function Filters(p: Plan): multiset<Expr> {
    match p
    case ScanNode(_) => multiset{}
    case Extend(_, _, c) => Filters(c)
    case HashJoin(_, l, b) => Filters(l) + Filters(b)
    case Filter(e, c) => Filters(c) + multiset{e}
  }

  /** The plan produces, on every database, exactly the join rows of `s` on which `es` hold. */
  ghost predicate Denotes(g: QueryGraph, s: Subgraph, p: Plan, es: seq<Expr>)
    requires s.rels <= g.rels.Keys
  {
    forall db: Database, row: Row :: DbOk(g, db) ==>
      (Produces(g, db, p, row) <==> JoinRow(g, db, s, row) && AllTrue(db.ops, es, row))
  }

  // ---------------------------------------------------------------------------------------------
  // How often a row is produced
  // ---------------------------------------------------------------------------------------------

  /** How a plan came by a row: the nodes and edges its operators read. A row is output once for each derivation. */
  datatype Derivation =
    | AtNode(value: Value)
    | Along(edge: Edge, from: Derivation)
    | Both(probe: Derivation, build: Derivation)
    | Kept(child: Derivation)

  ghost predicate Derives(g: QueryGraph, db: Database, p: Plan, t: Derivation, row: Row) {
    match p
    case ScanNode(n) => t.AtNode? && n in db.nodes && row == map[n := t.value] && t.value in db.nodes[n]
    case Extend(r, fwd, c) =>
      && r in g.rels && t.Along?
      && exists a: Row :: Derives(g, db, c, t.from, a) && EdgeFits(g, db, r, fwd, a, t.edge)
                          && row == ExtendRow(g, r, fwd, a, t.edge)
    case HashJoin(j, l, b) =>
      && t.Both?
      && exists x: Row, y: Row :: Derives(g, db, l, t.probe, x) && Derives(g, db, b, t.build, y) && JoinFits(j, x, y)
                                  && row == y + x
    case Filter(e, c) => t.Kept? && Derives(g, db, c, t.child, row) && IsTrue(db.ops, e, row)
  }

  function Columns(g: QueryGraph, p: Plan): set<string> {
    match p
    case ScanNode(n) => {n}
    case Extend(r, fwd, c) => if r in g.rels then Columns(g, c) + {r, BoundNode(g, r, !fwd)} else Columns(g, c)
    case HashJoin(_, l, b) => Columns(g, l) + Columns(g, b)
    case Filter(_, c) => Columns(g, c)
  }

  /** An extension adds two columns, and the sides of a hash join share the join node only. */
  predicate Shaped(g: QueryGraph, p: Plan) {
    match p
    case ScanNode(_) => true
    case Extend(r, fwd, c) =>
      && Shaped(g, c) && r in g.rels && BoundNode(g, r, fwd) in Columns(g, c)
      && r !in Columns(g, c) && BoundNode(g, r, !fwd) !in Columns(g, c) && BoundNode(g, r, !fwd) != r
    case HashJoin(j, l, b) => Shaped(g, l) && Shaped(g, b) && Columns(g, l) * Columns(g, b) == {j}
    case Filter(_, c) => Shaped(g, c)
  }

  /** The rows produced are those with a derivation. */
  lemma {:induction false} Derived(g: QueryGraph, db: Database, p: Plan, row: Row) returns (t: Derivation)
    requires Produces(g, db, p, row)
    ensures Derives(g, db, p, t, row)
  {
    match p
    case ScanNode(n) =>
      assert row == map[n := row[n]];
      t := AtNode(row[n]);
    case Extend(r, fwd, c) =>
      var a: Row, e :| Produces(g, db, c, a) && EdgeFits(g, db, r, fwd, a, e) && row == ExtendRow(g, r, fwd, a, e);
      var u := Derived(g, db, c, a);
      t := Along(e, u);
    case HashJoin(j, l, b) =>
      var x: Row, y: Row :| Produces(g, db, l, x) && Produces(g, db, b, y) && JoinFits(j, x, y) && row == y + x;
      var u := Derived(g, db, l, x);
      var v := Derived(g, db, b, y);
      t := Both(u, v);
    case Filter(e, c) =>
      var u := Derived(g, db, c, row);
      t := Kept(u);
  }

  lemma {:induction false} DerivedIsProduced(g: QueryGraph, db: Database, p: Plan, t: Derivation, row: Row)
    requires Derives(g, db, p, t, row)
    ensures Produces(g, db, p, row)
    decreases p
  {
    match p
    case ScanNode(n) =>
    case Extend(r, fwd, c) =>
      var a: Row :| Derives(g, db, c, t.from, a) && EdgeFits(g, db, r, fwd, a, t.edge)
          && row == ExtendRow(g, r, fwd, a, t.edge);
      DerivedIsProduced(g, db, c, t.from, a);
    case HashJoin(j, l, b) =>
      var x: Row, y: Row :| Derives(g, db, l, t.probe, x) && Derives(g, db, b, t.build, y) && JoinFits(j, x, y)
          && row == y + x;
      DerivedIsProduced(g, db, l, t.probe, x);
      DerivedIsProduced(g, db, b, t.build, y);
    case Filter(e, c) => DerivedIsProduced(g, db, c, t.child, row);
  }

  lemma {:induction false} DerivedColumns(g: QueryGraph, db: Database, p: Plan, t: Derivation, row: Row)
    requires Derives(g, db, p, t, row)
    ensures row.Keys == Columns(g, p)
    decreases p
  {
    match p
    case ScanNode(n) =>
    case Extend(r, fwd, c) =>
      var a: Row :| Derives(g, db, c, t.from, a) && EdgeFits(g, db, r, fwd, a, t.edge)
          && row == ExtendRow(g, r, fwd, a, t.edge);
      DerivedColumns(g, db, c, t.from, a);
    case HashJoin(j, l, b) =>
      var x: Row, y: Row :| Derives(g, db, l, t.probe, x) && Derives(g, db, b, t.build, y) && JoinFits(j, x, y)
          && row == y + x;
      DerivedColumns(g, db, l, t.probe, x);
      DerivedColumns(g, db, b, t.build, y);
    case Filter(e, c) => DerivedColumns(g, db, c, t.child, row);
  }

  /** Rows are equal if they are parts of one row with the same columns. */
  lemma SameParts(a: Row, b: Row, big: Row)
    requires a.Keys == b.Keys <= big.Keys && (forall n :: n in a ==> a[n] == big[n])
             && (forall n :: n in b ==> b[n] == big[n])
    ensures a == b
  {
  }

  lemma OnceAlong(g: QueryGraph, r: string, fwd: bool, a: Row, e: Edge, b: Row, f: Edge)
    requires r in g.rels && a.Keys == b.Keys && r !in a && BoundNode(g, r, !fwd) !in a && BoundNode(g, r, !fwd) != r
    requires BoundNode(g, r, fwd) in a && a[BoundNode(g, r, fwd)] == (if fwd then e.src else e.dst)
    requires b[BoundNode(g, r, fwd)] == if fwd then f.src else f.dst
    requires ExtendRow(g, r, fwd, a, e) == ExtendRow(g, r, fwd, b, f)
    ensures a == b && e == f
  {
    var row, nbr := ExtendRow(g, r, fwd, a, e), BoundNode(g, r, !fwd);
    assert row[r] == e.id && row[nbr] == if fwd then e.dst else e.src;
    var same := ExtendRow(g, r, fwd, b, f);
    assert same[r] == f.id && same[nbr] == if fwd then f.dst else f.src;
    assert forall n :: n in a ==> row[n] == a[n];
    assert forall n :: n in b ==> same[n] == b[n];
    SameParts(a, b, row);
  }

  lemma OnceBoth(j: string, x: Row, y: Row, u: Row, v: Row)
    requires x.Keys == u.Keys && y.Keys == v.Keys && x.Keys * y.Keys == {j}
    requires JoinFits(j, x, y) && JoinFits(j, u, v) && y + x == v + u
    ensures x == u && y == v
  {
    var row := y + x;
    forall n | n in y ensures row[n] == y[n] && row[n] == v[n] {
      assert n in x ==> n in x.Keys * y.Keys;
    }
    SameParts(x, u, row);
    SameParts(y, v, row);
  }

  /** Two derivations of one row extend the same row along the same edge. */
  lemma OneExtension(g: QueryGraph, db: Database, p: Plan, t: Derivation, u: Derivation, row: Row) returns (a: Row)
    requires p.Extend? && Shaped(g, p) && Derives(g, db, p, t, row) && Derives(g, db, p, u, row)
    ensures t.edge == u.edge && Derives(g, db, p.child, t.from, a) && Derives(g, db, p.child, u.from, a)
  {
    var Extend(r, fwd, c) := p;
    a :| Derives(g, db, c, t.from, a) && EdgeFits(g, db, r, fwd, a, t.edge) && row == ExtendRow(g, r, fwd, a, t.edge);
    var b: Row :| Derives(g, db, c, u.from, b) && EdgeFits(g, db, r, fwd, b, u.edge)
        && row == ExtendRow(g, r, fwd, b, u.edge);
    DerivedColumns(g, db, c, t.from, a);
    DerivedColumns(g, db, c, u.from, b);
    OnceAlong(g, r, fwd, a, t.edge, b, u.edge);
  }

  /** Two derivations of one row join the same rows. */
  lemma OneJoin(g: QueryGraph, db: Database, p: Plan, t: Derivation, u: Derivation, row: Row) returns (x: Row, y: Row)
    requires p.HashJoin? && Shaped(g, p) && Derives(g, db, p, t, row) && Derives(g, db, p, u, row)
    ensures Derives(g, db, p.probe, t.probe, x) && Derives(g, db, p.probe, u.probe, x)
    ensures Derives(g, db, p.build, t.build, y) && Derives(g, db, p.build, u.build, y)
  {
    var HashJoin(j, l, b) := p;
    x, y :| Derives(g, db, l, t.probe, x) && Derives(g, db, b, t.build, y) && JoinFits(j, x, y) && row == y + x;
    var v: Row, w: Row :| Derives(g, db, l, u.probe, v) && Derives(g, db, b, u.build, w) && JoinFits(j, v, w)
        && row == w + v;
    DerivedColumns(g, db, l, t.probe, x);
    DerivedColumns(g, db, l, u.probe, v);
    DerivedColumns(g, db, b, t.build, y);
    DerivedColumns(g, db, b, u.build, w);
    OnceBoth(j, x, y, v, w);
  }

  /** A shaped plan produces each of its rows once. */
  lemma {:induction false} DerivedOnce(g: QueryGraph, db: Database, p: Plan, t: Derivation, u: Derivation, row: Row)
    requires Shaped(g, p) && Derives(g, db, p, t, row) && Derives(g, db, p, u, row)
    ensures t == u
    decreases p
  {
    match p
    case ScanNode(n) => assert row[n] == t.value && row[n] == u.value;
    case Extend(r, fwd, c) =>
      var a := OneExtension(g, db, p, t, u, row);
      DerivedOnce(g, db, c, t.from, u.from, a);
    case HashJoin(j, l, b) =>
      var x, y := OneJoin(g, db, p, t, u, row);
      DerivedOnce(g, db, l, t.probe, u.probe, x);
      DerivedOnce(g, db, b, t.build, u.build, y);
    case Filter(e, c) => DerivedOnce(g, db, c, t.child, u.child, row);
  }

  lemma {:induction false} AppliedMembers(g: QueryGraph, s: Subgraph, where: seq<Expr>)
    ensures forall c :: c in Applied(g, s, where) <==> c in where && ContainAll(g, s, Vars(c)) && Mentions(g, c)
  {
    if where != [] {
      AppliedMembers(g, s, where[1..]);
    }
  }

  // ---------------------------------------------------------------------------------------------
  // Two subgraphs of a forest that meet, meet in one node
  // ---------------------------------------------------------------------------------------------

  /** A subgraph the enumerator has plans for: inside the graph, and a tree. */
  ghost predicate Tree(g: QueryGraph, s: Subgraph) {
    Within(g, s) && |NodesOf(g, s)| == |s.rels| + 1
  }

  lemma NodesOfUnion(g: QueryGraph, a: Subgraph, b: Subgraph)
    requires a.rels <= g.rels.Keys && b.rels <= g.rels.Keys
    ensures NodesOf(g, Union(a, b)) == NodesOf(g, a) + NodesOf(g, b)
  {
  }

  lemma SubsetCardinality<T>(a: set<T>, b: set<T>)
    requires a <= b
    ensures |a| <= |b|
  {
    assert b == a + (b - a);
  }

  /** Disjoint trees whose relationships form no cycle share no second node, and their union is a tree. */
  lemma TreesMeetOnce(g: QueryGraph, a: Subgraph, b: Subgraph, j: string)
    requires Tree(g, a) && Tree(g, b) && Acyclic(g, a.rels + b.rels) && a.rels !! b.rels && a.rels + b.rels != {}
    requires j in NodesOf(g, a) && j in NodesOf(g, b)
    ensures NodesOf(g, a) * NodesOf(g, b) == {j}
    ensures Tree(g, Union(a, b))
  {
    NodesOfUnion(g, a, b);
    var u := Union(a, b);
    assert u.rels <= u.rels && |u.rels| == |a.rels| + |b.rels|;
    SubsetCardinality(Endpoints(g, u.rels), NodesOf(g, u));
    OneShared(NodesOf(g, a), NodesOf(g, b), j);
  }

  lemma OneShared(a: set<string>, b: set<string>, j: string)
    requires j in a && j in b && |a + b| >= |a| + |b| - 1
    ensures a * b == {j} && |a + b| == |a| + |b| - 1
  {
    assert |a + b| == |a| + |b| - |a * b|;
    assert a * b == {j} + (a * b - {j});
    assert |a * b - {j}| == 0;
  }

  // ---------------------------------------------------------------------------------------------
  // Correctness of each way to build a plan
  // ---------------------------------------------------------------------------------------------

  function AppendFilters(es: seq<Expr>, p: Plan): Plan {
    if es == [] then p else AppendFilters(es[1..], Filter(es[0], p))
  }

  lemma {:induction false} AppendFiltersMeaning(g: QueryGraph, db: Database, es: seq<Expr>, p: Plan, row: Row)
    ensures Produces(g, db, AppendFilters(es, p), row) <==> Produces(g, db, p, row) && AllTrue(db.ops, es, row)
    decreases |es|
  {
    if es != [] {
      AppendFiltersMeaning(g, db, es[1..], Filter(es[0], p), row);
      assert es == [es[0]] + es[1..];
    }
  }

  lemma {:induction false} AppendFiltersShape(g: QueryGraph, es: seq<Expr>, p: Plan)
    ensures Filters(AppendFilters(es, p)) == Filters(p) + multiset(es)
    ensures Shaped(g, AppendFilters(es, p)) <==> Shaped(g, p)
    ensures Columns(g, AppendFilters(es, p)) == Columns(g, p)
    decreases |es|
  {
    if es != [] {
      AppendFiltersShape(g, es[1..], Filter(es[0], p));
      assert es == [es[0]] + es[1..];
    }
  }

  ghost predicate SameMembers(a: seq<Expr>, b: seq<Expr>) {
    forall x :: x in a <==> x in b
  }

  lemma FilteredDenotes(g: QueryGraph, s: Subgraph, p: Plan, before: seq<Expr>, added: seq<Expr>, after: seq<Expr>)
    requires s.rels <= g.rels.Keys && Denotes(g, s, p, before) && SameMembers(before + added, after)
    ensures Denotes(g, s, AppendFilters(added, p), after)
  {
    forall db: Database, row: Row | DbOk(g, db)
      ensures Produces(g, db, AppendFilters(added, p), row) <==> JoinRow(g, db, s, row) && AllTrue(db.ops, after, row)
    {
      AppendFiltersMeaning(g, db, added, p, row);
      assert AllTrue(db.ops, after, row) <==> AllTrue(db.ops, before, row) && AllTrue(db.ops, added, row) by {
        assert forall x :: x in before + added <==> x in before || x in added;
      }
    }
  }

  lemma ScanDenotes(g: QueryGraph, n: string)
    requires GraphOk(g) && n in g.nodes
    ensures Denotes(g, Subgraph({n}, {}), ScanNode(n), [])
    ensures Tree(g, Subgraph({n}, {}))
  {
    assert NodesOf(g, Subgraph({n}, {})) == {n};
  }

  function Restrict(row: Row, names: set<string>): Row {
    map n | n in row && n in names :: row[n]
  }

  ghost predicate Local(g: QueryGraph, s: Subgraph, es: seq<Expr>) {
    forall c :: c in es ==> ContainAll(g, s, Vars(c))
  }

  /** Conjuncts over `s` see a row and its restriction to the columns of `s` alike. */
  lemma RestrictionKeepsTruth(g: QueryGraph, s: Subgraph, es: seq<Expr>, ops: Operators, small: Row, big: Row)
    requires GraphOk(g) && Within(g, s) && Local(g, s, es)
    requires small.Keys == NodesOf(g, s) + s.rels && small.Keys <= big.Keys <= g.nodes + g.rels.Keys
    requires forall n :: n in small ==> small[n] == big[n]
    ensures AllTrue(ops, es, small) <==> AllTrue(ops, es, big)
  {
    forall c | c in es ensures IsTrue(ops, c, small) <==> IsTrue(ops, c, big) {
      EvalDependsOnVars(ops, c, small, big);
    }
  }

  /** The restriction of a join row to a smaller subgraph is a join row of it. */
  lemma JoinRowRestricts(g: QueryGraph, db: Database, s: Subgraph, u: Subgraph, row: Row)
    requires GraphOk(g) && Within(g, u) && s.nodes <= u.nodes && s.rels <= u.rels
    requires JoinRow(g, db, u, row)
    ensures JoinRow(g, db, s, Restrict(row, NodesOf(g, s) + s.rels))
  {
    var small := Restrict(row, NodesOf(g, s) + s.rels);
    assert Endpoints(g, s.rels) <= Endpoints(g, u.rels);
    assert small.Keys == NodesOf(g, s) + s.rels;
    forall r | r in s.rels
      ensures g.rels[r].src in small && g.rels[r].dst in small
      ensures r in db.edges && Edge(small[g.rels[r].src], small[g.rels[r].dst], small[r]) in db.edges[r]
    {
      assert g.rels[r].src in EndsOf(g, r) && g.rels[r].dst in EndsOf(g, r);
    }
  }

  /** What a hash join produces is a join row of both sides, and its filters hold on it ... */
  lemma HashJoinSound(g: QueryGraph, db: Database, a: Subgraph, b: Subgraph, j: string, x: Row, y: Row, es: seq<Expr>,
                      fs: seq<Expr>)
    requires GraphOk(g) && Within(g, a) && Within(g, b) && a.rels !! b.rels && NodesOf(g, a) * NodesOf(g, b) == {j}
    requires Local(g, a, es) && Local(g, b, fs) && JoinFits(j, x, y)
    requires JoinRow(g, db, a, x) && AllTrue(db.ops, es, x) && JoinRow(g, db, b, y) && AllTrue(db.ops, fs, y)
    ensures JoinRow(g, db, Union(a, b), y + x) && AllTrue(db.ops, es + fs, y + x)
  {
    var row := y + x;
    JoinedRow(g, db, a, b, j, x, y);
    JoinColumns(g, db, a, b, row);
    RestrictionKeepsTruth(g, a, es, db.ops, x, row);
    RestrictionKeepsTruth(g, b, fs, db.ops, y, row);
    AllTrueBoth(db.ops, es, fs, row);
  }

  /** ... and every such row comes from one row of each side. */
  lemma HashJoinComplete(g: QueryGraph, db: Database, a: Subgraph, b: Subgraph, j: string, row: Row, es: seq<Expr>,
                         fs: seq<Expr>) returns (x: Row, y: Row)
    requires GraphOk(g) && Within(g, a) && Within(g, b) && a.rels !! b.rels && NodesOf(g, a) * NodesOf(g, b) == {j}
    requires Local(g, a, es) && Local(g, b, fs) && JoinRow(g, db, Union(a, b), row) && AllTrue(db.ops, es + fs, row)
    ensures JoinRow(g, db, a, x) && AllTrue(db.ops, es, x) && JoinRow(g, db, b, y) && AllTrue(db.ops, fs, y)
    ensures JoinFits(j, x, y) && row == y + x
  {
    x, y := Restrict(row, NodesOf(g, a) + a.rels), Restrict(row, NodesOf(g, b) + b.rels);
    SplitRow(g, db, a, b, j, row);
    JoinColumns(g, db, a, b, row);
    AllTrueBoth(db.ops, es, fs, row);
    RestrictionKeepsTruth(g, a, es, db.ops, x, row);
    RestrictionKeepsTruth(g, b, fs, db.ops, y, row);
  }

  lemma AllTrueBoth(ops: Operators, es: seq<Expr>, fs: seq<Expr>, row: Row)
    ensures AllTrue(ops, es + fs, row) <==> AllTrue(ops, es, row) && AllTrue(ops, fs, row)
  {
  }

  /** The meaning of a plan on one database. */
  ghost predicate DenotesOn(g: QueryGraph, db: Database, s: Subgraph, p: Plan, es: seq<Expr>)
    requires s.rels <= g.rels.Keys
  {
    forall row: Row :: Produces(g, db, p, row) <==> JoinRow(g, db, s, row) && AllTrue(db.ops, es, row)
  }

  lemma HashJoinOnlyRows(g: QueryGraph, db: Database, a: Subgraph, b: Subgraph, j: string, p: Plan, q: Plan,
                         es: seq<Expr>, fs: seq<Expr>, row: Row)
    requires GraphOk(g) && Within(g, a) && Within(g, b) && a.rels !! b.rels && NodesOf(g, a) * NodesOf(g, b) == {j}
    requires Local(g, a, es) && Local(g, b, fs) && DenotesOn(g, db, a, p, es) && DenotesOn(g, db, b, q, fs)
    requires Produces(g, db, HashJoin(j, p, q), row)
    ensures JoinRow(g, db, Union(a, b), row) && AllTrue(db.ops, es + fs, row)
  {
    var x: Row, y: Row :| Produces(g, db, p, x) && Produces(g, db, q, y) && JoinFits(j, x, y) && row == y + x;
    HashJoinSound(g, db, a, b, j, x, y, es, fs);
  }

  lemma HashJoinAllRows(g: QueryGraph, db: Database, a: Subgraph, b: Subgraph, j: string, p: Plan, q: Plan,
                        es: seq<Expr>, fs: seq<Expr>, row: Row)
    requires GraphOk(g) && Within(g, a) && Within(g, b) && a.rels !! b.rels && NodesOf(g, a) * NodesOf(g, b) == {j}
    requires Local(g, a, es) && Local(g, b, fs) && DenotesOn(g, db, a, p, es) && DenotesOn(g, db, b, q, fs)
    requires JoinRow(g, db, Union(a, b), row) && AllTrue(db.ops, es + fs, row)
    ensures Produces(g, db, HashJoin(j, p, q), row)
  {
    var x, y := HashJoinComplete(g, db, a, b, j, row, es, fs);
    assert Produces(g, db, p, x) && Produces(g, db, q, y);
  }

  /** Hash join on the one shared node. */
  lemma HashJoinDenotes(g: QueryGraph, a: Subgraph, b: Subgraph, j: string, p: Plan, q: Plan, es: seq<Expr>,
                        fs: seq<Expr>)
    requires GraphOk(g) && Within(g, a) && Within(g, b) && a.rels !! b.rels && NodesOf(g, a) * NodesOf(g, b) == {j}
    requires Local(g, a, es) && Local(g, b, fs) && Denotes(g, a, p, es) && Denotes(g, b, q, fs)
    ensures Denotes(g, Union(a, b), HashJoin(j, p, q), es + fs)
  {
    forall db: Database, row: Row | DbOk(g, db)
      ensures Produces(g, db, HashJoin(j, p, q), row) <==>
              JoinRow(g, db, Union(a, b), row) && AllTrue(db.ops, es + fs, row)
    {
      assert DenotesOn(g, db, a, p, es) && DenotesOn(g, db, b, q, fs);
      if Produces(g, db, HashJoin(j, p, q), row) {
        HashJoinOnlyRows(g, db, a, b, j, p, q, es, fs, row);
      } else if JoinRow(g, db, Union(a, b), row) && AllTrue(db.ops, es + fs, row) {
        HashJoinAllRows(g, db, a, b, j, p, q, es, fs, row);
      }
    }
  }

  lemma NodesInside(g: QueryGraph, s: Subgraph)
    requires GraphOk(g) && Within(g, s)
    ensures NodesOf(g, s) <= g.nodes
  {
  }

  lemma JoinColumns(g: QueryGraph, db: Database, a: Subgraph, b: Subgraph, row: Row)
    requires GraphOk(g) && Within(g, a) && Within(g, b) && JoinRow(g, db, Union(a, b), row)
    ensures row.Keys == NodesOf(g, a) + a.rels + NodesOf(g, b) + b.rels
    ensures row.Keys <= g.nodes + g.rels.Keys
  {
    NodesOfUnion(g, a, b);
    NodesInside(g, a);
    NodesInside(g, b);
    var na, nb := NodesOf(g, a), NodesOf(g, b);
    assert na + nb + (a.rels + b.rels) == na + a.rels + nb + b.rels;
  }

  lemma SplitRow(g: QueryGraph, db: Database, a: Subgraph, b: Subgraph, j: string, row: Row)
    requires GraphOk(g) && Within(g, a) && Within(g, b) && NodesOf(g, a) * NodesOf(g, b) == {j}
    requires JoinRow(g, db, Union(a, b), row)
    ensures var x, y := Restrict(row, NodesOf(g, a) + a.rels), Restrict(row, NodesOf(g, b) + b.rels);
            JoinRow(g, db, a, x) && JoinRow(g, db, b, y) && JoinFits(j, x, y) && row == y + x
  {
    JoinColumns(g, db, a, b, row);
    JoinRowRestricts(g, db, a, Union(a, b), row);
    JoinRowRestricts(g, db, b, Union(a, b), row);
    assert j in NodesOf(g, a) * NodesOf(g, b);
    RestrictBoth(row, NodesOf(g, a) + a.rels, NodesOf(g, b) + b.rels, j);
  }

  lemma RestrictBoth(row: Row, x: set<string>, y: set<string>, j: string)
    requires row.Keys == x + y && j in x && j in y
    ensures row == Restrict(row, y) + Restrict(row, x) && JoinFits(j, Restrict(row, x), Restrict(row, y))
  {
  }

  /** Rows of the two sides that agree on the join node agree on all shared columns. */
  lemma SharedColumns(g: QueryGraph, db: Database, a: Subgraph, b: Subgraph, j: string, x: Row, y: Row)
    requires GraphOk(g) && Within(g, a) && Within(g, b) && a.rels !! b.rels && NodesOf(g, a) * NodesOf(g, b) == {j}
    requires JoinRow(g, db, a, x) && JoinRow(g, db, b, y) && JoinFits(j, x, y)
    ensures forall n :: n in x && n in y ==> x[n] == y[n]
  {
    NodesInside(g, a);
    NodesInside(g, b);
    forall n | n in x && n in y ensures x[n] == y[n] {
      assert n in NodesOf(g, a) * NodesOf(g, b);
    }
  }

  lemma EdgeColumns(g: QueryGraph, db: Database, s: Subgraph, x: Row, big: Row, r: string)
    requires Within(g, s) && JoinRow(g, db, s, x) && r in s.rels
    requires x.Keys <= big.Keys && forall n :: n in x ==> big[n] == x[n]
    ensures r in big && r in db.edges && g.rels[r].src in big && g.rels[r].dst in big
    ensures Edge(big[g.rels[r].src], big[g.rels[r].dst], big[r]) in db.edges[r]
  {
    assert g.rels[r].src in EndsOf(g, r) && g.rels[r].dst in EndsOf(g, r);
  }

  lemma JoinedRow(g: QueryGraph, db: Database, a: Subgraph, b: Subgraph, j: string, x: Row, y: Row)
    requires GraphOk(g) && Within(g, a) && Within(g, b) && a.rels !! b.rels && NodesOf(g, a) * NodesOf(g, b) == {j}
    requires JoinRow(g, db, a, x) && JoinRow(g, db, b, y) && JoinFits(j, x, y)
    ensures JoinRow(g, db, Union(a, b), y + x)
    ensures forall n :: n in x ==> (y + x)[n] == x[n]
    ensures forall n :: n in y ==> (y + x)[n] == y[n]
  {
    NodesOfUnion(g, a, b);
    SharedColumns(g, db, a, b, j, x, y);
    var row := y + x;
    assert forall n :: n in y ==> row[n] == y[n];
    forall r | r in a.rels + b.rels
      ensures r in row && r in db.edges && g.rels[r].src in row && g.rels[r].dst in row
      ensures Edge(row[g.rels[r].src], row[g.rels[r].dst], row[r]) in db.edges[r]
    {
      if r in a.rels {
        EdgeColumns(g, db, a, x, row, r);
      } else {
        EdgeColumns(g, db, b, y, row, r);
      }
    }
  }

  function OneRel(r: string): Subgraph {
    Subgraph({}, {r})
  }

  function EdgeRow(g: QueryGraph, r: string, e: Edge): Row
    requires r in g.rels
  {
    map[g.rels[r].src := e.src, g.rels[r].dst := e.dst, r := e.id]
  }

  /** The join rows of a single relationship are its edges. */
  lemma EdgeRows(g: QueryGraph, db: Database, r: string, y: Row)
    requires GraphOk(g) && DbOk(g, db) && r in g.rels && g.rels[r].src != g.rels[r].dst
    ensures Endpoints(g, {r}) == EndsOf(g, r)
    ensures JoinRow(g, db, OneRel(r), y) ==>
              && y.Keys == EndsOf(g, r) + {r}
              && var e := Edge(y[g.rels[r].src], y[g.rels[r].dst], y[r]); e in db.edges[r] && y == EdgeRow(g, r, e)
    ensures forall e :: e in db.edges[r] && y == EdgeRow(g, r, e) ==> JoinRow(g, db, OneRel(r), y)
  {
  }

  /** Extending a row by an edge is joining it with the edge's row. */
  lemma ExtendIsJoin(g: QueryGraph, db: Database, r: string, j: string, a: Row, e: Edge)
    requires r in g.rels && r !in a && j in EndsOf(g, r) && g.rels[r].src != g.rels[r].dst
             && a.Keys * EndsOf(g, r) == {j}
    requires r in db.edges && e in db.edges[r] && r !in EndsOf(g, r)
    ensures EdgeFits(g, db, r, j == g.rels[r].src, a, e) <==> JoinFits(j, a, EdgeRow(g, r, e))
    ensures ExtendRow(g, r, j == g.rels[r].src, a, e) == EdgeRow(g, r, e) + a
  {
    assert j in a.Keys * EndsOf(g, r);
    var nbr := BoundNode(g, r, j != g.rels[r].src);
    var shared := a.Keys * EndsOf(g, r);
    assert nbr in a.Keys ==> nbr in shared;
  }

  /** A relationship outside `s` that meets it in node j only. */
  ghost predicate Attachable(g: QueryGraph, s: Subgraph, r: string, j: string) {
    && GraphOk(g) && Within(g, s) && r in g.rels && r !in s.rels
    && NodesOf(g, s) * EndsOf(g, r) == {j} && g.rels[r].src != g.rels[r].dst
  }

  lemma ExtendSound(g: QueryGraph, db: Database, s: Subgraph, r: string, j: string, a: Row, e: Edge)
    requires Attachable(g, s, r, j) && DbOk(g, db) && JoinRow(g, db, s, a)
    requires EdgeFits(g, db, r, j == g.rels[r].src, a, e)
    ensures var row := ExtendRow(g, r, j == g.rels[r].src, a, e);
            && JoinRow(g, db, Union(s, OneRel(r)), row) && a.Keys <= row.Keys <= g.nodes + g.rels.Keys
            && forall n :: n in a ==> a[n] == row[n]
  {
    var b := OneRel(r);
    assert j in NodesOf(g, s) * EndsOf(g, r);
    assert a.Keys * EndsOf(g, r) == {j};
    EdgeRows(g, db, r, EdgeRow(g, r, e));
    ExtendIsJoin(g, db, r, j, a, e);
    JoinedRow(g, db, s, b, j, a, EdgeRow(g, r, e));
    JoinColumns(g, db, s, b, EdgeRow(g, r, e) + a);
  }

  lemma ExtendComplete(g: QueryGraph, db: Database, s: Subgraph, r: string, j: string, row: Row)
    returns (a: Row, e: Edge)
    requires Attachable(g, s, r, j) && DbOk(g, db) && JoinRow(g, db, Union(s, OneRel(r)), row)
    ensures JoinRow(g, db, s, a) && EdgeFits(g, db, r, j == g.rels[r].src, a, e)
            && row == ExtendRow(g, r, j == g.rels[r].src, a, e)
  {
    var y;
    a, y := SplitOffRel(g, db, s, r, j, row);
    EdgeRows(g, db, r, y);
    e := Edge(y[g.rels[r].src], y[g.rels[r].dst], y[r]);
    ExtendIsJoin(g, db, r, j, a, e);
  }

  lemma SplitOffRel(g: QueryGraph, db: Database, s: Subgraph, r: string, j: string, row: Row) returns (a: Row, y: Row)
    requires Attachable(g, s, r, j) && DbOk(g, db) && JoinRow(g, db, Union(s, OneRel(r)), row)
    ensures JoinRow(g, db, s, a) && JoinRow(g, db, OneRel(r), y) && JoinFits(j, a, y) && row == y + a
    ensures r !in a && j in EndsOf(g, r) && a.Keys * EndsOf(g, r) == {j} && r !in EndsOf(g, r)
  {
    var b := OneRel(r);
    assert Endpoints(g, {r}) == EndsOf(g, r);
    assert j in NodesOf(g, s) * EndsOf(g, r);
    SplitRow(g, db, s, b, j, row);
    a, y := Restrict(row, NodesOf(g, s) + s.rels), Restrict(row, NodesOf(g, b) + b.rels);
    NodesInside(g, s);
    assert a.Keys * EndsOf(g, r) == {j};
  }

  /** Index-nested-loop join: extending by a relationship adds exactly its edges. */
  lemma ExtendDenotes(g: QueryGraph, s: Subgraph, r: string, j: string, p: Plan, es: seq<Expr>)
    requires Attachable(g, s, r, j) && Local(g, s, es) && Denotes(g, s, p, es)
    ensures Denotes(g, Union(s, OneRel(r)), Extend(r, j == g.rels[r].src, p), es)
  {
    var fwd, u := j == g.rels[r].src, Union(s, OneRel(r));
    forall db: Database, row: Row | DbOk(g, db)
      ensures Produces(g, db, Extend(r, fwd, p), row) <==> JoinRow(g, db, u, row) && AllTrue(db.ops, es, row)
    {
      if Produces(g, db, Extend(r, fwd, p), row) {
        var a: Row, e :| Produces(g, db, p, a) && EdgeFits(g, db, r, fwd, a, e) && row == ExtendRow(g, r, fwd, a, e);
        ExtendSound(g, db, s, r, j, a, e);
        RestrictionKeepsTruth(g, s, es, db.ops, a, row);
      }
      if JoinRow(g, db, u, row) && AllTrue(db.ops, es, row) {
        var a, e := ExtendComplete(g, db, s, r, j, row);
        ExtendSound(g, db, s, r, j, a, e);
        RestrictionKeepsTruth(g, s, es, db.ops, a, row);
      }
    }
  }

  /** `a` is a row of `s`, with the conjuncts true, on some database. */
  ghost predicate RowOn(g: QueryGraph, db: Database, s: Subgraph, es: seq<Expr>, a: Row)
    requires s.rels <= g.rels.Keys
  {
    DbOk(g, db) && JoinRow(g, db, s, a) && AllTrue(db.ops, es, a)
  }

  /** Some database has a row of `s` on which the conjuncts hold. */
  ghost predicate HasRows(g: QueryGraph, s: Subgraph, es: seq<Expr>)
    requires s.rels <= g.rels.Keys
  {
    exists db: Database, a: Row :: RowOn(g, db, s, es, a)
  }

  /** A value other than that of the row, at the far end of r. */
  function Elsewhere(g: QueryGraph, r: string, fwd: bool, a: Row): Value
    requires r in g.rels && BoundNode(g, r, !fwd) in a
  {
    if a[BoundNode(g, r, !fwd)] == Atom(0) then Atom(1) else Atom(0)
  }

  function StrayEdge(g: QueryGraph, r: string, fwd: bool, a: Row): Edge
    requires r in g.rels && BoundNode(g, r, fwd) in a && BoundNode(g, r, !fwd) in a
  {
    var here, there := a[BoundNode(g, r, fwd)], Elsewhere(g, r, fwd, a);
    if fwd then Edge(here, there, Atom(0)) else Edge(there, here, Atom(0))
  }

  /** The database with one edge of r, which leads from the row's bound node elsewhere. */
  function Strayed(g: QueryGraph, db: Database, r: string, fwd: bool, a: Row): Database
    requires r in g.rels && BoundNode(g, r, fwd) in a && BoundNode(g, r, !fwd) in a && BoundNode(g, r, !fwd) in db.nodes
  {
    var other := BoundNode(g, r, !fwd);
    Database(db.nodes[other := db.nodes[other] + {Elsewhere(g, r, fwd, a)}],
             db.edges[r := {StrayEdge(g, r, fwd, a)}], db.ops)
  }

  lemma StrayedDb(g: QueryGraph, db: Database, r: string, fwd: bool, a: Row)
    requires GraphOk(g) && r in g.rels && DbOk(g, db) && BoundNode(g, r, fwd) in a && BoundNode(g, r, !fwd) in a
    requires a[BoundNode(g, r, fwd)] in db.nodes[BoundNode(g, r, fwd)]
    ensures DbOk(g, Strayed(g, db, r, fwd, a))
  {
    var db' := Strayed(g, db, r, fwd, a);
    assert db'.edges.Keys == g.rels.Keys && db'.nodes.Keys == g.nodes;
    forall x, f | x in g.rels && x in db'.edges && f in db'.edges[x]
      ensures g.rels[x].src in db'.nodes && f.src in db'.nodes[g.rels[x].src]
      ensures g.rels[x].dst in db'.nodes && f.dst in db'.nodes[g.rels[x].dst]
    {
      if x != r {
        assert f in db.edges[x];
      }
    }
  }

  lemma StrayedRow(g: QueryGraph, db: Database, s: Subgraph, r: string, fwd: bool, a: Row)
    requires GraphOk(g) && Within(g, s) && r in g.rels && r !in s.rels && DbOk(g, db) && JoinRow(g, db, s, a)
    requires BoundNode(g, r, fwd) in NodesOf(g, s) && BoundNode(g, r, !fwd) in NodesOf(g, s)
    ensures JoinRow(g, Strayed(g, db, r, fwd, a), s, a)
  {
    var db' := Strayed(g, db, r, fwd, a);
    forall n | n in NodesOf(g, s) ensures n in db'.nodes && a[n] in db'.nodes[n] {
      assert a[n] in db.nodes[n];
    }
    forall x | x in s.rels
      ensures x in db'.edges && g.rels[x].src in a && g.rels[x].dst in a
      ensures Edge(a[g.rels[x].src], a[g.rels[x].dst], a[x]) in db'.edges[x]
    {
    }
  }

  lemma StrayedMisses(g: QueryGraph, db: Database, s: Subgraph, r: string, fwd: bool, a: Row)
    requires GraphOk(g) && Within(g, s) && r in g.rels && r !in a && DbOk(g, db)
    requires BoundNode(g, r, fwd) in a && BoundNode(g, r, !fwd) in a
    ensures var db', e := Strayed(g, db, r, fwd, a), StrayEdge(g, r, fwd, a);
            EdgeFits(g, db', r, fwd, a, e) && !JoinRow(g, db', Union(s, OneRel(r)), ExtendRow(g, r, fwd, a, e))
  {
    var db', e, other := Strayed(g, db, r, fwd, a), StrayEdge(g, r, fwd, a), BoundNode(g, r, !fwd);
    var row := ExtendRow(g, r, fwd, a, e);
    assert row[other] == a[other] != Elsewhere(g, r, fwd, a);
    assert db'.edges[r] == {e} && r in Union(s, OneRel(r)).rels;
  }

  /** Why cycles matter: an index-nested-loop join to a relationship whose other end is bound already does not compare
      the two, so it is right exactly when that end is new, or when there is nothing to extend on any database. */
  lemma ExtendExact(g: QueryGraph, s: Subgraph, r: string, fwd: bool, p: Plan, es: seq<Expr>)
    requires GraphOk(g) && Within(g, s) && r in g.rels && r !in s.rels && Local(g, s, es)
    requires BoundNode(g, r, fwd) in NodesOf(g, s) && Denotes(g, s, p, es)
    ensures Denotes(g, Union(s, OneRel(r)), Extend(r, fwd, p), es) <==>
            BoundNode(g, r, !fwd) !in NodesOf(g, s) || !HasRows(g, s, es)
  {
    var j, other := BoundNode(g, r, fwd), BoundNode(g, r, !fwd);
    if other !in NodesOf(g, s) {
      assert NodesOf(g, s) * EndsOf(g, r) == {j};
      assert fwd == (j == g.rels[r].src);
      ExtendDenotes(g, s, r, j, p, es);
    } else if HasRows(g, s, es) {
      var db: Database, a: Row :| RowOn(g, db, s, es, a);
      NodesInside(g, s);
      assert r !in a;
      StrayedDb(g, db, r, fwd, a);
      StrayedRow(g, db, s, r, fwd, a);
      StrayedMisses(g, db, s, r, fwd, a);
      var db', e := Strayed(g, db, r, fwd, a), StrayEdge(g, r, fwd, a);
      assert Produces(g, db', p, a);
      assert Produces(g, db', Extend(r, fwd, p), ExtendRow(g, r, fwd, a, e));
    } else {
      NothingToExtend(g, s, r, fwd, p, es);
    }
  }

  lemma NothingToExtend(g: QueryGraph, s: Subgraph, r: string, fwd: bool, p: Plan, es: seq<Expr>)
    requires GraphOk(g) && Within(g, s) && r in g.rels && r !in s.rels && Local(g, s, es)
    requires Denotes(g, s, p, es) && !HasRows(g, s, es)
    ensures Denotes(g, Union(s, OneRel(r)), Extend(r, fwd, p), es)
  {
    var u := Union(s, OneRel(r));
    forall db: Database, row: Row | DbOk(g, db)
      ensures Produces(g, db, Extend(r, fwd, p), row) <==> JoinRow(g, db, u, row) && AllTrue(db.ops, es, row)
    {
      if Produces(g, db, Extend(r, fwd, p), row) {
        var a: Row, e :| Produces(g, db, p, a) && EdgeFits(g, db, r, fwd, a, e) && row == ExtendRow(g, r, fwd, a, e);
        assert RowOn(g, db, s, es, a);
      }
      if JoinRow(g, db, u, row) && AllTrue(db.ops, es, row) {
        var a := Restrict(row, NodesOf(g, s) + s.rels);
        JoinRowRestricts(g, db, s, u, row);
        JoinColumns(g, db, s, OneRel(r), row);
        RestrictionKeepsTruth(g, s, es, db.ops, a, row);
        assert RowOn(g, db, s, es, a);
      }
    }
  }
}
