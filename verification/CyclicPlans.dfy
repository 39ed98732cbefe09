/** What a plan produces that crosses a cycle of the query graph
    (src/planner/join_order_enumerator.cpp:215-257). */
module CyclicPlans {
  import opened Expressions
  import opened QueryPlans

  // ---------------------------------------------------------------------------------------------
  // Plans as the enumerator builds them
  // ---------------------------------------------------------------------------------------------

  function Rels(p: Plan): set<string> {
    match p
    case ScanNode(_) => {}
    case Extend(r, _, c) => Rels(c) + {r}
    case HashJoin(_, l, b) => Rels(l) + Rels(b)
    case Filter(_, c) => Rels(c)
  }

  /** The nodes that are filtered, as variables of their own, where the column of the output row comes from. */
  function Live(g: QueryGraph, p: Plan): set<string> {
    match p
    case ScanNode(_) => {}
    case Extend(_, _, c) => Live(g, c)
    case HashJoin(j, l, b) => Live(g, l) + (Live(g, b) - (Columns(g, l) - {j}))
    case Filter(e, c) => Live(g, c) + if e.Variable? && e.name in g.nodes then {e.name} else {}
  }

  predicate NoCommonVariable(g: QueryGraph, l: Plan, b: Plan) {
    forall n :: n in g.nodes && Variable(n) in Filters(l) ==> Variable(n) !in Filters(b)
  }

  /** A filter of one conjunct, which was not applied below a hash join that hides its variable. */
  predicate Filterable(g: QueryGraph, e: Expr, c: Plan) {
    && !e.And?
    && (e.Variable? ==> e.name in Columns(g, c))
    && (e.Variable? && e in Filters(c) ==> e.name in g.nodes ==> e.name in Live(g, c))
  }

  predicate AllFilterable(g: QueryGraph, es: seq<Expr>, c: Plan) {
    forall e :: e in es ==> Filterable(g, e, c)
  }

  /** Every step has the columns it needs, and no relationship is read twice. */
  predicate Built(g: QueryGraph, p: Plan) {
    match p
    case ScanNode(n) => n in g.nodes
    case Extend(r, fwd, c) => Built(g, c) && r in g.rels && r !in Rels(c) && BoundNode(g, r, fwd) in Columns(g, c)
    case HashJoin(j, l, b) =>
      && Built(g, l) && Built(g, b) && Rels(l) !! Rels(b) && NoCommonVariable(g, l, b)
      && j in g.nodes && j in Columns(g, l) && j in Columns(g, b)
    case Filter(e, c) => Built(g, c) && Filterable(g, e, c)
  }

  lemma {:induction false} BuiltColumns(g: QueryGraph, p: Plan)
    requires GraphOk(g) && Built(g, p)
    ensures Rels(p) <= g.rels.Keys && Rels(p) <= Columns(g, p) <= g.nodes + Rels(p)
    ensures Endpoints(g, Rels(p)) <= Columns(g, p)
  {
    match p
    case ScanNode(n) =>
    case Extend(r, fwd, c) => BuiltColumns(g, c);
    case HashJoin(j, l, b) =>
      BuiltColumns(g, l);
      BuiltColumns(g, b);
    case Filter(_, c) => BuiltColumns(g, c);
  }

  lemma {:induction false} LiveIsFiltered(g: QueryGraph, p: Plan)
    ensures forall n :: n in Live(g, p) ==> n in g.nodes && Variable(n) in Filters(p)
  {
    match p
    case ScanNode(n) =>
    case Extend(_, _, c) => LiveIsFiltered(g, c);
    case HashJoin(j, l, b) =>
      LiveIsFiltered(g, l);
      LiveIsFiltered(g, b);
    case Filter(_, c) => LiveIsFiltered(g, c);
  }

  lemma {:induction false} LiveIsColumn(g: QueryGraph, p: Plan)
    requires Built(g, p)
    ensures Live(g, p) <= Columns(g, p)
  {
    match p
    case ScanNode(n) =>
    case Extend(_, _, c) => LiveIsColumn(g, c);
    case HashJoin(j, l, b) =>
      LiveIsColumn(g, l);
      LiveIsColumn(g, b);
    case Filter(_, c) => LiveIsColumn(g, c);
  }

  lemma {:induction false} BuiltFilters(g: QueryGraph, es: seq<Expr>, p: Plan)
    requires Built(g, p) && AllFilterable(g, es, p)
    ensures Built(g, AppendFilters(es, p)) && Rels(AppendFilters(es, p)) == Rels(p)
    decreases |es|
  {
    if es != [] {
      var q := Filter(es[0], p);
      forall e | e in es[1..] ensures Filterable(g, e, q) {
        assert e in es && Filterable(g, e, p);
      }
      BuiltFilters(g, es[1..], q);
    }
  }

  // ---------------------------------------------------------------------------------------------
  // Shaped plans read no cycle
  // ---------------------------------------------------------------------------------------------

  /** Adding a relationship that leads to a new node. */
  lemma ExtendAcyclic(g: QueryGraph, rels: set<string>, r: string, known: set<string>, n: string, far: string)
    requires rels <= g.rels.Keys && r in g.rels && Endpoints(g, rels) <= known && Acyclic(g, rels)
    requires n in known && far !in known && EndsOf(g, r) == {n, far}
    ensures Acyclic(g, rels + {r})
  {
    forall some | some <= rels + {r} && some != {} ensures |Endpoints(g, some)| >= |some| + 1 {
      if some <= rels {
        assert |Endpoints(g, some)| >= |some| + 1;
      } else {
        var others := some - {r};
        assert some == others + {r};
        NewEnd(g, rels, r, known, n, far, others);
      }
    }
  }

  lemma NewEnd(g: QueryGraph, rels: set<string>, r: string, known: set<string>, n: string, far: string,
               some: set<string>)
    requires some <= rels <= g.rels.Keys && r in g.rels && Endpoints(g, rels) <= known && Acyclic(g, rels)
    requires n in known && far !in known && EndsOf(g, r) == {n, far}
    ensures |Endpoints(g, some + {r})| >= |some| + 2
  {
    var ends := Endpoints(g, some);
    assert far !in ends && n != far;
    assert {far} + (ends + {n}) <= Endpoints(g, some + {r});
    SubsetCardinality({far} + (ends + {n}), Endpoints(g, some + {r}));
    SubsetCardinality(ends, ends + {n});
    assert some == {} ==> ends + {n} == {n};
  }

  /** Joining two sets of relationships that meet in one node. */
  lemma JoinAcyclic(g: QueryGraph, a: set<string>, b: set<string>, j: string)
    requires a <= g.rels.Keys && b <= g.rels.Keys && a !! b && Acyclic(g, a) && Acyclic(g, b)
    requires Endpoints(g, a) * Endpoints(g, b) <= {j}
    ensures Acyclic(g, a + b)
  {
    forall some | some <= a + b && some != {} ensures |Endpoints(g, some)| >= |some| + 1 {
      var x, y := some * a, some * b;
      assert some == x + y;
      if x != {} && y != {} {
        MeetOnce(g, a, b, x, y, j);
      }
    }
  }

  lemma MeetOnce(g: QueryGraph, a: set<string>, b: set<string>, x: set<string>, y: set<string>, j: string)
    requires x <= a <= g.rels.Keys && y <= b <= g.rels.Keys && Endpoints(g, a) * Endpoints(g, b) <= {j}
    ensures |Endpoints(g, x + y)| + 1 >= |Endpoints(g, x)| + |Endpoints(g, y)|
  {
    var ex, ey := Endpoints(g, x), Endpoints(g, y);
    assert ex <= Endpoints(g, a) && ey <= Endpoints(g, b);
    assert Endpoints(g, x + y) == ex + ey;
    assert |ex + ey| == |ex| + |ey| - |ex * ey|;
    SubsetCardinality(ex * ey, {j});
  }

  lemma {:induction false} ShapedIsAcyclic(g: QueryGraph, p: Plan)
    requires GraphOk(g) && Built(g, p) && Shaped(g, p)
    ensures Rels(p) <= g.rels.Keys && Acyclic(g, Rels(p))
  {
    BuiltColumns(g, p);
    match p
    case ScanNode(n) =>
    case Extend(r, fwd, c) =>
      BuiltColumns(g, c);
      ShapedIsAcyclic(g, c);
      var n, far := BoundNode(g, r, fwd), BoundNode(g, r, !fwd);
      assert EndsOf(g, r) == {n, far};
      ExtendAcyclic(g, Rels(c), r, Columns(g, c), n, far);
    case HashJoin(j, l, b) =>
      BuiltColumns(g, l);
      BuiltColumns(g, b);
      ShapedIsAcyclic(g, l);
      ShapedIsAcyclic(g, b);
      JoinAcyclic(g, Rels(l), Rels(b), j);
    case Filter(_, c) => ShapedIsAcyclic(g, c);
  }

  // ---------------------------------------------------------------------------------------------
  // A database on which a plan produces a row of its own
  // ---------------------------------------------------------------------------------------------

  const HIGH := Bool(true)
  const LOW := Bool(false)

  function ValueOf(low: set<string>, n: string): Value {
    if n in low then LOW else HIGH
  }

  function Other(v: Value): Value {
    if v == HIGH then LOW else HIGH
  }

  function RowWith(columns: set<string>, low: set<string>): Row {
    map n | n in columns :: ValueOf(low, n)
  }

  /** The edge that `Extend` reads: one that leads elsewhere if the far node has a column already. */
  function EdgeRead(g: QueryGraph, r: string, fwd: bool, known: set<string>, low: set<string>): Edge
    requires r in g.rels
  {
    var far := BoundNode(g, r, !fwd);
    var here := ValueOf(low, BoundNode(g, r, fwd));
    var there := if far in known then Other(ValueOf(low, far)) else ValueOf(low, far);
    if fwd then Edge(here, there, HIGH) else Edge(there, here, HIGH)
  }

  /** The nodes with a column on both sides that the hash join does not compare. */
  function Hidden(g: QueryGraph, j: string, l: Plan, b: Plan): set<string> {
    Columns(g, l) * Columns(g, b) * g.nodes - {j}
  }

  /** Where the build side has the low value: elsewhere than the probe side on the hidden nodes, as far as its filters
      let it. */
  function BuildLow(g: QueryGraph, j: string, l: Plan, b: Plan, low: set<string>): set<string> {
    var hidden := Hidden(g, j, l, b);
    (if Shaped(g, l) && Shaped(g, b) then (low - hidden) + (hidden - low) else low) - hidden * Live(g, b)
  }

  /** One edge for each relationship, such that the plan produces the row with the low value on `low`. */
  function EdgesOf(g: QueryGraph, p: Plan, low: set<string>): map<string, Edge>
    requires Built(g, p)
  {
    match p
    case ScanNode(_) => map[]
    case Extend(r, fwd, c) => EdgesOf(g, c, low)[r := EdgeRead(g, r, fwd, Columns(g, c), low)]
    case HashJoin(j, l, b) => EdgesOf(g, l, low) + EdgesOf(g, b, BuildLow(g, j, l, b, low))
    case Filter(_, c) => EdgesOf(g, c, low)
  }

  lemma {:induction false} EdgesForRels(g: QueryGraph, p: Plan, low: set<string>)
    requires Built(g, p)
    ensures EdgesOf(g, p, low).Keys == Rels(p)
  {
    match p
    case ScanNode(n) =>
    case Extend(r, fwd, c) => EdgesForRels(g, c, low);
    case HashJoin(j, l, b) =>
      EdgesForRels(g, l, low);
      EdgesForRels(g, b, BuildLow(g, j, l, b, low));
    case Filter(_, c) => EdgesForRels(g, c, low);
  }

  /** Both values in every node table, these edges, and every other operator always true. */
  ghost predicate Offers(g: QueryGraph, db: Database, edges: map<string, Edge>) {
    && (forall n :: n in g.nodes ==> n in db.nodes && db.nodes[n] == {HIGH, LOW})
    && (forall r :: r in edges ==> r in db.edges && db.edges[r] == {edges[r]})
    && (forall op, vs :: db.ops(op, vs) == HIGH)
  }

  lemma {:induction false} PlanProduces(g: QueryGraph, db: Database, p: Plan, low: set<string>)
    requires GraphOk(g) && Built(g, p) && low <= g.nodes && low !! Live(g, p) && Offers(g, db, EdgesOf(g, p, low))
    ensures Produces(g, db, p, RowWith(Columns(g, p), low))
  {
    match p
    case ScanNode(n) =>
    case Extend(r, fwd, c) =>
      EdgesForRels(g, c, low);
      ExtendOffers(g, db, r, fwd, c, low);
      PlanProduces(g, db, c, low);
      ExtendProduces(g, db, r, fwd, c, low);
    case HashJoin(j, l, b) =>
      var lowB := BuildLow(g, j, l, b, low);
      JoinOffers(g, db, j, l, b, low);
      BuildLowIsFree(g, j, l, b, low);
      PlanProduces(g, db, l, low);
      PlanProduces(g, db, b, lowB);
      JoinedLow(g, j, l, b, low);
    case Filter(e, c) =>
      PlanProduces(g, db, c, low);
      FilterProduces(g, db, e, c, low);
  }

  lemma FilterProduces(g: QueryGraph, db: Database, e: Expr, c: Plan, low: set<string>)
    requires GraphOk(g) && Built(g, Filter(e, c)) && low <= g.nodes && low !! Live(g, Filter(e, c))
    requires forall op, vs :: db.ops(op, vs) == HIGH
    ensures IsTrue(db.ops, e, RowWith(Columns(g, c), low))
  {
    if e.Variable? {
      assert e.name in g.nodes ==> e.name in Live(g, Filter(e, c));
    }
  }

  lemma ExtendOffers(g: QueryGraph, db: Database, r: string, fwd: bool, c: Plan, low: set<string>)
    requires GraphOk(g) && Built(g, Extend(r, fwd, c)) && Offers(g, db, EdgesOf(g, Extend(r, fwd, c), low))
    ensures Offers(g, db, EdgesOf(g, c, low))
    ensures r in db.edges && EdgeRead(g, r, fwd, Columns(g, c), low) in db.edges[r]
  {
    EdgesForRels(g, c, low);
    var edges, more := EdgesOf(g, c, low), EdgesOf(g, Extend(r, fwd, c), low);
    assert forall x :: x in edges ==> x in more && more[x] == edges[x];
    assert more[r] == EdgeRead(g, r, fwd, Columns(g, c), low);
  }

  lemma ExtendProduces(g: QueryGraph, db: Database, r: string, fwd: bool, c: Plan, low: set<string>)
    requires GraphOk(g) && Built(g, Extend(r, fwd, c)) && low <= g.nodes
    requires Produces(g, db, c, RowWith(Columns(g, c), low))
    requires r in db.edges && EdgeRead(g, r, fwd, Columns(g, c), low) in db.edges[r]
    ensures Produces(g, db, Extend(r, fwd, c), RowWith(Columns(g, Extend(r, fwd, c)), low))
  {
    var e, a := EdgeRead(g, r, fwd, Columns(g, c), low), RowWith(Columns(g, c), low);
    ExtendedRow(g, db, r, fwd, Columns(g, c), low);
    assert Columns(g, c) + {r, BoundNode(g, r, !fwd)} == Columns(g, Extend(r, fwd, c));
    assert EdgeFits(g, db, r, fwd, a, e);
    assert RowWith(Columns(g, Extend(r, fwd, c)), low) == ExtendRow(g, r, fwd, a, e);
  }

  lemma ExtendedRow(g: QueryGraph, db: Database, r: string, fwd: bool, known: set<string>, low: set<string>)
    requires GraphOk(g) && r in g.rels && BoundNode(g, r, fwd) in known && low <= g.nodes
    requires r in db.edges && EdgeRead(g, r, fwd, known, low) in db.edges[r]
    ensures EdgeFits(g, db, r, fwd, RowWith(known, low), EdgeRead(g, r, fwd, known, low))
    ensures RowWith(known + {r, BoundNode(g, r, !fwd)}, low) ==
            ExtendRow(g, r, fwd, RowWith(known, low), EdgeRead(g, r, fwd, known, low))
  {
  }

  lemma JoinOffers(g: QueryGraph, db: Database, j: string, l: Plan, b: Plan, low: set<string>)
    requires GraphOk(g) && Built(g, HashJoin(j, l, b)) && Offers(g, db, EdgesOf(g, HashJoin(j, l, b), low))
    ensures Offers(g, db, EdgesOf(g, l, low)) && Offers(g, db, EdgesOf(g, b, BuildLow(g, j, l, b, low)))
  {
    var lowB := BuildLow(g, j, l, b, low);
    EdgesForRels(g, l, low);
    EdgesForRels(g, b, lowB);
    var x, y, both := EdgesOf(g, l, low), EdgesOf(g, b, lowB), EdgesOf(g, HashJoin(j, l, b), low);
    assert forall r :: r in x ==> r in both && both[r] == x[r];
    assert forall r :: r in y ==> r in both && both[r] == y[r];
  }

  lemma BuildLowIsFree(g: QueryGraph, j: string, l: Plan, b: Plan, low: set<string>)
    requires Built(g, b) && low <= g.nodes && low !! Live(g, HashJoin(j, l, b))
    ensures low !! Live(g, l) && BuildLow(g, j, l, b, low) !! Live(g, b) && BuildLow(g, j, l, b, low) <= g.nodes
  {
    LiveIsFiltered(g, b);
    LiveIsColumn(g, b);
    var lowB := BuildLow(g, j, l, b, low);
    forall n | n in lowB ensures n !in Live(g, b) {
      if n !in Hidden(g, j, l, b) {
        assert n in low && n !in Live(g, HashJoin(j, l, b));
      }
    }
  }

  /** The two rows agree on the join node, and the probe side's values win. */
  lemma JoinedLow(g: QueryGraph, j: string, l: Plan, b: Plan, low: set<string>)
    requires GraphOk(g) && Built(g, HashJoin(j, l, b)) && low <= g.nodes
    ensures var x, y := RowWith(Columns(g, l), low), RowWith(Columns(g, b), BuildLow(g, j, l, b, low));
            JoinFits(j, x, y) && RowWith(Columns(g, HashJoin(j, l, b)), low) == y + x
  {
    BuiltColumns(g, l);
    BuiltColumns(g, b);
    var lowB := BuildLow(g, j, l, b, low);
    forall n | n in Columns(g, b) && n !in Columns(g, l) ensures n in lowB <==> n in low {
    }
    assert j !in Hidden(g, j, l, b);
  }

  // ---------------------------------------------------------------------------------------------
  // That row is wrong if the plan crosses a cycle
  // ---------------------------------------------------------------------------------------------

  function EdgeOn(g: QueryGraph, r: string, low: set<string>): Edge
    requires r in g.rels
  {
    Edge(ValueOf(low, g.rels[r].src), ValueOf(low, g.rels[r].dst), HIGH)
  }

  /** A shaped plan reads edges that fit the row. */
  lemma {:induction false} ShapedFits(g: QueryGraph, p: Plan, low: set<string>, r: string)
    requires GraphOk(g) && Built(g, p) && Shaped(g, p) && r in Rels(p)
    ensures r in g.rels && r in EdgesOf(g, p, low) && EdgesOf(g, p, low)[r] == EdgeOn(g, r, low)
  {
    EdgesForRels(g, p, low);
    match p
    case Extend(x, fwd, c) =>
      if r != x {
        ShapedFits(g, c, low, r);
      }
    case HashJoin(j, l, b) =>
      EdgesForRels(g, l, low);
      EdgesForRels(g, b, low);
      assert Hidden(g, j, l, b) == {};
      assert BuildLow(g, j, l, b, low) == low;
      if r in Rels(l) {
        ShapedFits(g, l, low, r);
      } else {
        ShapedFits(g, b, low, r);
      }
    case Filter(_, c) => ShapedFits(g, c, low, r);
  }

  /** In a plan with two nodes every node is at the end of a relationship. */
  lemma {:induction false} Touched(g: QueryGraph, p: Plan, n: string, m: string) returns (r: string)
    requires GraphOk(g) && Built(g, p) && n in Columns(g, p) && m in Columns(g, p) && n != m && {n, m} <= g.nodes
    ensures r in Rels(p) && r in g.rels && n in EndsOf(g, r)
  {
    BuiltColumns(g, p);
    match p
    case Extend(x, fwd, c) =>
      if n in EndsOf(g, x) {
        r := x;
      } else {
        r := Touched(g, c, n, BoundNode(g, x, fwd));
      }
    case HashJoin(j, l, b) =>
      if n in Columns(g, l) && (n != j || m in Columns(g, l)) {
        r := Touched(g, l, n, if n != j then j else m);
      } else {
        r := Touched(g, b, n, if n != j then j else m);
      }
    case Filter(_, c) => r := Touched(g, c, n, m);
  }

  /** An edge is read that does not fit the row of high values, or a filter is not on what is output. */
  ghost predicate Betrayed(g: QueryGraph, p: Plan)
    requires Built(g, p)
  {
    Misread(g, p) || Unchecked(g, p)
  }

  ghost predicate Misread(g: QueryGraph, p: Plan)
    requires Built(g, p)
  {
    exists r :: r in g.rels && r in EdgesOf(g, p, {}) && EdgesOf(g, p, {})[r] != EdgeOn(g, r, {})
  }

  ghost predicate Unchecked(g: QueryGraph, p: Plan) {
    exists n :: n in g.nodes && n in Columns(g, p) && Variable(n) in Filters(p) && n !in Live(g, p)
  }

  lemma {:induction false} UnshapedIsBetrayed(g: QueryGraph, p: Plan)
    requires GraphOk(g) && Built(g, p) && !Shaped(g, p)
    ensures Betrayed(g, p)
  {
    match p
    case Extend(r, fwd, c) => ExtendBetrays(g, r, fwd, c);
      if !Shaped(g, c) {
        UnshapedIsBetrayed(g, c);
      }
    case HashJoin(j, l, b) =>
      if !Shaped(g, l) {
        UnshapedIsBetrayed(g, l);
        SideBetrays(g, j, l, b);
      } else if !Shaped(g, b) {
        UnshapedIsBetrayed(g, b);
        SideBetrays(g, j, l, b);
      } else {
        JoinBetrays(g, j, l, b);
      }
    case Filter(e, c) =>
      UnshapedIsBetrayed(g, c);
      FilterBetrays(g, e, c);
  }

  lemma ExtendBetrays(g: QueryGraph, r: string, fwd: bool, c: Plan)
    requires GraphOk(g) && Built(g, Extend(r, fwd, c))
    ensures Betrayed(g, c) ==> Betrayed(g, Extend(r, fwd, c))
    ensures Shaped(g, c) && !Shaped(g, Extend(r, fwd, c)) ==> Betrayed(g, Extend(r, fwd, c))
  {
    var p := Extend(r, fwd, c);
    BuiltColumns(g, c);
    EdgesForRels(g, c, {});
    if Misread(g, c) {
      var x :| x in g.rels && x in EdgesOf(g, c, {}) && EdgesOf(g, c, {})[x] != EdgeOn(g, x, {});
      assert EdgesOf(g, p, {})[x] != EdgeOn(g, x, {});
    } else if Unchecked(g, c) {
      var n :| n in g.nodes && n in Columns(g, c) && Variable(n) in Filters(c) && n !in Live(g, c);
      assert n in Columns(g, p);
    } else if !Shaped(g, p) && BoundNode(g, r, !fwd) in Columns(g, c) {
      assert EdgesOf(g, p, {})[r] != EdgeOn(g, r, {});
    }
  }

  lemma FilterBetrays(g: QueryGraph, e: Expr, c: Plan)
    requires Built(g, Filter(e, c)) && Betrayed(g, c)
    ensures Betrayed(g, Filter(e, c))
  {
    if Unchecked(g, c) {
      var n :| n in g.nodes && n in Columns(g, c) && Variable(n) in Filters(c) && n !in Live(g, c);
      assert n !in Live(g, Filter(e, c));
    }
  }

  /** A filter missed on one side stays missed: the other side has no filter on that variable. */
  lemma SideUnchecked(g: QueryGraph, j: string, l: Plan, b: Plan)
    requires Built(g, HashJoin(j, l, b)) && (Unchecked(g, l) || Unchecked(g, b))
    ensures Unchecked(g, HashJoin(j, l, b))
  {
    LiveIsFiltered(g, l);
    LiveIsFiltered(g, b);
    var n :| n in g.nodes && n in Columns(g, l) + Columns(g, b) && Variable(n) in Filters(l) + Filters(b)
             && n !in Live(g, l) && n !in Live(g, b);
    assert n !in Live(g, HashJoin(j, l, b));
  }

  lemma SideBetrays(g: QueryGraph, j: string, l: Plan, b: Plan)
    requires Built(g, HashJoin(j, l, b)) && (!Shaped(g, l) || !Shaped(g, b)) && (Betrayed(g, l) || Betrayed(g, b))
    ensures Betrayed(g, HashJoin(j, l, b))
  {
    if Unchecked(g, l) || Unchecked(g, b) {
      SideUnchecked(g, j, l, b);
    } else {
      var side := if Misread(g, l) then l else b;
      var r :| r in g.rels && r in EdgesOf(g, side, {}) && EdgesOf(g, side, {})[r] != EdgeOn(g, r, {});
      EdgesForRels(g, l, {});
      EdgesForRels(g, b, {});
      assert BuildLow(g, j, l, b, {}) == {};
      assert EdgesOf(g, HashJoin(j, l, b), {})[r] == EdgesOf(g, side, {})[r];
    }
  }

  /** Sides that share a second node, n: the build side gets another value for it, or its filter on n is missed. */
  lemma JoinBetrays(g: QueryGraph, j: string, l: Plan, b: Plan)
    requires GraphOk(g) && Built(g, HashJoin(j, l, b)) && Shaped(g, l) && Shaped(g, b)
    requires !Shaped(g, HashJoin(j, l, b))
    ensures Betrayed(g, HashJoin(j, l, b))
  {
    BuiltColumns(g, l);
    BuiltColumns(g, b);
    var n :| n in Columns(g, l) * Columns(g, b) && n != j;
    assert n in Hidden(g, j, l, b);
    if n in Live(g, b) {
      LiveIsFiltered(g, l);
      LiveIsFiltered(g, b);
      assert n !in Live(g, HashJoin(j, l, b));
    } else {
      var low := BuildLow(g, j, l, b, {});
      var r := Touched(g, b, n, j);
      ShapedFits(g, b, low, r);
      EdgesForRels(g, l, {});
      assert n in low && EdgesOf(g, HashJoin(j, l, b), {})[r] == EdgeOn(g, r, low);
    }
  }

  // ---------------------------------------------------------------------------------------------
  // Exactly the shaped plans can be right
  // ---------------------------------------------------------------------------------------------

  function DatabaseWith(g: QueryGraph, edges: map<string, Edge>): Database {
    Database(map n | n in g.nodes :: {HIGH, LOW}, map r | r in g.rels :: if r in edges then {edges[r]} else {},
      (op, vs) => HIGH)
  }

  lemma {:induction false} EdgesAreHighOrLow(g: QueryGraph, p: Plan, low: set<string>)
    requires Built(g, p)
    ensures forall r :: r in EdgesOf(g, p, low) ==>
                          {EdgesOf(g, p, low)[r].src, EdgesOf(g, p, low)[r].dst} <= {HIGH, LOW}
  {
    match p
    case ScanNode(n) =>
    case Extend(r, fwd, c) => EdgesAreHighOrLow(g, c, low);
    case HashJoin(j, l, b) =>
      EdgesAreHighOrLow(g, l, low);
      EdgesAreHighOrLow(g, b, BuildLow(g, j, l, b, low));
    case Filter(_, c) => EdgesAreHighOrLow(g, c, low);
  }

  /** On this database the plan produces this row. */
  lemma ProducedRow(g: QueryGraph, p: Plan, low: set<string>) returns (db: Database)
    requires GraphOk(g) && Built(g, p) && low <= g.nodes && low !! Live(g, p)
    ensures DbOk(g, db) && Offers(g, db, EdgesOf(g, p, low)) && Produces(g, db, p, RowWith(Columns(g, p), low))
  {
    var edges := EdgesOf(g, p, low);
    EdgesForRels(g, p, low);
    EdgesAreHighOrLow(g, p, low);
    BuiltColumns(g, p);
    db := DatabaseWith(g, edges);
    PlanProduces(g, db, p, low);
  }

  lemma UncheckedIsWrong(g: QueryGraph, s: Subgraph, p: Plan, es: seq<Expr>)
    requires GraphOk(g) && Built(g, p) && Within(g, s) && Filters(p) == multiset(es) && Unchecked(g, p)
    ensures !Denotes(g, s, p, es)
  {
    var n :| n in g.nodes && n in Columns(g, p) && Variable(n) in Filters(p) && n !in Live(g, p);
    var db := ProducedRow(g, p, {n});
    var row := RowWith(Columns(g, p), {n});
    assert Variable(n) in multiset(es) && Variable(n) in es;
    assert row[n] == LOW && !IsTrue(db.ops, Variable(n), row);
    assert !AllTrue(db.ops, es, row);
  }

  lemma MisreadIsWrong(g: QueryGraph, s: Subgraph, p: Plan, es: seq<Expr>)
    requires GraphOk(g) && Built(g, p) && Within(g, s) && Rels(p) == s.rels && Misread(g, p)
    ensures !Denotes(g, s, p, es)
  {
    var r :| r in g.rels && r in EdgesOf(g, p, {}) && EdgesOf(g, p, {})[r] != EdgeOn(g, r, {});
    EdgesForRels(g, p, {});
    var db := ProducedRow(g, p, {});
    var row := RowWith(Columns(g, p), {});
    assert db.edges[r] == {EdgesOf(g, p, {})[r]};
    NotAnEdge(g, db, s, r, row);
  }

  lemma NotAnEdge(g: QueryGraph, db: Database, s: Subgraph, r: string, row: Row)
    requires Within(g, s) && r in s.rels && r in db.edges && EdgeOn(g, r, {}) !in db.edges[r]
    requires forall n :: n in row ==> row[n] == HIGH
    ensures !JoinRow(g, db, s, row)
  {
  }

  /** A plan that does not have the shape produces, on some database, a row that is no join row or misses a filter. */
  lemma UnshapedIsWrong(g: QueryGraph, s: Subgraph, p: Plan, es: seq<Expr>)
    requires GraphOk(g) && Built(g, p) && !Shaped(g, p) && Within(g, s) && Rels(p) == s.rels
    requires Filters(p) == multiset(es)
    ensures !Denotes(g, s, p, es)
  {
    UnshapedIsBetrayed(g, p);
    if Unchecked(g, p) {
      UncheckedIsWrong(g, s, p, es);
    } else {
      MisreadIsWrong(g, s, p, es);
    }
  }

  // ---------------------------------------------------------------------------------------------
  // Two parallel relationships: the smallest cycle of two nodes
  // ---------------------------------------------------------------------------------------------

  predicate Parallel(g: QueryGraph, a: string, b: string, r1: string, r2: string) {
    && a != b && r1 != r2 && {a, b} !! {r1, r2}
    && g.nodes == {a, b} && g.rels.Keys == {r1, r2} && g.rels[r1] == Rel(a, b) && g.rels[r2] == Rel(a, b)
  }

  lemma ParallelOk(g: QueryGraph, a: string, b: string, r1: string, r2: string)
    requires Parallel(g, a, b, r1, r2)
    ensures GraphOk(g)
  {
  }

  lemma ParallelEnds(g: QueryGraph, a: string, b: string, r1: string, r2: string)
    requires Parallel(g, a, b, r1, r2)
    ensures |Endpoints(g, g.rels.Keys)| == 2 == |g.rels.Keys|
  {
    assert EndsOf(g, r1) == {a, b} && EndsOf(g, r2) == {a, b};
    assert Endpoints(g, g.rels.Keys) == {a, b};
  }

  lemma CycleIsNoForest(g: QueryGraph, rels: set<string>)
    requires rels <= g.rels.Keys && rels != {} && |Endpoints(g, rels)| <= |rels|
    ensures !Forest(g)
  {
  }

  lemma ParallelIsCyclic(g: QueryGraph, a: string, b: string, r1: string, r2: string)
    requires Parallel(g, a, b, r1, r2)
    ensures !Forest(g)
  {
    ParallelEnds(g, a, b, r1, r2);
    CycleIsNoForest(g, g.rels.Keys);
  }

  /** Two index joins and a hash join. */
  function FirstTwo(a: string, r1: string): Plan {
    Extend(r1, true, ScanNode(a))
  }

  function AllThree(a: string, r1: string, r2: string): Plan {
    Extend(r2, true, FirstTwo(a, r1))
  }

  function Complete(a: string, b: string, r1: string, r2: string): Plan {
    HashJoin(b, AllThree(a, r1, r2), ScanNode(b))
  }

  lemma FirstTwoDenotes(g: QueryGraph, a: string, b: string, r1: string, r2: string)
    requires Parallel(g, a, b, r1, r2)
    ensures Denotes(g, Subgraph({a}, {r1}), FirstTwo(a, r1), [])
  {
    var one := Subgraph({a}, {});
    ParallelOk(g, a, b, r1, r2);
    ScanDenotes(g, a);
    assert EndsOf(g, r1) == {a, b} && NodesOf(g, one) * EndsOf(g, r1) == {a};
    ExtendDenotes(g, one, r1, a, ScanNode(a), []);
    assert Union(one, OneRel(r1)) == Subgraph({a}, {r1});
  }

  lemma ParallelBuilt(g: QueryGraph, a: string, b: string, r1: string, r2: string)
    requires Parallel(g, a, b, r1, r2)
    ensures var p := AllThree(a, r1, r2);
            Built(g, p) && !Shaped(g, p) && Columns(g, p) == {a, b, r1, r2} && Rels(p) == {r1, r2}
            && Filters(p) == multiset{}
  {
    var one, two := ScanNode(a), FirstTwo(a, r1);
    assert Built(g, one) && Columns(g, one) == {a} && Rels(one) == {};
    assert Built(g, two) && Columns(g, two) == {a, b, r1} && Rels(two) == {r1} && Filters(two) == multiset{};
    assert AllThree(a, r1, r2) == Extend(r2, true, two);
  }

  /** The first step of the plan is right, the second is not, and the wrong rows stay in the complete plan. */
  lemma ParallelRelationships(g: QueryGraph, a: string, b: string, r1: string, r2: string)
    requires Parallel(g, a, b, r1, r2)
    ensures Denotes(g, Subgraph({a}, {r1}), FirstTwo(a, r1), [])
    ensures !Denotes(g, Subgraph({a}, {r1, r2}), AllThree(a, r1, r2), [])
    ensures !Denotes(g, Subgraph({a, b}, {r1, r2}), Complete(a, b, r1, r2), [])
  {
    ParallelOk(g, a, b, r1, r2);
    FirstTwoDenotes(g, a, b, r1, r2);
    ParallelBuilt(g, a, b, r1, r2);
    var three, last := AllThree(a, r1, r2), ScanNode(b);
    UnshapedIsWrong(g, Subgraph({a}, {r1, r2}), three, []);
    assert Built(g, last) && Columns(g, last) == {b} && Filters(last) == multiset{};
    UnshapedIsWrong(g, Subgraph({a, b}, {r1, r2}), HashJoin(b, three, last), []);
  }
}
