/** The dynamic-programming join-order enumerator with predicate push-down
    (src/planner/join_order_enumerator.cpp, src/planner/subplans_table.cpp). */
module JoinOrder {
  import opened Wrappers
  import opened Expressions
  import opened QueryPlans
  import opened CyclicPlans
  import opened Subgraphs
  import opened JoinNodes

  // ---------------------------------------------------------------------------------------------
  // Newly matched conjuncts
  // ---------------------------------------------------------------------------------------------

  const NOTHING := Subgraph({}, {})

  predicate IsNew(g: QueryGraph, left: Subgraph, right: Subgraph, u: Subgraph, c: Expr) {
    ContainAll(g, u, Vars(c)) && !ContainAll(g, left, Vars(c)) && !ContainAll(g, right, Vars(c))
  }

  function NewMatched(g: QueryGraph, left: Subgraph, right: Subgraph, u: Subgraph, where: seq<Expr>): seq<Expr> {
    if where == [] then []
    else (if IsNew(g, left, right, u, where[0]) then [where[0]] else []) + NewMatched(g, left, right, u, where[1..])
  }

  lemma NewMatchedFrom(g: QueryGraph, left: Subgraph, right: Subgraph, u: Subgraph, where: seq<Expr>, i: nat,
                       r: seq<Expr>)
    requires i < |where|
    ensures r + NewMatched(g, left, right, u, where[i..])
            == (r + if IsNew(g, left, right, u, where[i]) then [where[i]] else [])
               + NewMatched(g, left, right, u, where[i + 1..])
  {
    assert where[i..][0] == where[i] && where[i..][1..] == where[i + 1..];
  }

  method IsNewlyMatched(g: QueryGraph, left: Subgraph, right: Subgraph, u: Subgraph, c: Expr) returns (r: bool)
    ensures r == IsNew(g, left, right, u, c)
  {
    var names := DependentVariableNames(c);
    r := ContainAll(g, u, names) && !ContainAll(g, left, names) && !ContainAll(g, right, names);
  }

  /** getNewMatchedExpressions with two previous subgraphs; with one, both are the same. */
  method NewMatchedExpressions(g: QueryGraph, left: Subgraph, right: Subgraph, u: Subgraph, where: seq<Expr>)
    returns (r: seq<Expr>)
    ensures r == NewMatched(g, left, right, u, where)
  {
    r := [];
    for i := 0 to |where|
      invariant r + NewMatched(g, left, right, u, where[i..]) == NewMatched(g, left, right, u, where)
    {
      NewMatchedFrom(g, left, right, u, where, i, r);
      var isNew := IsNewlyMatched(g, left, right, u, where[i]);
      r := r + if isNew then [where[i]] else [];
    }
    assert where[|where|..] == [] && r + [] == r;
  }

  /** A conjunct due on a subgraph is due on every larger one. */
  lemma ContainAllGrows(g: QueryGraph, s: Subgraph, u: Subgraph, c: Expr)
    requires Inside(s, u)
    ensures ContainAll(g, s, Vars(c)) ==> ContainAll(g, u, Vars(c))
    ensures !Mentions(g, c) ==> ContainAll(g, s, Vars(c))
  {
  }

  lemma NotOnBothSides(g: QueryGraph, a: Subgraph, b: Subgraph, c: Expr)
    requires Apart(a, b) && Mentions(g, c)
    ensures !(ContainAll(g, a, Vars(c)) && ContainAll(g, b, Vars(c)))
  {
  }

  function Once(keep: bool, x: Expr): multiset<Expr> {
    if keep then multiset{x} else multiset{}
  }

  lemma CountFirst(keep: bool, x: Expr, rest: seq<Expr>)
    ensures multiset((if keep then [x] else []) + rest) == Once(keep, x) + multiset(rest)
  {
  }

  ghost predicate IsApplied(g: QueryGraph, s: Subgraph, c: Expr) {
    ContainAll(g, s, Vars(c)) && Mentions(g, c)
  }

  /** Growing a subgraph: what was applied and what is new make up what has to be applied, each conjunct once. */
  lemma {:induction false} GrowingApplies(g: QueryGraph, s: Subgraph, u: Subgraph, where: seq<Expr>)
    requires Inside(s, u)
    ensures multiset(Applied(g, u, where)) == multiset(Applied(g, s, where)) + multiset(NewMatched(g, s, s, u, where))
  {
    if where != [] {
      var c, rest := where[0], where[1..];
      ContainAllGrows(g, s, u, c);
      GrowingApplies(g, s, u, rest);
      CountFirst(IsApplied(g, u, c), c, Applied(g, u, rest));
      CountFirst(IsApplied(g, s, c), c, Applied(g, s, rest));
      CountFirst(IsNew(g, s, s, u, c), c, NewMatched(g, s, s, u, rest));
    }
  }

  /** A conjunct due on a union was due on one side, or on the other, or is new. */
  lemma OneSide(g: QueryGraph, a: Subgraph, b: Subgraph, c: Expr)
    requires Apart(a, b)
    ensures Once(IsApplied(g, Union(a, b), c), c) ==
            Once(IsApplied(g, a, c), c) + Once(IsApplied(g, b, c), c) + Once(IsNew(g, a, b, Union(a, b), c), c)
  {
    ContainAllGrows(g, a, Union(a, b), c);
    ContainAllGrows(g, b, Union(a, b), c);
    if Mentions(g, c) {
      NotOnBothSides(g, a, b, c);
    }
  }

  /** Joining two subgraphs without a common variable: no conjunct was applied on both sides. */
  lemma {:induction false} JoiningApplies(g: QueryGraph, a: Subgraph, b: Subgraph, where: seq<Expr>)
    requires Apart(a, b)
    ensures multiset(Applied(g, Union(a, b), where))
            == multiset(Applied(g, a, where)) + multiset(Applied(g, b, where))
               + multiset(NewMatched(g, a, b, Union(a, b), where))
  {
    if where != [] {
      var c, rest, u := where[0], where[1..], Union(a, b);
      OneSide(g, a, b, c);
      JoiningApplies(g, a, b, rest);
      CountFirst(IsApplied(g, u, c), c, Applied(g, u, rest));
      CountFirst(IsApplied(g, a, c), c, Applied(g, a, rest));
      CountFirst(IsApplied(g, b, c), c, Applied(g, b, rest));
      CountFirst(IsNew(g, a, b, u, c), c, NewMatched(g, a, b, u, rest));
    }
  }

  lemma {:induction false} NothingApplied(g: QueryGraph, where: seq<Expr>)
    ensures Applied(g, NOTHING, where) == []
  {
    if where != [] {
      NothingApplied(g, where[1..]);
    }
  }

  lemma SameCounts(a: seq<Expr>, b: seq<Expr>)
    requires multiset(a) == multiset(b)
    ensures SameMembers(a, b)
  {
    forall x ensures x in a <==> x in b {
      assert x in multiset(a) <==> x in multiset(b);
    }
  }

  // ---------------------------------------------------------------------------------------------
  // What every stored plan satisfies
  // ---------------------------------------------------------------------------------------------

  /** The plan produces the join rows of `s` with the conjuncts due on it, each once. */
  ghost predicate Right(g: QueryGraph, s: Subgraph, p: Plan, es: seq<Expr>) {
    Tree(g, s) && Denotes(g, s, p, es) && Shaped(g, p)
  }

  /** The plan has the columns of `s` and reads each of its relationships once. */
  ghost predicate Covers(g: QueryGraph, s: Subgraph, p: Plan) {
    Within(g, s) && Built(g, p) && Rels(p) == s.rels && Columns(g, p) == NodesOf(g, s) + s.rels
  }

  /** The plan filters by these conjuncts, and if `s` has no cycle it is right. */
  ghost predicate Made(g: QueryGraph, s: Subgraph, p: Plan, es: seq<Expr>) {
    Covers(g, s, p) && Filters(p) == multiset(es) && (Acyclic(g, s.rels) ==> Right(g, s, p, es))
  }

  /** Every stored plan: every conjunct due on `s` is in one filter. */
  ghost predicate Entry(g: QueryGraph, where: seq<Expr>, s: Subgraph, p: Plan) {
    Made(g, s, p, Applied(g, s, where))
  }

  lemma AppliedIsLocal(g: QueryGraph, s: Subgraph, where: seq<Expr>)
    ensures Local(g, s, Applied(g, s, where))
  {
    AppliedMembers(g, s, where);
  }

  lemma {:induction false} NewMatchedMembers(g: QueryGraph, left: Subgraph, right: Subgraph, u: Subgraph,
                                             where: seq<Expr>)
    ensures forall c :: c in NewMatched(g, left, right, u, where) ==> c in where && IsNew(g, left, right, u, c)
  {
    if where != [] {
      NewMatchedMembers(g, left, right, u, where[1..]);
    }
  }

  /** Newly matched conjuncts have their columns and were not applied before. */
  lemma NewIsFilterable(g: QueryGraph, left: Subgraph, right: Subgraph, u: Subgraph, where: seq<Expr>, p: Plan,
                        es: seq<Expr>, fs: seq<Expr>)
    requires NoAnd(where) && Covers(g, u, p)
    requires Filters(p) == multiset(es) + multiset(fs) && Local(g, left, es) && Local(g, right, fs)
    ensures AllFilterable(g, NewMatched(g, left, right, u, where), p)
  {
    NewMatchedMembers(g, left, right, u, where);
    forall c | c in NewMatched(g, left, right, u, where) ensures Filterable(g, c, p) {
      assert c in where && IsNew(g, left, right, u, c);
      NewIsNowhere(g, left, right, u, c, es, fs);
    }
  }

  lemma NewIsNowhere(g: QueryGraph, left: Subgraph, right: Subgraph, u: Subgraph, c: Expr, es: seq<Expr>,
                     fs: seq<Expr>)
    requires IsNew(g, left, right, u, c) && Local(g, left, es) && Local(g, right, fs)
    ensures c !in multiset(es) + multiset(fs)
  {
    assert c in multiset(es) ==> c in es;
    assert c in multiset(fs) ==> c in fs;
  }

  /** Filtering by the new conjuncts turns a plan with the right rows into an entry. */
  lemma FilteredEntry(g: QueryGraph, where: seq<Expr>, u: Subgraph, p: Plan, before: seq<Expr>, added: seq<Expr>)
    requires Made(g, u, p, before)
    requires multiset(Applied(g, u, where)) == multiset(before) + multiset(added)
    requires AllFilterable(g, added, p)
    ensures Entry(g, where, u, AppendFilters(added, p))
  {
    AppendFiltersShape(g, added, p);
    BuiltFilters(g, added, p);
    if Acyclic(g, u.rels) {
      assert multiset(before + added) == multiset(before) + multiset(added);
      SameCounts(before + added, Applied(g, u, where));
      FilteredDenotes(g, u, p, before, added, Applied(g, u, where));
    }
  }

  lemma ScanEntry(g: QueryGraph, where: seq<Expr>, n: string)
    requires GraphOk(g) && NoAnd(where) && n in g.nodes
    ensures var s := Subgraph({n}, {});
            Entry(g, where, s, AppendFilters(NewMatched(g, NOTHING, NOTHING, s, where), ScanNode(n)))
  {
    var s := Subgraph({n}, {});
    ScanDenotes(g, n);
    assert NodesOf(g, s) + s.rels == {n};
    NothingApplied(g, where);
    GrowingApplies(g, NOTHING, s, where);
    NewIsFilterable(g, NOTHING, NOTHING, s, where, ScanNode(n), [], []);
    FilteredEntry(g, where, s, ScanNode(n), [], NewMatched(g, NOTHING, NOTHING, s, where));
  }

  lemma SingleRelTree(g: QueryGraph, r: string)
    requires GraphOk(g) && r in g.rels && Acyclic(g, {r})
    ensures g.rels[r].src != g.rels[r].dst
    ensures Tree(g, OneRel(r)) && NodesOf(g, OneRel(r)) == EndsOf(g, r)
  {
    assert Endpoints(g, {r}) == EndsOf(g, r);
    assert |Endpoints(g, {r})| >= 2;
    var src, dst := g.rels[r].src, g.rels[r].dst;
    assert src == dst ==> {src, dst} == {src};
  }

  lemma RelScanRight(g: QueryGraph, r: string, fwd: bool)
    requires GraphOk(g) && r in g.rels && Acyclic(g, {r})
    ensures Right(g, OneRel(r), Extend(r, fwd, ScanNode(BoundNode(g, r, fwd))), [])
  {
    var j, s := BoundNode(g, r, fwd), OneRel(r);
    var one := Subgraph({j}, {});
    SingleRelTree(g, r);
    ScanDenotes(g, j);
    assert NodesOf(g, one) * EndsOf(g, r) == {j};
    ExtendDenotes(g, one, r, j, ScanNode(j), []);
    var p := Extend(r, fwd, ScanNode(j));
    assert fwd == (j == g.rels[r].src);
    SameColumns(g, Union(one, s), s, p, []);
  }

  lemma RelScanEntry(g: QueryGraph, where: seq<Expr>, r: string, fwd: bool)
    requires GraphOk(g) && NoAnd(where) && r in g.rels
    ensures var s := OneRel(r);
            Entry(g, where, s, AppendFilters(NewMatched(g, NOTHING, NOTHING, s, where),
                                             Extend(r, fwd, ScanNode(BoundNode(g, r, fwd)))))
  {
    var s, p := OneRel(r), Extend(r, fwd, ScanNode(BoundNode(g, r, fwd)));
    assert NodesOf(g, s) == EndsOf(g, r) == {BoundNode(g, r, fwd), BoundNode(g, r, !fwd)};
    if Acyclic(g, {r}) {
      RelScanRight(g, r, fwd);
    }
    NothingApplied(g, where);
    GrowingApplies(g, NOTHING, s, where);
    NewIsFilterable(g, NOTHING, NOTHING, s, where, p, [], []);
    FilteredEntry(g, where, s, p, [], NewMatched(g, NOTHING, NOTHING, s, where));
  }

  /** Subgraphs with the same relationships and columns have the same join rows. */
  lemma SameColumns(g: QueryGraph, a: Subgraph, b: Subgraph, p: Plan, es: seq<Expr>)
    requires a.rels == b.rels <= g.rels.Keys && NodesOf(g, a) == NodesOf(g, b)
    requires Denotes(g, a, p, es)
    ensures Denotes(g, b, p, es)
  {
    forall db: Database, row: Row | DbOk(g, db)
      ensures Produces(g, db, p, row) <==> JoinRow(g, db, b, row) && AllTrue(db.ops, es, row)
    {
      SameJoinRow(g, db, a, b, row);
    }
  }

  lemma SameJoinRow(g: QueryGraph, db: Database, a: Subgraph, b: Subgraph, row: Row)
    requires a.rels == b.rels <= g.rels.Keys && NodesOf(g, a) == NodesOf(g, b)
    ensures JoinRow(g, db, a, row) <==> JoinRow(g, db, b, row)
  {
  }

  lemma IndexJoinCovers(g: QueryGraph, s: Subgraph, r: string, fwd: bool, p: Plan)
    requires GraphOk(g) && Covers(g, s, p) && r in g.rels && r !in s.rels && BoundNode(g, r, fwd) in NodesOf(g, s)
    ensures Covers(g, Union(s, OneRel(r)), Extend(r, fwd, p))
  {
    NodesOfUnion(g, s, OneRel(r));
    RelEnds(g, r, fwd);
    ExtendedColumns(NodesOf(g, s), s.rels, r, BoundNode(g, r, fwd), BoundNode(g, r, !fwd));
  }

  lemma RelEnds(g: QueryGraph, r: string, fwd: bool)
    requires r in g.rels
    ensures NodesOf(g, OneRel(r)) == {BoundNode(g, r, fwd), BoundNode(g, r, !fwd)}
  {
    assert Endpoints(g, {r}) == EndsOf(g, r);
  }

  lemma ExtendedColumns(nodes: set<string>, rels: set<string>, r: string, n: string, far: string)
    requires n in nodes
    ensures (nodes + rels) + {r, far} == (nodes + {n, far}) + (rels + {r})
  {
  }

  lemma IndexJoinShaped(g: QueryGraph, s: Subgraph, r: string, j: string, p: Plan)
    requires Attachable(g, s, r, j) && Shaped(g, p) && Columns(g, p) == NodesOf(g, s) + s.rels
    ensures Shaped(g, Extend(r, j == g.rels[r].src, p))
  {
    var ns, ends, nbr := NodesOf(g, s), EndsOf(g, r), BoundNode(g, r, j != g.rels[r].src);
    NodesInside(g, s);
    assert j in ns * ends && nbr in ends && nbr !in ns * ends;
  }

  lemma IndexJoinRight(g: QueryGraph, s: Subgraph, r: string, j: string, p: Plan, es: seq<Expr>)
    requires GraphOk(g) && Right(g, s, p, es) && Local(g, s, es) && r in g.rels && r !in s.rels
    requires Columns(g, p) == NodesOf(g, s) + s.rels
    requires j in NodesOf(g, s) && j in EndsOf(g, r) && Acyclic(g, s.rels + {r})
    ensures Right(g, Union(s, OneRel(r)), Extend(r, j == g.rels[r].src, p), es)
  {
    AcyclicPart(g, {r}, s.rels + {r});
    SingleRelTree(g, r);
    TreesMeetOnce(g, s, OneRel(r), j);
    ExtendDenotes(g, s, r, j, p, es);
    IndexJoinShaped(g, s, r, j, p);
  }

  lemma IndexJoinEntry(g: QueryGraph, where: seq<Expr>, s: Subgraph, u: Subgraph, r: string, j: string, p: Plan,
                       added: seq<Expr>)
    requires GraphOk(g) && NoAnd(where) && Entry(g, where, s, p) && r in g.rels && r !in s.rels
    requires j in NodesOf(g, s) && j in EndsOf(g, r) && u == Union(s, OneRel(r))
    requires added == NewMatched(g, s, s, u, where)
    ensures Entry(g, where, u, AppendFilters(added, Extend(r, j == g.rels[r].src, p)))
  {
    var es, q := Applied(g, s, where), Extend(r, j == g.rels[r].src, p);
    AppliedIsLocal(g, s, where);
    IndexJoinCovers(g, s, r, j == g.rels[r].src, p);
    if Acyclic(g, u.rels) {
      AcyclicPart(g, s.rels, u.rels);
      IndexJoinRight(g, s, r, j, p, es);
    }
    GrowingApplies(g, s, u, where);
    NewIsFilterable(g, s, s, u, where, q, es, []);
    FilteredEntry(g, where, u, q, es, added);
  }

  /** A conjunct that is a node was applied on the side that has the node. */
  lemma AppliedOnOneSide(g: QueryGraph, where: seq<Expr>, a: Subgraph, b: Subgraph, p: Plan, q: Plan)
    requires Apart(a, b)
    requires Filters(p) == multiset(Applied(g, a, where)) && Filters(q) == multiset(Applied(g, b, where))
    ensures NoCommonVariable(g, p, q)
  {
    AppliedMembers(g, a, where);
    AppliedMembers(g, b, where);
    forall n | n in g.nodes && Variable(n) in Filters(p) ensures Variable(n) !in Filters(q) {
      assert Variable(n) in Applied(g, a, where);
      NotOnBothSides(g, a, b, Variable(n));
    }
  }

  lemma HashJoinCovers(g: QueryGraph, a: Subgraph, b: Subgraph, j: string, p: Plan, q: Plan)
    requires GraphOk(g) && Covers(g, a, p) && Covers(g, b, q) && Apart(a, b) && NoCommonVariable(g, p, q)
    requires j in NodesOf(g, a) && j in NodesOf(g, b)
    ensures Covers(g, Union(a, b), HashJoin(j, p, q))
  {
    NodesInside(g, a);
    NodesOfUnion(g, a, b);
    var na, nb := NodesOf(g, a), NodesOf(g, b);
    assert (na + nb) + (a.rels + b.rels) == (na + a.rels) + (nb + b.rels);
  }

  lemma HashJoinShaped(g: QueryGraph, a: Subgraph, b: Subgraph, j: string, p: Plan, q: Plan)
    requires GraphOk(g) && Within(g, a) && Within(g, b) && a.rels !! b.rels && NodesOf(g, a) * NodesOf(g, b) == {j}
    requires Shaped(g, p) && Columns(g, p) == NodesOf(g, a) + a.rels
    requires Shaped(g, q) && Columns(g, q) == NodesOf(g, b) + b.rels
    ensures Shaped(g, HashJoin(j, p, q))
  {
    NodesInside(g, a);
    NodesInside(g, b);
    var na, nb := NodesOf(g, a), NodesOf(g, b);
    assert (na + a.rels) * (nb + b.rels) == na * nb;
  }

  lemma HashJoinRight(g: QueryGraph, a: Subgraph, b: Subgraph, j: string, p: Plan, q: Plan, es: seq<Expr>,
                      fs: seq<Expr>)
    requires GraphOk(g) && Right(g, a, p, es) && Right(g, b, q, fs)
    requires Columns(g, p) == NodesOf(g, a) + a.rels && Columns(g, q) == NodesOf(g, b) + b.rels
    requires Apart(a, b) && Acyclic(g, a.rels + b.rels) && Local(g, a, es) && Local(g, b, fs)
    requires j in NodesOf(g, a) && j in NodesOf(g, b) && a.rels + b.rels != {}
    ensures Right(g, Union(a, b), HashJoin(j, p, q), es + fs)
  {
    TreesMeetOnce(g, a, b, j);
    HashJoinDenotes(g, a, b, j, p, q, es, fs);
    HashJoinShaped(g, a, b, j, p, q);
  }

  lemma HashJoinMade(g: QueryGraph, a: Subgraph, b: Subgraph, j: string, p: Plan, q: Plan, es: seq<Expr>,
                     fs: seq<Expr>)
    requires GraphOk(g) && Made(g, a, p, es) && Made(g, b, q, fs) && Apart(a, b) && NoCommonVariable(g, p, q)
    requires Local(g, a, es) && Local(g, b, fs) && j in NodesOf(g, a) && j in NodesOf(g, b) && a.rels + b.rels != {}
    ensures Made(g, Union(a, b), HashJoin(j, p, q), es + fs)
  {
    HashJoinCovers(g, a, b, j, p, q);
    assert multiset(es + fs) == multiset(es) + multiset(fs);
    var rels := a.rels + b.rels;
    if Acyclic(g, rels) {
      AcyclicPart(g, a.rels, rels);
      AcyclicPart(g, b.rels, rels);
      HashJoinRight(g, a, b, j, p, q, es, fs);
    }
  }

  lemma HashJoinEntry(g: QueryGraph, where: seq<Expr>, a: Subgraph, b: Subgraph, u: Subgraph, j: string, p: Plan,
                      q: Plan, added: seq<Expr>)
    requires GraphOk(g) && NoAnd(where) && Entry(g, where, a, p) && Entry(g, where, b, q) && Apart(a, b)
    requires j in NodesOf(g, a) && j in NodesOf(g, b) && a.rels + b.rels != {}
    requires u == Union(a, b) && added == NewMatched(g, a, b, u, where)
    ensures Entry(g, where, u, AppendFilters(added, HashJoin(j, p, q)))
  {
    var es, fs := Applied(g, a, where), Applied(g, b, where);
    AppliedIsLocal(g, a, where);
    AppliedIsLocal(g, b, where);
    AppliedOnOneSide(g, where, a, b, p, q);
    HashJoinMade(g, a, b, j, p, q, es, fs);
    JoiningApplies(g, a, b, where);
    assert multiset(es + fs) == multiset(es) + multiset(fs);
    NewIsFilterable(g, a, b, u, where, HashJoin(j, p, q), es, fs);
    FilteredEntry(g, where, u, HashJoin(j, p, q), es + fs, added);
  }

  lemma {:induction false} NewMatchedFlips(g: QueryGraph, a: Subgraph, b: Subgraph, u: Subgraph, where: seq<Expr>)
    ensures NewMatched(g, a, b, u, where) == NewMatched(g, b, a, u, where)
  {
    if where != [] {
      NewMatchedFlips(g, a, b, u, where[1..]);
    }
  }

  // ---------------------------------------------------------------------------------------------
  // The enumeration
  // ---------------------------------------------------------------------------------------------

  type Table = map<Subgraph, seq<Plan>>

  /** What is to hold of the plans of a subgraph. */
  type Meaning = (Subgraph, Plan) -> bool

  /** `means` is Entry: the bookkeeping of the table does not depend on what that says. */
  ghost predicate MeansEntry(g: QueryGraph, where: seq<Expr>, means: Meaning) {
    forall s, p {:trigger Entry(g, where, s, p)} :: means(s, p) <==> Entry(g, where, s, p)
  }

  lemma StoredIsSlim(g: QueryGraph, where: seq<Expr>, means: Meaning, s: Subgraph, p: Plan)
    requires GraphOk(g) && MeansEntry(g, where, means) && means(s, p)
    ensures Slim(g, s)
  {
    assert Entry(g, where, s, p);
    PlannedIsSlim(g, s, p);
  }

  /** Two subgraphs with plans. */
  lemma JoinNodeStored(g: QueryGraph, where: seq<Expr>, means: Meaning, s: Subgraph, size: nat, nbr: Subgraph,
                       ps: seq<Plan>, qs: seq<Plan>)
    requires GraphOk(g) && MeansEntry(g, where, means) && PlansOk(g, means, s, ps) && PlansOk(g, means, nbr, qs)
    requires size >= 1 && nbr in NbrSubgraphs(g, s, size)
    ensures OnlySelfLoops(g) ==> OneJoinNode(g, s, nbr)
  {
    StoredIsSlim(g, where, means, s, ps[0]);
    StoredIsSlim(g, where, means, nbr, qs[0]);
    if OnlySelfLoops(g) {
      OneJoinNodeHolds(g, s, size, nbr);
    }
  }

  lemma ScanStored(g: QueryGraph, where: seq<Expr>, means: Meaning, s: Subgraph, n: string, added: seq<Expr>)
    requires GraphOk(g) && NoAnd(where) && MeansEntry(g, where, means) && n in g.nodes && s == Subgraph({n}, {})
    requires added == NewMatched(g, NOTHING, NOTHING, s, where)
    ensures means(s, AppendFilters(added, ScanNode(n)))
  {
    ScanEntry(g, where, n);
  }

  lemma RelScanStored(g: QueryGraph, where: seq<Expr>, means: Meaning, s: Subgraph, r: string, fwd: bool,
                      added: seq<Expr>)
    requires GraphOk(g) && NoAnd(where) && MeansEntry(g, where, means) && r in g.rels && s == OneRel(r)
    requires added == NewMatched(g, NOTHING, NOTHING, s, where)
    ensures means(s, AppendFilters(added, Extend(r, fwd, ScanNode(BoundNode(g, r, fwd)))))
  {
    RelScanEntry(g, where, r, fwd);
  }

  lemma IndexJoinStored(g: QueryGraph, where: seq<Expr>, means: Meaning, s: Subgraph, u: Subgraph, r: string,
                        j: string, p: Plan, added: seq<Expr>)
    requires GraphOk(g) && NoAnd(where) && MeansEntry(g, where, means) && means(s, p) && r in g.rels && r !in s.rels
    requires Within(g, s)
    requires j in NodesOf(g, s) && j in EndsOf(g, r) && u == Union(s, OneRel(r))
    requires added == NewMatched(g, s, s, u, where)
    ensures means(u, AppendFilters(added, Extend(r, j == g.rels[r].src, p)))
  {
    assert Entry(g, where, s, p);
    IndexJoinEntry(g, where, s, u, r, j, p, added);
  }

  lemma HashJoinStored(g: QueryGraph, where: seq<Expr>, means: Meaning, a: Subgraph, b: Subgraph, u: Subgraph,
                       j: string, p: Plan, q: Plan, added: seq<Expr>)
    requires GraphOk(g) && NoAnd(where) && MeansEntry(g, where, means) && means(a, p) && means(b, q) && Apart(a, b)
    requires Within(g, a) && Within(g, b)
    requires j in NodesOf(g, a) && j in NodesOf(g, b) && a.rels + b.rels != {}
    requires u == Union(a, b) && added == NewMatched(g, a, b, u, where)
    ensures means(u, AppendFilters(added, HashJoin(j, p, q)))
  {
    assert Entry(g, where, a, p) && Entry(g, where, b, q);
    HashJoinEntry(g, where, a, b, u, j, p, q, added);
  }

  ghost predicate TableOk(g: QueryGraph, means: Meaning, t: Table) {
    forall s {:trigger PlansOk(g, means, s, t[s])} :: s in t ==> PlansOk(g, means, s, t[s])
  }

  ghost predicate PlansOk(g: QueryGraph, means: Meaning, s: Subgraph, ps: seq<Plan>) {
    && ps != [] && Within(g, s)
    && forall i :: 0 <= i < |ps| ==> means(s, ps[i])
  }

  function Added(t: Table, s: Subgraph, p: Plan): Table {
    t[s := (if s in t then t[s] else []) + [p]]
  }

  lemma PlansGrow(g: QueryGraph, means: Meaning, s: Subgraph, ps: seq<Plan>, p: Plan)
    requires ps != [] ==> PlansOk(g, means, s, ps)
    requires means(s, p) && Within(g, s)
    ensures PlansOk(g, means, s, ps + [p])
  {
  }

  lemma PlansKept(g: QueryGraph, means: Meaning, s: Subgraph, ps: seq<Plan>, kept: seq<Plan>)
    requires PlansOk(g, means, s, ps) && kept != [] && forall x :: x in kept ==> x in ps
    ensures PlansOk(g, means, s, kept)
  {
    forall i | 0 <= i < |kept| ensures means(s, kept[i]) {
      assert kept[i] in ps;
      var k :| 0 <= k < |ps| && ps[k] == kept[i];
    }
  }

  lemma EntryAdded(g: QueryGraph, means: Meaning, t: Table, s: Subgraph, p: Plan)
    requires TableOk(g, means, t) && means(s, p) && Within(g, s)
    ensures TableOk(g, means, Added(t, s, p)) && GrownAt(Level(s), t, Added(t, s, p))
  {
    var before := if s in t then t[s] else [];
    assert s in t ==> PlansOk(g, means, s, t[s]);
    PlansGrow(g, means, s, before, p);
    PlansStored(g, means, t, s, before + [p]);
  }

  lemma PlansStored(g: QueryGraph, means: Meaning, t: Table, s: Subgraph, ps: seq<Plan>)
    requires TableOk(g, means, t) && PlansOk(g, means, s, ps)
    ensures TableOk(g, means, t[s := ps])
  {
    var u := t[s := ps];
    forall x | x in u ensures PlansOk(g, means, x, u[x]) {
      assert x != s ==> x in t && PlansOk(g, means, x, t[x]);
    }
  }

  ghost predicate Covered(g: QueryGraph, t: Table, level: nat) {
    forall s :: Buildable(g, s) && Level(s) == level ==> s in t
  }

  /** Only subgraphs of one level were touched, and none was dropped. */
  ghost predicate GrownAt(level: nat, before: Table, after: Table) {
    && (forall s :: s in before ==> s in after)
    && (forall s :: s in after && Level(s) != level ==> s in before && after[s] == before[s])
  }

  lemma GrownTwice(level: nat, a: Table, b: Table, c: Table)
    requires GrownAt(level, a, b) && GrownAt(level, b, c)
    ensures GrownAt(level, a, c)
  {
  }

  lemma StillCovered(g: QueryGraph, before: Table, after: Table, at: nat, level: nat)
    requires GrownAt(at, before, after) && Covered(g, before, level)
    ensures Covered(g, after, level)
  {
  }

  /** The node the first operator of the current pipeline scans, if it is a scan. */
  function SequentialNode(p: Plan): set<string> {
    match p
    case ScanNode(n) => {n}
    case Extend(_, _, c) => SequentialNode(c)
    case Filter(_, c) => SequentialNode(c)
    case HashJoin(_, _, _) => {}
  }

  predicate IsSingleRel(s: Subgraph) {
    |s.rels| == 1 && s.nodes == {}
  }

  lemma TheSingleRel(s: Subgraph, r: string)
    requires IsSingleRel(s) && r in s.rels
    ensures s == OneRel(r)
  {
    assert s.rels == {r} + (s.rels - {r});
    assert |s.rels - {r}| == 0;
  }

  predicate CanApplyINLJoin(t: Table, s: Subgraph, other: Subgraph, j: string)
    requires s in t
  {
    IsSingleRel(other) && exists i :: 0 <= i < |t[s]| && j in SequentialNode(t[s][i])
  }

  const MAX_NUM_PLANS_PER_SUBGRAPH := 100

  /** Position of a cheapest plan. */
  method Cheapest(cost: Plan -> real, ps: seq<Plan>) returns (k: nat)
    requires ps != []
    ensures k < |ps| && forall i :: 0 <= i < |ps| ==> cost(ps[k]) <= cost(ps[i])
  {
    k := 0;
    for i := 0 to |ps|
      invariant k < |ps|
      invariant forall m :: 0 <= m < i ==> cost(ps[k]) <= cost(ps[m])
    {
      if cost(ps[i]) < cost(ps[k]) {
        k := i;
      }
    }
  }

  /** Takes a cheapest plan out. */
  method TakeCheapest(cost: Plan -> real, ps: seq<Plan>) returns (p: Plan, rest: seq<Plan>)
    requires ps != []
    ensures multiset(rest) + multiset{p} == multiset(ps) && |rest| == |ps| - 1
    ensures p in ps && forall x :: x in rest ==> x in ps && cost(p) <= cost(x)
  {
    var k := Cheapest(cost, ps);
    p, rest := ps[k], ps[..k] + ps[k + 1..];
    assert ps == ps[..k] + [ps[k]] + ps[k + 1..];
  }

  /** Sorted by cost: nothing in a prefix costs more than what comes after it. */
  ghost predicate Sorted(cost: Plan -> real, ps: seq<Plan>) {
    forall i, k :: 0 <= i < k < |ps| ==> cost(ps[i]) <= cost(ps[k])
  }

  /** The `n` cheapest plans in order of cost. */
  method CheapestPlans(cost: Plan -> real, ps: seq<Plan>, n: nat) returns (kept: seq<Plan>, ghost dropped: seq<Plan>)
    requires n <= |ps|
    ensures |kept| == n && multiset(kept) + multiset(dropped) == multiset(ps) && Sorted(cost, kept)
    ensures forall x :: x in kept ==> x in ps
    ensures forall x, y :: x in kept && y in dropped ==> cost(x) <= cost(y)
  {
    kept := [];
    var rest := ps;
    while |kept| < n
      invariant |kept| <= n && |kept| + |rest| == |ps| && Sorted(cost, kept)
      invariant multiset(kept) + multiset(rest) == multiset(ps)
      invariant forall x :: x in kept || x in rest ==> x in ps
      invariant forall x, y :: x in kept && y in rest ==> cost(x) <= cost(y)
    {
      var p, others := TakeCheapest(cost, rest);
      assert forall x :: x in kept ==> cost(x) <= cost(p);
      kept, rest := kept + [p], others;
    }
    dropped := rest;
  }

  class JoinOrderEnumerator {
    const g: QueryGraph
    const where: seq<Expr>
    const cost: Plan -> real
    ghost const means: Meaning
    var subPlans: Table
    /** No assertion on the number of join nodes has failed; without assertions the enumeration goes on. */
    var asserted: bool

    ghost predicate Valid()
      reads this
    {
      && GraphOk(g) && NoAnd(where) && MeansEntry(g, where, means) && TableOk(g, means, subPlans)
      && (OnlySelfLoops(g) ==> asserted)
    }

    constructor (g: QueryGraph, where: seq<Expr>, cost: Plan -> real)
      requires GraphOk(g) && NoAnd(where)
      ensures Valid() && this.g == g && this.where == where && subPlans == map[] && asserted
    {
      this.g, this.where, this.cost := g, where, cost;
      means := (s, p) => Entry(g, where, s, p);
      subPlans, asserted := map[], true;
    }

    method AddPlan(s: Subgraph, p: Plan)
      requires Valid() && Within(g, s) && means(s, p)
      modifies this`subPlans
      ensures Valid() && GrownAt(Level(s), old(subPlans), subPlans)
      ensures subPlans == Added(old(subPlans), s, p)
    {
      EntryAdded(g, means, subPlans, s, p);
      ghost var grown := Added(subPlans, s, p);
      if s !in subPlans {
        subPlans := subPlans[s := []];
      }
      subPlans := subPlans[s := subPlans[s] + [p]];
      assert subPlans == grown;
    }

    method PlanNodeScan()
      requires Valid()
      modifies this`subPlans
      ensures Valid() && GrownAt(1, old(subPlans), subPlans)
      ensures forall n :: n in g.nodes ==> Subgraph({n}, {}) in subPlans
    {
      var todo := g.nodes;
      while todo != {}
        invariant todo <= g.nodes && Valid() && GrownAt(1, old(subPlans), subPlans)
        invariant forall n :: n in g.nodes - todo ==> Subgraph({n}, {}) in subPlans
      {
        var n :| n in todo;
        var s := Subgraph({n}, {});
        var predicates := NewMatchedExpressions(g, NOTHING, NOTHING, s, where);
        ScanStored(g, where, means, s, n, predicates);
        AddPlan(s, AppendFilters(predicates, ScanNode(n)));
        todo := todo - {n};
      }
    }

    method PlanRelScan()
      requires Valid()
      modifies this`subPlans
      ensures Valid() && GrownAt(1, old(subPlans), subPlans)
      ensures forall r :: r in g.rels ==> OneRel(r) in subPlans
    {
      var todo := g.rels.Keys;
      while todo != {}
        invariant todo <= g.rels.Keys && Valid() && GrownAt(1, old(subPlans), subPlans)
        invariant forall r :: r in g.rels.Keys - todo ==> OneRel(r) in subPlans
      {
        var r :| r in todo;
        var s := OneRel(r);
        var predicates := NewMatchedExpressions(g, NOTHING, NOTHING, s, where);
        RelScanStored(g, where, means, s, r, true, predicates);
        AddPlan(s, AppendFilters(predicates, Extend(r, true, ScanNode(g.rels[r].src))));
        RelScanStored(g, where, means, s, r, false, predicates);
        AddPlan(s, AppendFilters(predicates, Extend(r, false, ScanNode(g.rels[r].dst))));
        todo := todo - {r};
      }
    }

    method PlanInnerINLJoin(s: Subgraph, other: Subgraph, j: string)
      requires Valid() && s in subPlans && IsSingleRel(other) && other.rels <= g.rels.Keys
      requires Apart(s, other) && Within(g, s) && j in NodesOf(g, s) && j in NodesOf(g, other)
      requires CanApplyINLJoin(subPlans, s, other, j)
      modifies this`subPlans
      ensures Valid() && GrownAt(Level(Union(s, other)), old(subPlans), subPlans)
      ensures Union(s, other) in subPlans
    {
      var r :| r in other.rels;
      TheSingleRel(other, r);
      assert Endpoints(g, {r}) == EndsOf(g, r);
      var u := Subgraph(s.nodes, s.rels + {r});
      assert u == Union(s, other);
      assert Level(u) == Level(s) + 1;
      var predicates := NewMatchedExpressions(g, s, s, u, where);
      var plans := subPlans[s];
      var i := 0;
      while i < |plans|
        invariant 0 <= i <= |plans| && Valid() && GrownAt(Level(u), old(subPlans), subPlans)
        invariant (exists k :: 0 <= k < i && j in SequentialNode(plans[k])) ==> u in subPlans
      {
        if j in SequentialNode(plans[i]) {
          assert PlansOk(g, means, s, plans);
          IndexJoinStored(g, where, means, s, u, r, j, plans[i], predicates);
          AddPlan(u, AppendFilters(predicates, Extend(r, j == g.rels[r].src, plans[i])));
        }
        i := i + 1;
      }
    }

    method PlanInnerHashJoin(s: Subgraph, other: Subgraph, j: string, flip: bool)
      requires Valid() && s in subPlans && other in subPlans
      requires Apart(s, other) && Within(g, s) && Within(g, other) && j in NodesOf(g, s) && j in NodesOf(g, other)
      requires s.rels + other.rels != {}
      modifies this`subPlans
      ensures Valid() && GrownAt(Level(Union(s, other)), old(subPlans), subPlans)
      ensures Union(s, other) in subPlans
    {
      var u := Union(s, other);
      var predicates := NewMatchedExpressions(g, s, other, u, where);
      var lefts, rights := subPlans[s], subPlans[other];
      assert PlansOk(g, means, s, lefts) && PlansOk(g, means, other, rights);
      for i := 0 to |lefts|
        invariant Valid() && GrownAt(Level(u), old(subPlans), subPlans)
        invariant i > 0 ==> u in subPlans
      {
        ghost var before := subPlans;
        HashJoinWithAll(s, other, j, lefts[i], rights, predicates, flip);
        GrownTwice(Level(u), old(subPlans), before, subPlans);
      }
    }

    /** The inner loop: one plan of `s` with each plan of `other`. */
    method HashJoinWithAll(s: Subgraph, other: Subgraph, j: string, p: Plan, rights: seq<Plan>, predicates: seq<Expr>,
                           flip: bool)
      requires Valid() && Within(g, s) && means(s, p) && PlansOk(g, means, other, rights)
      requires Apart(s, other) && j in NodesOf(g, s) && j in NodesOf(g, other) && s.rels + other.rels != {}
      requires predicates == NewMatched(g, s, other, Union(s, other), where)
      modifies this`subPlans
      ensures Valid() && GrownAt(Level(Union(s, other)), old(subPlans), subPlans)
      ensures Union(s, other) in subPlans
    {
      ghost var u := Union(s, other);
      for k := 0 to |rights|
        invariant Valid() && GrownAt(Level(u), old(subPlans), subPlans)
        invariant k > 0 ==> u in subPlans
      {
        ghost var before := subPlans;
        AddHashJoins(s, other, j, p, rights[k], predicates, flip);
        GrownTwice(Level(u), old(subPlans), before, subPlans);
      }
    }

    /** A hash join and, if asked for, the one with probe and build side exchanged. */
    method AddHashJoins(s: Subgraph, other: Subgraph, j: string, p: Plan, q: Plan, predicates: seq<Expr>, flip: bool)
      requires Valid() && Within(g, s) && means(s, p) && Within(g, other) && means(other, q)
      requires Apart(s, other) && j in NodesOf(g, s) && j in NodesOf(g, other) && s.rels + other.rels != {}
      requires predicates == NewMatched(g, s, other, Union(s, other), where)
      modifies this`subPlans
      ensures Valid() && GrownAt(Level(Union(s, other)), old(subPlans), subPlans) && Union(s, other) in subPlans
    {
      var u := Union(s, other);
      assert Union(other, s) == u;
      HashJoinStored(g, where, means, s, other, u, j, p, q, predicates);
      AddPlan(u, AppendFilters(predicates, HashJoin(j, p, q)));
      if flip {
        NewMatchedFlips(g, s, other, u, where);
        HashJoinStored(g, where, means, other, s, u, j, q, p, predicates);
        AddPlan(u, AppendFilters(predicates, HashJoin(j, q, p)));
      }
    }

    /** The body of the loop over neighbours. Without assertions any of several join nodes may come first. */
    method JoinNeighbour(right: Subgraph, nbr: Subgraph, leftLevel: nat, rightLevel: nat)
      requires Valid() && right in subPlans && nbr in subPlans && 1 <= leftLevel && Level(right) == rightLevel
      requires nbr in NbrSubgraphs(g, right, leftLevel)
      modifies this
      ensures Valid() && GrownAt(leftLevel + rightLevel, old(subPlans), subPlans)
      ensures Union(right, nbr) in subPlans
      ensures asserted <==> old(asserted) && OneJoinNode(g, right, nbr)
    {
      assert PlansOk(g, means, right, subPlans[right]) && PlansOk(g, means, nbr, subPlans[nbr]);
      NbrsMeet(g, right, leftLevel, nbr);
      ConnectedNodesAreShared(g, right, nbr);
      UnionLevel(right, nbr);
      var joinNodes := ConnectedNodes(g, right, nbr);
      JoinNodeStored(g, where, means, right, leftLevel, nbr, subPlans[right], subPlans[nbr]);
      asserted := asserted && |joinNodes| == 1;
      var j :| j in joinNodes;
      if CanApplyINLJoin(subPlans, right, nbr, j) {
        PlanInnerINLJoin(right, nbr, j);
      } else if CanApplyINLJoin(subPlans, nbr, right, j) {
        PlanInnerINLJoin(nbr, right, j);
      } else {
        PlanInnerHashJoin(right, nbr, j, leftLevel != rightLevel);
      }
    }

    method PlanInnerJoin(leftLevel: nat, rightLevel: nat)
      requires Valid() && 1 <= leftLevel <= rightLevel
      modifies this
      ensures Valid() && GrownAt(leftLevel + rightLevel, old(subPlans), subPlans)
      ensures JoinedAll(old(subPlans.Keys), subPlans.Keys, g, leftLevel, AtLevel(old(subPlans), rightLevel))
      ensures asserted ==> old(asserted)
      ensures asserted ==> SingleAll(old(subPlans.Keys), g, leftLevel, AtLevel(old(subPlans), rightLevel))
    {
      ghost var before := subPlans;
      var rights := AtLevel(subPlans, rightLevel);
      var todo := rights;
      while todo != {}
        invariant todo <= rights && Valid() && GrownAt(leftLevel + rightLevel, before, subPlans)
        invariant JoinedAll(before.Keys, subPlans.Keys, g, leftLevel, rights - todo)
        invariant asserted ==> old(asserted) && SingleAll(before.Keys, g, leftLevel, rights - todo)
      {
        var right :| right in todo;
        ghost var mid := subPlans;
        JoinNeighbours(right, leftLevel, rightLevel);
        JoinedOneMore(before.Keys, mid.Keys, subPlans.Keys, g, leftLevel, rights - todo, right);
        if asserted {
          SingleOneMore(before.Keys, mid.Keys, g, leftLevel, rights - todo, right);
        }
        assert rights - (todo - {right}) == (rights - todo) + {right};
        todo := todo - {right};
      }
    }

    method JoinNeighbours(right: Subgraph, leftLevel: nat, rightLevel: nat)
      requires Valid() && 1 <= leftLevel && right in subPlans && Level(right) == rightLevel
      modifies this
      ensures Valid() && GrownAt(leftLevel + rightLevel, old(subPlans), subPlans)
      ensures Joined(old(subPlans.Keys), subPlans.Keys, g, leftLevel, right)
      ensures asserted ==> old(asserted) && Single(old(subPlans.Keys), g, leftLevel, right)
    {
      var nbrs := NbrSubgraphs(g, right, leftLevel);
      var todo := nbrs;
      ghost var keys := subPlans.Keys;
      while todo != {}
        invariant Valid() && GrownAt(leftLevel + rightLevel, old(subPlans), subPlans) && todo <= nbrs
        invariant JoinedTo(keys, subPlans.Keys, right, nbrs - todo)
        invariant asserted ==> old(asserted) && SingleTo(keys, g, right, nbrs - todo)
      {
        var nbr :| nbr in todo;
        ghost var mid := subPlans.Keys;
        if nbr in subPlans {
          JoinNeighbour(right, nbr, leftLevel, rightLevel);
        }
        JoinedToNext(keys, mid, subPlans.Keys, right, nbrs - todo, nbr);
        assert nbrs - (todo - {nbr}) == (nbrs - todo) + {nbr};
        todo := todo - {nbr};
      }
      assert nbrs - {} == nbrs;
    }

    /** Keeps the cheapest plans of every subgraph of the level that has too many. */
    method FinalizeLevel(level: nat)
      requires Valid()
      modifies this`subPlans
      ensures Valid() && GrownAt(level, old(subPlans), subPlans) && subPlans.Keys == old(subPlans.Keys)
      ensures forall s :: s in AtLevel(subPlans, level) ==> |subPlans[s]| <= MAX_NUM_PLANS_PER_SUBGRAPH
    {
      ghost var before := subPlans;
      var todo := AtLevel(subPlans, level);
      while todo != {}
        invariant Valid() && subPlans.Keys == before.Keys && GrownAt(level, before, subPlans)
        invariant todo <= AtLevel(subPlans, level)
        invariant forall s :: s in AtLevel(subPlans, level) - todo ==> |subPlans[s]| <= MAX_NUM_PLANS_PER_SUBGRAPH
      {
        var s :| s in todo;
        if |subPlans[s]| >= MAX_NUM_PLANS_PER_SUBGRAPH {
          assert PlansOk(g, means, s, subPlans[s]);
          var kept, _ := CheapestPlans(cost, subPlans[s], MAX_NUM_PLANS_PER_SUBGRAPH);
          PlansKept(g, means, s, subPlans[s], kept);
          PlansStored(g, means, subPlans, s, kept);
          subPlans := subPlans[s := kept];
        }
        todo := todo - {s};
      }
    }

    method PlanLevel(level: nat)
      requires Valid() && level > 1 && Covered(g, subPlans, 1) && Covered(g, subPlans, level - 1)
      modifies this
      ensures Valid() && GrownAt(level, old(subPlans), subPlans)
      ensures Covered(g, subPlans, 1) && Covered(g, subPlans, level)
      ensures asserted ==> old(asserted) && Asserted(g, level - 1)
    {
      ghost var before := subPlans;
      for leftLevel := 1 to level / 2 + 1
        invariant Valid() && GrownAt(level, before, subPlans)
        invariant leftLevel > 1 ==> Covered(g, subPlans, level)
        invariant asserted ==> old(asserted) && (leftLevel > 1 ==> Asserted(g, level - 1))
      {
        ghost var mid := subPlans;
        PlanInnerJoin(leftLevel, level - leftLevel);
        if leftLevel == 1 {
          StillCovered(g, before, mid, level, 1);
          StillCovered(g, before, mid, level, level - 1);
          LevelCovered(g, mid, subPlans, level);
          if asserted {
            LevelAsserted(g, mid, level);
          }
        }
      }
      FinalizeLevel(level);
      StillCovered(g, before, subPlans, level, 1);
    }

    /** planTableScan and the loop over the levels. */
    method PlanAll()
      requires Valid() && subPlans == map[]
      modifies this
      ensures Valid()
      ensures Buildable(g, Whole(g)) ==> Whole(g) in subPlans
      ensures asserted ==> AssertedBelow(g, Level(Whole(g)))
    {
      PlanNodeScan();
      PlanRelScan();
      SinglesCovered(g, subPlans);
      var currentLevel := 2;
      var maxLevel := |g.nodes| + |g.rels| + 1;
      while currentLevel < maxLevel
        invariant Valid() && currentLevel >= 2
        invariant currentLevel > 2 ==> currentLevel <= maxLevel
        invariant Covered(g, subPlans, 1) && Covered(g, subPlans, currentLevel - 1)
        invariant asserted ==> AssertedBelow(g, currentLevel - 1)
      {
        PlanLevel(currentLevel);
        currentLevel := currentLevel + 1;
      }
      assert Level(Whole(g)) == |g.nodes| + |g.rels| by {
        assert |g.rels.Keys| == |g.rels|;
      }
      if Buildable(g, Whole(g)) {
        BuildableIsSome(g, Whole(g));
      }
    }
  }

  /** At every lower level a subgraph and a further relationship have one join node. */
  ghost predicate AssertedBelow(g: QueryGraph, level: int) {
    forall below: nat :: below < level ==> Asserted(g, below)
  }

  /** Every neighbour of the given size that has plans has one join node with `s`. */
  ghost predicate Single(keys: set<Subgraph>, g: QueryGraph, size: nat, s: Subgraph)
    requires size >= 1
  {
    SingleTo(keys, g, s, NbrSubgraphs(g, s, size))
  }

  ghost predicate SingleTo(keys: set<Subgraph>, g: QueryGraph, s: Subgraph, nbrs: set<Subgraph>) {
    forall nbr :: nbr in keys && nbr in nbrs ==> OneJoinNode(g, s, nbr)
  }

  ghost predicate SingleAll(keys: set<Subgraph>, g: QueryGraph, size: nat, rights: set<Subgraph>)
    requires size >= 1
  {
    forall s {:trigger Single(keys, g, size, s)} :: s in rights ==> Single(keys, g, size, s)
  }

  lemma SingleOneMore(keys: set<Subgraph>, mid: set<Subgraph>, g: QueryGraph, size: nat, done: set<Subgraph>,
                      s: Subgraph)
    requires size >= 1 && keys <= mid && SingleAll(keys, g, size, done) && Single(mid, g, size, s)
    ensures SingleAll(keys, g, size, done + {s})
  {
    forall x | x in done + {s} ensures Single(keys, g, size, x) {
      assert x in done ==> Single(keys, g, size, x);
    }
  }

  /** Joining single variables to the level below meets every subgraph and relationship. */
  lemma LevelAsserted(g: QueryGraph, t: Table, level: nat)
    requires GraphOk(g) && level > 1 && Covered(g, t, 1) && Covered(g, t, level - 1)
    requires SingleAll(t.Keys, g, 1, AtLevel(t, level - 1))
    ensures Asserted(g, level - 1)
  {
    forall s, r | Buildable(g, s) && Level(s) == level - 1 && r in RelNbrs(g, s) ensures OneJoinNode(g, s, OneRel(r)) {
      assert s in AtLevel(t, level - 1);
      assert Single(t.Keys, g, 1, s);
      SingletonBuildable(g, OneRel(r));
      assert OneRel(r) in BaseNbrs(g, s);
      assert OneRel(r) in NbrSubgraphs(g, s, 1);
    }
  }

  /** Every neighbour of the given size that has plans was joined to `s`. */
  ghost predicate Joined(keys: set<Subgraph>, after: set<Subgraph>, g: QueryGraph, size: nat, s: Subgraph)
    requires size >= 1
  {
    JoinedTo(keys, after, s, NbrSubgraphs(g, s, size))
  }

  ghost predicate JoinedTo(keys: set<Subgraph>, after: set<Subgraph>, s: Subgraph, nbrs: set<Subgraph>) {
    forall nbr :: nbr in keys && nbr in nbrs ==> Union(s, nbr) in after
  }

  lemma JoinedToNext(keys: set<Subgraph>, mid: set<Subgraph>, after: set<Subgraph>, s: Subgraph, nbrs: set<Subgraph>,
                     nbr: Subgraph)
    requires JoinedTo(keys, mid, s, nbrs) && mid <= after && (nbr in keys ==> Union(s, nbr) in after)
    ensures JoinedTo(keys, after, s, nbrs + {nbr})
  {
  }

  ghost predicate JoinedAll(keys: set<Subgraph>, after: set<Subgraph>, g: QueryGraph, size: nat, rights: set<Subgraph>)
    requires size >= 1
  {
    forall s {:trigger Joined(keys, after, g, size, s)} :: s in rights ==> Joined(keys, after, g, size, s)
  }

  lemma JoinedOneMore(keys: set<Subgraph>, mid: set<Subgraph>, after: set<Subgraph>, g: QueryGraph, size: nat,
                      done: set<Subgraph>, s: Subgraph)
    requires size >= 1 && keys <= mid <= after && JoinedAll(keys, mid, g, size, done) && Joined(mid, after, g, size, s)
    ensures JoinedAll(keys, after, g, size, done + {s})
  {
    forall x | x in done + {s} ensures Joined(keys, after, g, size, x) {
      assert x in done ==> Joined(keys, mid, g, size, x);
      forall nbr | nbr in keys && nbr in NbrSubgraphs(g, x, size) ensures Union(x, nbr) in after {
      }
    }
  }

  function AtLevel(t: Table, level: nat): set<Subgraph> {
    set s | s in t.Keys && Level(s) == level
  }

  /** enumerateJoinOrder for a first MATCH. The source asserts that the fully matched graph has plans: None is that
      assertion failing; `asserted` says that the other one, that there is one join node, never does. */
  method EnumerateJoinOrder(g: QueryGraph, pred: Option<Expr>, cost: Plan -> real)
    returns (r: Option<seq<Plan>>, asserted: bool)
    requires GraphOk(g)
    ensures Buildable(g, Whole(g)) ==> r.Some? && (asserted <==> OnlySelfLoops(g))
    ensures r.Some? ==> r.value != []
    ensures r.Some? ==> forall p :: p in r.value ==>
              && Entry(g, Conjuncts(pred), Whole(g), p)
              && (Denotes(g, Whole(g), p, Applied(g, Whole(g), Conjuncts(pred))) <==> Forest(g))
  {
    var where := [];
    if pred.Some? {
      SplitHasNoAnd(pred.value);
      where := SplitOnAND(pred.value);
    }
    var enumerator := new JoinOrderEnumerator(g, where, cost);
    enumerator.PlanAll();
    var full := Whole(g);
    if full !in enumerator.subPlans {
      return None, enumerator.asserted;
    }
    if Buildable(g, full) && enumerator.asserted {
      AssertedIsAcyclic(g);
    }
    asserted := enumerator.asserted;
    r := Some(enumerator.subPlans[full]);
    assert PlansOk(g, enumerator.means, full, r.value);
    forall p | p in r.value
      ensures Entry(g, where, full, p) && (Denotes(g, full, p, Applied(g, full, where)) <==> Forest(g))
    {
      var i :| 0 <= i < |r.value| && r.value[i] == p;
      assert enumerator.means(full, r.value[i]);
      StoredPlanExact(g, where, full, p);
    }
  }

  function Conjuncts(pred: Option<Expr>): seq<Expr> {
    if pred.Some? then Split(pred.value) else []
  }

  lemma SinglesCovered(g: QueryGraph, t: Table)
    requires forall n :: n in g.nodes ==> Subgraph({n}, {}) in t
    requires forall r :: r in g.rels ==> OneRel(r) in t
    ensures Covered(g, t, 1)
  {
    forall s | Buildable(g, s) && Level(s) == 1 ensures s in t {
      if s.rels == {} {
        var n :| n in s.nodes;
        assert |s.nodes - {n}| == 0;
        assert s == Subgraph({n}, {});
      } else {
        var r :| r in s.rels;
        assert |s.rels - {r}| == 0;
        assert s == OneRel(r);
      }
    }
  }

  /** Joining single variables to the level below reaches every buildable subgraph. */
  lemma LevelCovered(g: QueryGraph, before: Table, after: Table, level: nat)
    requires level > 1 && Covered(g, before, 1) && Covered(g, before, level - 1)
    requires JoinedAll(before.Keys, after.Keys, g, 1, AtLevel(before, level - 1))
    ensures Covered(g, after, level)
  {
    forall s | Buildable(g, s) && Level(s) == level ensures s in after {
      var right, nbr := LastMatched(g, s);
      assert right in AtLevel(before, level - 1);
      assert Joined(before.Keys, after.Keys, g, 1, right);
      assert nbr in NbrSubgraphs(g, right, 1);
    }
  }

  // ---------------------------------------------------------------------------------------------
  // Push-down preserves the meaning of the query
  // ---------------------------------------------------------------------------------------------

  ghost predicate AllMention(g: QueryGraph, where: seq<Expr>) {
    forall c :: c in where ==> Mentions(g, c)
  }

  lemma {:induction false} WholeApplies(g: QueryGraph, where: seq<Expr>)
    requires AllMention(g, where)
    ensures Applied(g, Whole(g), where) == where
  {
    if where != [] {
      assert where == [where[0]] + where[1..];
      WholeApplies(g, where[1..]);
    }
  }

  /** Every stored plan means its subgraph if and only if the subgraph has no cycle. */
  lemma StoredPlanExact(g: QueryGraph, where: seq<Expr>, s: Subgraph, p: Plan)
    requires GraphOk(g) && Entry(g, where, s, p)
    ensures Denotes(g, s, p, Applied(g, s, where)) <==> Acyclic(g, s.rels)
    ensures Shaped(g, p) <==> Acyclic(g, s.rels)
  {
    if Shaped(g, p) {
      ShapedIsAcyclic(g, p);
    } else {
      UnshapedIsWrong(g, s, p, Applied(g, s, where));
    }
  }

  /** The rows of "join everything, then filter". */
  ghost predicate Answer(g: QueryGraph, db: Database, pred: Option<Expr>, row: Row) {
    JoinRow(g, db, Whole(g), row) && (pred.Some? ==> IsTrue(db.ops, pred.value, row))
  }

  ghost predicate Answers(g: QueryGraph, pred: Option<Expr>, p: Plan) {
    forall db: Database, row: Row :: DbOk(g, db) ==> (Produces(g, db, p, row) <==> Answer(g, db, pred, row))
  }

  lemma AnswersIsDenotes(g: QueryGraph, pred: Option<Expr>, p: Plan)
    ensures Answers(g, pred, p) <==> Denotes(g, Whole(g), p, Conjuncts(pred))
  {
    forall db: Database, row: Row
      ensures (pred.Some? ==> IsTrue(db.ops, pred.value, row)) <==> AllTrue(db.ops, Conjuncts(pred), row)
    {
      if pred.Some? {
        SplitTrue(db.ops, pred.value, row);
      }
    }
  }

  /** Every returned plan applies each conjunct of WHERE in exactly one filter, and it produces, on every database,
      exactly the rows of "join everything, then filter" if and only if the graph has no cycle. */
  lemma PushDownPreservesMeaning(g: QueryGraph, pred: Option<Expr>, p: Plan)
    requires GraphOk(g) && Entry(g, Conjuncts(pred), Whole(g), p) && AllMention(g, Conjuncts(pred))
    ensures Filters(p) == multiset(Conjuncts(pred))
    ensures Answers(g, pred, p) <==> Forest(g)
  {
    WholeApplies(g, Conjuncts(pred));
    StoredPlanExact(g, Conjuncts(pred), Whole(g), p);
    AnswersIsDenotes(g, pred, p);
  }

  ghost predicate IsDerived(g: QueryGraph, db: Database, p: Plan, row: Row) {
    exists t :: Derives(g, db, p, t, row)
  }

  /** And each of them once. */
  lemma EachRowOnce(g: QueryGraph, pred: Option<Expr>, p: Plan, db: Database, row: Row)
    requires GraphOk(g) && Forest(g) && DbOk(g, db)
    requires Entry(g, Conjuncts(pred), Whole(g), p) && AllMention(g, Conjuncts(pred))
    ensures IsDerived(g, db, p, row) <==> Answer(g, db, pred, row)
    ensures forall t, u :: Derives(g, db, p, t, row) && Derives(g, db, p, u, row) ==> t == u
  {
    PushDownPreservesMeaning(g, pred, p);
    if Produces(g, db, p, row) {
      var t := Derived(g, db, p, row);
      assert IsDerived(g, db, p, row);
    } else if IsDerived(g, db, p, row) {
      var t :| Derives(g, db, p, t, row);
      DerivedIsProduced(g, db, p, t, row);
    }
    forall t, u | Derives(g, db, p, t, row) && Derives(g, db, p, u, row) ensures t == u {
      DerivedOnce(g, db, p, t, u, row);
    }
  }

  /** A conjunct that mentions no variable of the graph is in no plan, whatever it says. */
  lemma UnmentionedConjunctIsLost(g: QueryGraph, where: seq<Expr>, c: Expr, p: Plan)
    requires Entry(g, where, Whole(g), p)
    ensures c in Filters(p) <==> c in where && Mentions(g, c)
  {
    AppliedMembers(g, Whole(g), where);
    var due := Applied(g, Whole(g), where);
    assert c in multiset(due) <==> c in due;
  }

  /** A graph of two parallel relationships gets plans, and all of them are wrong. */
  lemma ParallelIsPlanned(g: QueryGraph, a: string, b: string, r1: string, r2: string)
    requires Parallel(g, a, b, r1, r2)
    ensures GraphOk(g) && Buildable(g, Whole(g)) && !Forest(g)
  {
    ParallelOk(g, a, b, r1, r2);
    ParallelIsCyclic(g, a, b, r1, r2);
    var one, two, three := Subgraph({a}, {}), Subgraph({a}, {r1}), Subgraph({a, b}, {r1});
    SingletonBuildable(g, one);
    RelBuilt(g, one, r1);
    assert Subgraph(one.nodes, one.rels + {r1}) == two;
    assert b in EndsOf(g, r1) && b in NodeNbrs(g, two);
    NodeBuilt(g, two, b);
    assert Subgraph(two.nodes + {b}, two.rels) == three;
    RelBuilt(g, three, r2);
    assert Subgraph(three.nodes, three.rels + {r2}) == Whole(g);
  }
}
