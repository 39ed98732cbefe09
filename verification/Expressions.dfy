/** Bound expressions, their three-valued meaning, and the split of a predicate on AND
    (src/binder/expression/expression.cpp). */
module Expressions {

  datatype Value = Null | Bool(b: bool) | Atom(id: int)

  /** `Apply` covers every expression type other than VARIABLE and AND: properties, literals, comparisons,
      functions. */
  datatype Expr =
    | Variable(name: string)
    | And(conjuncts: seq<Expr>)
    | Apply(op: string, args: seq<Expr>)

  type Row = map<string, Value>
  type Operators = (string, seq<Value>) -> Value

  /** AND with nulls: false wins over null, null over true. */
  function AndValues(vs: seq<Value>): Value {
    if Bool(false) in vs then Bool(false)
    else if forall i :: 0 <= i < |vs| ==> vs[i] == Bool(true) then Bool(true)
    else Null
  }

  function Eval(ops: Operators, e: Expr, row: Row): Value
    decreases e, 1
  {
    match e
    case Variable(n) => if n in row then row[n] else Null
    case And(es) => AndValues(EvalAll(ops, es, row))
    case Apply(op, es) => ops(op, EvalAll(ops, es, row))
  }

  function EvalAll(ops: Operators, es: seq<Expr>, row: Row): (vs: seq<Value>)
    ensures |vs| == |es|
    ensures forall i :: 0 <= i < |es| ==> vs[i] == Eval(ops, es[i], row)
    decreases es, 0
  {
    if es == [] then [] else [Eval(ops, es[0], row)] + EvalAll(ops, es[1..], row)
  }

  predicate IsTrue(ops: Operators, e: Expr, row: Row) {
    Eval(ops, e, row) == Bool(true)
  }

  function Vars(e: Expr): set<string>
    decreases e, 1
  {
    match e
    case Variable(n) => {n}
    case And(es) => VarsAll(es)
    case Apply(_, es) => VarsAll(es)
  }

  function VarsAll(es: seq<Expr>): set<string>
    decreases es, 0
  {
    if es == [] then {} else Vars(es[0]) + VarsAll(es[1..])
  }

  function Split(e: Expr): seq<Expr>
    decreases e, 1
  {
    if e.And? then SplitAll(e.conjuncts) else [e]
  }

  function SplitAll(es: seq<Expr>): seq<Expr>
    decreases es, 0
  {
    if es == [] then [] else Split(es[0]) + SplitAll(es[1..])
  }

  predicate NoAnd(es: seq<Expr>) {
    forall e :: e in es ==> !e.And?
  }

  lemma {:induction false} SplitHasNoAnd(e: Expr)
    ensures NoAnd(Split(e))
    decreases e, 1
  {
    if e.And? {
      SplitAllHasNoAnd(e.conjuncts);
    }
  }

  lemma {:induction false} SplitAllHasNoAnd(es: seq<Expr>)
    ensures NoAnd(SplitAll(es))
    decreases es, 0
  {
    if es != [] {
      SplitHasNoAnd(es[0]);
      SplitAllHasNoAnd(es[1..]);
    }
  }

  /** getDependentVariableNames */
  method DependentVariableNames(e: Expr) returns (r: set<string>)
    ensures r == Vars(e)
    decreases e
  {
    if e.Variable? {
      return {e.name};
    }
    var children := if e.And? then e.conjuncts else e.args;
    r := {};
    for i := 0 to |children|
      invariant r + VarsAll(children[i..]) == VarsAll(children)
    {
      var names := DependentVariableNames(children[i]);
      r := r + names;
      assert children[i..][1..] == children[i + 1..];
    }
  }

  /** splitOnAND */
  method SplitOnAND(e: Expr) returns (r: seq<Expr>)
    ensures r == Split(e)
    decreases e
  {
    if !e.And? {
      return [e];
    }
    r := [];
    for i := 0 to |e.conjuncts|
      invariant r + SplitAll(e.conjuncts[i..]) == SplitAll(e.conjuncts)
    {
      var parts := SplitOnAND(e.conjuncts[i]);
      r := r + parts;
      assert e.conjuncts[i..][1..] == e.conjuncts[i + 1..];
    }
    assert r + [] == r;
  }

  ghost predicate AllTrue(ops: Operators, es: seq<Expr>, row: Row) {
    forall e :: e in es ==> IsTrue(ops, e, row)
  }

  /** A predicate is true on a row exactly when every conjunct of its split is. */
  lemma {:induction false} SplitTrue(ops: Operators, e: Expr, row: Row)
    ensures IsTrue(ops, e, row) <==> AllTrue(ops, Split(e), row)
    decreases e, 1
  {
    if e.And? {
      SplitAllTrue(ops, e.conjuncts, row);
      var vs := EvalAll(ops, e.conjuncts, row);
      assert AndValues(vs) == Bool(true) <==> forall i :: 0 <= i < |vs| ==> vs[i] == Bool(true);
      assert forall i :: 0 <= i < |vs| ==> vs[i] == Eval(ops, e.conjuncts[i], row) && e.conjuncts[i] in e.conjuncts;
      if AllTrue(ops, e.conjuncts, row) {
        assert forall i :: 0 <= i < |vs| ==> IsTrue(ops, e.conjuncts[i], row);
      }
    }
  }

  lemma {:induction false} SplitAllTrue(ops: Operators, es: seq<Expr>, row: Row)
    ensures AllTrue(ops, es, row) <==> AllTrue(ops, SplitAll(es), row)
    decreases es, 0
  {
    if es != [] {
      SplitTrue(ops, es[0], row);
      SplitAllTrue(ops, es[1..], row);
      assert es == [es[0]] + es[1..];
    }
  }

  /** Rows that agree on the variables of an expression give it the same value. */
  lemma {:induction false} EvalDependsOnVars(ops: Operators, e: Expr, a: Row, b: Row)
    requires forall n :: n in Vars(e) ==> (n in a <==> n in b) && (n in a ==> a[n] == b[n])
    ensures Eval(ops, e, a) == Eval(ops, e, b)
    decreases e, 1
  {
    match e
    case Variable(_) =>
    case And(es) => EvalAllDependsOnVars(ops, es, a, b);
    case Apply(_, es) => EvalAllDependsOnVars(ops, es, a, b);
  }

  lemma {:induction false} EvalAllDependsOnVars(ops: Operators, es: seq<Expr>, a: Row, b: Row)
    requires forall n :: n in VarsAll(es) ==> (n in a <==> n in b) && (n in a ==> a[n] == b[n])
    ensures EvalAll(ops, es, a) == EvalAll(ops, es, b)
    decreases es, 0
  {
    if es != [] {
      EvalDependsOnVars(ops, es[0], a, b);
      EvalAllDependsOnVars(ops, es[1..], a, b);
    }
  }
}
