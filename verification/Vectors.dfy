/** Vectorised execution of binary operations and in-place selection
    (src/function/include/binary_operation_executor.h, src/common/vector/value_vector.cpp,
    src/expression_evaluator/reference_evaluator.cpp). */
module Vectors {
  import opened Wrappers
  import opened NullMasks

  type Operation = (int, int) -> int

  const TRUE := 1

  // ---------------------------------------------------------------------------------------------
  // Pointwise meaning
  // ---------------------------------------------------------------------------------------------

  /** The value at a position, None for null. */
  function Cell(values: seq<int>, nulls: seq<bv64>, pos: nat): Option<int> {
    if IsNull(nulls, pos) || pos >= |values| then None else Some(values[pos])
  }

  /** Null in, null out. */
  function Combine(op: Operation, a: Option<int>, b: Option<int>): Option<int> {
    if a.Some? && b.Some? then Some(op(a.value, b.value)) else None
  }

  /** A flat operand has one position for all rows, an unflat one the row's. */
  function PosOf(flat: Option<nat>, pos: nat): nat {
    if flat.Some? then flat.value else pos
  }

  /** Positions that a filter keeps, in order. */
  function Kept(positions: seq<nat>, keep: seq<bool>): seq<nat> {
    if positions == [] then []
    else
      var last := positions[|positions| - 1];
      Kept(positions[..|positions| - 1], keep) + if last < |keep| && keep[last] then [last] else []
  }

  lemma {:induction false} KeptLength(positions: seq<nat>, keep: seq<bool>)
    ensures |Kept(positions, keep)| <= |positions|
  {
    if positions != [] {
      KeptLength(positions[..|positions| - 1], keep);
    }
  }

  lemma KeptNext(positions: seq<nat>, keep: seq<bool>, i: nat)
    requires i < |positions|
    ensures Kept(positions[..i + 1], keep) ==
            Kept(positions[..i], keep) + if positions[i] < |keep| && keep[positions[i]] then [positions[i]] else []
  {
    assert positions[..i + 1][..i] == positions[..i];
  }

  /** Exactly the qualifying positions survive, each as often as it was selected. */
  lemma {:induction false} KeptExact(positions: seq<nat>, keep: seq<bool>, p: nat)
    ensures multiset(Kept(positions, keep))[p] == if p < |keep| && keep[p] then multiset(positions)[p] else 0
  {
    if positions != [] {
      var init, last := positions[..|positions| - 1], positions[|positions| - 1];
      KeptExact(init, keep, p);
      assert positions == init + [last];
      CountLast(init, last, p);
      if last < |keep| && keep[last] {
        CountLast(Kept(init, keep), last, p);
      } else {
        assert Kept(positions, keep) == Kept(init, keep);
      }
    }
  }

  lemma CountLast(s: seq<nat>, x: nat, p: nat)
    ensures multiset(s + [x])[p] == multiset(s)[p] + if x == p then 1 else 0
  {
  }

  /** Selections in increasing order stay so. */
  lemma {:induction false} KeptSorted(positions: seq<nat>, keep: seq<bool>)
    requires Ascending(positions)
    ensures Ascending(Kept(positions, keep))
    ensures forall p :: p in Kept(positions, keep) ==> p in positions
  {
    if positions != [] {
      var init, last := positions[..|positions| - 1], positions[|positions| - 1];
      KeptSorted(init, keep);
      var k, r := Kept(init, keep), Kept(positions, keep);
      forall i, j | 0 <= i < j < |r| ensures r[i] < r[j] {
        assert r[i] == k[i];
        if j == |k| {
          assert k[i] in init;
        }
      }
    }
  }

  predicate Ascending(s: seq<nat>) {
    forall i, j :: 0 <= i < j < |s| ==> s[i] < s[j]
  }

  // ---------------------------------------------------------------------------------------------
  // Vectors
  // ---------------------------------------------------------------------------------------------

  /** `unfiltered` stands for a selectedPositions pointer to the constant 0, 1, 2, ...; else it points to the buffer. */
  class SelectionVector {
    const buffer: array<nat>
    var unfiltered: bool
    var selectedSize: nat

    constructor ()
      ensures Valid() && fresh(buffer) && unfiltered && selectedSize == 0
    {
      buffer := new nat[CAPACITY](_ => 0);
      unfiltered, selectedSize := true, 0;
    }

    ghost predicate Valid()
      reads this, buffer
    {
      && buffer.Length == CAPACITY && selectedSize <= CAPACITY
      && (!unfiltered ==> forall i :: 0 <= i < selectedSize ==> buffer[i] < CAPACITY)
    }

    ghost function Positions(): (r: seq<nat>)
      requires Valid()
      reads this, buffer
      ensures |r| == selectedSize && forall i :: 0 <= i < |r| ==> r[i] < CAPACITY
    {
      if unfiltered then seq(selectedSize, i => i) else buffer[..selectedSize]
    }
  }

  /** currIdx is -1 for unflat vectors. */
  class DataChunkState {
    var currIdx: int
    const selVector: SelectionVector

    constructor (selVector: SelectionVector)
      ensures this.selVector == selVector && currIdx == -1
    {
      this.selVector := selVector;
      currIdx := -1;
    }

    predicate IsFlat()
      reads this
    {
      currIdx != -1
    }

    ghost predicate Valid()
      reads this, selVector, selVector.buffer
    {
      selVector.Valid() && -1 <= currIdx < CAPACITY && (IsFlat() ==> CurrentPosition() < CAPACITY)
    }

    function CurrentPosition(): nat
      reads this, selVector, selVector.buffer
      requires selVector.Valid() && 0 <= currIdx < CAPACITY
    {
      if selVector.unfiltered then currIdx else selVector.buffer[currIdx]
    }
  }

  class ValueVector {
    var values: seq<int>
    const nullMask: NullMask
    var state: DataChunkState

    constructor (values: seq<int>, nullMask: NullMask, state: DataChunkState)
      ensures this.values == values && this.nullMask == nullMask && this.state == state
    {
      this.values, this.nullMask, this.state := values, nullMask, state;
    }

    ghost predicate Valid()
      reads this, nullMask, state, state.selVector, state.selVector.buffer
    {
      |values| == CAPACITY && nullMask.Valid() && state.Valid()
    }

    ghost function CellAt(pos: nat): Option<int>
      reads this, nullMask
    {
      Cell(values, nullMask.data, pos)
    }

    ghost function Flat(): Option<nat>
      reads this, state, state.selVector, state.selVector.buffer
      requires state.Valid()
    {
      if state.IsFlat() then Some(state.CurrentPosition()) else None
    }
  }

  /** The cell of row `pos` that executing the operation should give. */
  ghost function Expected(op: Operation, left: ValueVector, right: ValueVector, l: Option<nat>, r: Option<nat>,
                          pos: nat): Option<int>
    reads left, left.nullMask, right, right.nullMask
  {
    Combine(op, left.CellAt(PosOf(l, pos)), right.CellAt(PosOf(r, pos)))
  }

  /** The loops of execute*: over the selected positions, with or without looking at null bits. */
  method ExecuteLoop(left: ValueVector, right: ValueVector, result: ValueVector, op: Operation,
                     l: Option<nat>, r: Option<nat>, sel: SelectionVector, checkNulls: bool)
    requires |left.values| == |right.values| == |result.values| == CAPACITY
    requires left.nullMask.Valid() && right.nullMask.Valid() && result.nullMask.Valid() && sel.Valid()
    requires result != left && result != right && result.nullMask != left.nullMask && result.nullMask != right.nullMask
    requires (l.Some? ==> l.value < CAPACITY) && (r.Some? ==> r.value < CAPACITY)
    requires !checkNulls ==> forall k :: 0 <= k < sel.selectedSize ==>
               Expected(op, left, right, l, r, sel.Positions()[k]).Some?
    modifies result`values, result.nullMask
    ensures |result.values| == CAPACITY && result.nullMask.Valid()
    ensures forall k :: 0 <= k < sel.selectedSize ==>
              var pos := sel.Positions()[k];
              result.CellAt(pos) == if !checkNulls && old(IsNull(result.nullMask.data, pos)) then None
                                    else Expected(op, left, right, l, r, pos)
    ensures !checkNulls ==> result.nullMask.data == old(result.nullMask.data)
  {
    ghost var positions := sel.Positions();
    ghost var nulls := result.nullMask.data;
    for i := 0 to sel.selectedSize
      invariant |result.values| == CAPACITY && result.nullMask.Valid()
      invariant forall k :: 0 <= k < i ==>
                  result.CellAt(positions[k]) == if !checkNulls && IsNull(nulls, positions[k]) then None
                                                 else Expected(op, left, right, l, r, positions[k])
      invariant !checkNulls ==> result.nullMask.data == nulls
    {
      var pos := if sel.unfiltered then i else sel.buffer[i];
      assert pos == positions[i];
      ExecuteRow(left, right, result, op, PosOf(l, pos), PosOf(r, pos), pos, checkNulls);
    }
  }

  /** One row: its null bit, if it is looked at, and its value, if it has one. */
  method ExecuteRow(left: ValueVector, right: ValueVector, result: ValueVector, op: Operation, lPos: nat, rPos: nat,
                    pos: nat, checkNulls: bool)
    requires |left.values| == |right.values| == |result.values| == CAPACITY && lPos < CAPACITY && rPos < CAPACITY
    requires pos < CAPACITY && result.nullMask.Valid()
    requires result != left && result != right && result.nullMask != left.nullMask && result.nullMask != right.nullMask
    requires !checkNulls ==> !IsNull(left.nullMask.data, lPos) && !IsNull(right.nullMask.data, rPos)
    modifies result`values, result.nullMask
    ensures |result.values| == CAPACITY && result.nullMask.Valid()
    ensures result.CellAt(pos) == if !checkNulls && old(IsNull(result.nullMask.data, pos)) then None
                                  else Combine(op, left.CellAt(lPos), right.CellAt(rPos))
    ensures forall q :: 0 <= q < CAPACITY && q != pos ==>
              Cell(result.values, result.nullMask.data, q) == old(Cell(result.values, result.nullMask.data, q))
    ensures !checkNulls ==> result.nullMask.data == old(result.nullMask.data)
  {
    if checkNulls {
      result.nullMask.SetNull(pos, IsNull(left.nullMask.data, lPos) || IsNull(right.nullMask.data, rPos));
    }
    if !checkNulls || !IsNull(result.nullMask.data, pos) {
      result.values := result.values[pos := op(left.values[lPos], right.values[rPos])];
    }
  }

  // ---------------------------------------------------------------------------------------------
  // execute
  // ---------------------------------------------------------------------------------------------

  ghost predicate Operands(left: ValueVector, right: ValueVector, result: ValueVector)
    reads left, left.nullMask, left.state, left.state.selVector, left.state.selVector.buffer
    reads right, right.nullMask, right.state, right.state.selVector, right.state.selVector.buffer
    reads result, result.nullMask
  {
    && left.Valid() && right.Valid() && |result.values| == CAPACITY && result.nullMask.Valid()
    && left.nullMask.Sound() && right.nullMask.Sound()
    && result != left && result != right && result.nullMask != left.nullMask && result.nullMask != right.nullMask
    && (!left.state.IsFlat() && !right.state.IsFlat() ==> left.state == right.state)
  }

  /** The path taken writes the null bit of every row. */
  ghost predicate WritesNulls(left: ValueVector, right: ValueVector)
    reads left, left.nullMask, left.state, left.state.selVector, left.state.selVector.buffer
    reads right, right.nullMask, right.state, right.state.selVector, right.state.selVector.buffer
    requires left.Valid() && right.Valid()
  {
    match (left.Flat(), right.Flat())
    case (Some(l), Some(r)) => true
    case (Some(l), None) => IsNull(left.nullMask.data, l) || right.nullMask.mayContainNulls
    case (None, Some(r)) => IsNull(right.nullMask.data, r) || left.nullMask.mayContainNulls
    case (None, None) => left.nullMask.mayContainNulls || right.nullMask.mayContainNulls
  }

  /** The rows an operation is evaluated on: the selected positions of the unflat operand, or the current position of
      the left one. */
  ghost function Rows(left: ValueVector, right: ValueVector): seq<nat>
    reads left, left.nullMask, left.state, left.state.selVector, left.state.selVector.buffer
    reads right, right.nullMask, right.state, right.state.selVector, right.state.selVector.buffer
    requires left.Valid() && right.Valid()
  {
    if !left.state.IsFlat() then left.state.selVector.Positions()
    else if !right.state.IsFlat() then right.state.selVector.Positions()
    else [left.state.CurrentPosition()]
  }

  /** executeSwitch: in every path each row gets the pointwise result, except that a path that trusts the operands to
      have no nulls leaves a null that was in the result mask. */
  method Execute(left: ValueVector, right: ValueVector, result: ValueVector, op: Operation)
    requires Operands(left, right, result)
    modifies result, result.nullMask
    ensures result.state == if left.state.IsFlat() && !right.state.IsFlat() then right.state else left.state
    ensures |result.values| == CAPACITY && result.nullMask.Valid()
    ensures forall pos :: pos in Rows(left, right) ==>
              result.CellAt(pos) == if !WritesNulls(left, right) && old(IsNull(result.nullMask.data, pos)) then None
                                    else Expected(op, left, right, left.Flat(), right.Flat(), pos)
  {
    if left.state.IsFlat() && right.state.IsFlat() {
      ExecuteBothFlat(left, right, result, op);
    } else if left.state.IsFlat() && !right.state.IsFlat() {
      ExecuteFlatUnFlat(left, right, result, op);
    } else if !left.state.IsFlat() && right.state.IsFlat() {
      ExecuteUnFlatFlat(left, right, result, op);
    } else {
      ExecuteBothUnFlat(left, right, result, op);
    }
  }

  method ExecuteBothFlat(left: ValueVector, right: ValueVector, result: ValueVector, op: Operation)
    requires Operands(left, right, result) && left.state.IsFlat() && right.state.IsFlat()
    modifies result, result.nullMask
    ensures result.state == left.state && |result.values| == CAPACITY && result.nullMask.Valid()
    ensures var pos := left.state.CurrentPosition();
            result.CellAt(pos) == Expected(op, left, right, left.Flat(), right.Flat(), pos)
  {
    result.state := left.state;
    var lPos, rPos := left.state.CurrentPosition(), right.state.CurrentPosition();
    var resPos := result.state.CurrentPosition();
    result.nullMask.SetNull(resPos, IsNull(left.nullMask.data, lPos) || IsNull(right.nullMask.data, rPos));
    if !IsNull(result.nullMask.data, resPos) {
      result.values := result.values[resPos := op(left.values[lPos], right.values[rPos])];
    }
  }

  method ExecuteFlatUnFlat(left: ValueVector, right: ValueVector, result: ValueVector, op: Operation)
    requires Operands(left, right, result) && left.state.IsFlat() && !right.state.IsFlat()
    modifies result, result.nullMask
    ensures result.state == right.state && |result.values| == CAPACITY && result.nullMask.Valid()
    ensures forall pos :: pos in right.state.selVector.Positions() ==>
              result.CellAt(pos) == if !WritesNulls(left, right) && old(IsNull(result.nullMask.data, pos)) then None
                                    else Expected(op, left, right, left.Flat(), None, pos)
  {
    result.state := right.state;
    var lPos := left.state.CurrentPosition();
    if IsNull(left.nullMask.data, lPos) {
      result.nullMask.SetAllNull();
    } else {
      ExecuteLoop(left, right, result, op, Some(lPos), None, right.state.selVector, right.nullMask.mayContainNulls);
    }
  }

  method ExecuteUnFlatFlat(left: ValueVector, right: ValueVector, result: ValueVector, op: Operation)
    requires Operands(left, right, result) && !left.state.IsFlat() && right.state.IsFlat()
    modifies result, result.nullMask
    ensures result.state == left.state && |result.values| == CAPACITY && result.nullMask.Valid()
    ensures forall pos :: pos in left.state.selVector.Positions() ==>
              result.CellAt(pos) == if !WritesNulls(left, right) && old(IsNull(result.nullMask.data, pos)) then None
                                    else Expected(op, left, right, None, right.Flat(), pos)
  {
    result.state := left.state;
    var rPos := right.state.CurrentPosition();
    if IsNull(right.nullMask.data, rPos) {
      result.nullMask.SetAllNull();
    } else {
      ExecuteLoop(left, right, result, op, None, Some(rPos), left.state.selVector, left.nullMask.mayContainNulls);
    }
  }

  method ExecuteBothUnFlat(left: ValueVector, right: ValueVector, result: ValueVector, op: Operation)
    requires Operands(left, right, result) && !left.state.IsFlat() && !right.state.IsFlat()
    modifies result, result.nullMask
    ensures result.state == left.state && |result.values| == CAPACITY && result.nullMask.Valid()
    ensures forall pos :: pos in left.state.selVector.Positions() ==>
              result.CellAt(pos) == if !WritesNulls(left, right) && old(IsNull(result.nullMask.data, pos)) then None
                                    else Expected(op, left, right, None, None, pos)
  {
    result.state := left.state;
    ExecuteLoop(left, right, result, op, None, None, result.state.selVector,
                left.nullMask.mayContainNulls || right.nullMask.mayContainNulls);
  }

  // ---------------------------------------------------------------------------------------------
  // select
  // ---------------------------------------------------------------------------------------------

  /** Which positions the operation holds on: those where executing it gives a non-null true. */
  ghost function Holds(op: Operation, left: ValueVector, right: ValueVector, l: Option<nat>, r: Option<nat>)
    : (keep: seq<bool>)
    reads left, left.nullMask, right, right.nullMask
    ensures |keep| == CAPACITY
    ensures forall pos :: 0 <= pos < CAPACITY ==> keep[pos] == (Expected(op, left, right, l, r, pos) == Some(TRUE))
  {
    var lv, ln, rv, rn := left.values, left.nullMask.data, right.values, right.nullMask.data;
    seq(CAPACITY,
        pos requires pos >= 0 => Combine(op, Cell(lv, ln, PosOf(l, pos)), Cell(rv, rn, PosOf(r, pos))) == Some(TRUE))
  }

  /** selectOnValue: writes the position, and moves on only if the value is true. */
  method SelectOnValue(resultValue: int, resPos: nat, n: nat, buffer: array<nat>) returns (next: nat)
    requires n < buffer.Length
    modifies buffer
    ensures next == n + if resultValue == TRUE then 1 else 0
    ensures buffer[..next] == old(buffer[..n]) + if resultValue == TRUE then [resPos] else []
    ensures forall j :: 0 <= j < buffer.Length && j != n ==> buffer[j] == old(buffer[j])
  {
    buffer[n] := resPos;
    next := n + if resultValue == TRUE then 1 else 0;
  }

  /** Neither operand is null and the operation is true. */
  predicate Tested(lv: seq<int>, ln: seq<bv64>, rv: seq<int>, rn: seq<bv64>, op: Operation, lPos: nat, rPos: nat)
    requires lPos < |lv| && rPos < |rv|
  {
    !IsNull(ln, lPos) && !IsNull(rn, rPos) && op(lv[lPos], rv[rPos]) == TRUE
  }

  /** `keep` is right about the row, and if nulls are not looked at, a selected row has none. */
  ghost predicate RowFine(lv: seq<int>, ln: seq<bv64>, rv: seq<int>, rn: seq<bv64>, op: Operation, l: Option<nat>,
                          r: Option<nat>, checkNulls: bool, rows: seq<nat>, keep: seq<bool>, pos: nat)
    requires PosOf(l, pos) < |lv| && PosOf(r, pos) < |rv| && pos < |keep|
  {
    && keep[pos] == Tested(lv, ln, rv, rn, op, PosOf(l, pos), PosOf(r, pos))
    && (!checkNulls && pos in rows ==> !IsNull(ln, PosOf(l, pos)) && !IsNull(rn, PosOf(r, pos)))
  }

  /** One row: nulls are passed over, other values tested. */
  method SelectRow(lv: seq<int>, ln: seq<bv64>, rv: seq<int>, rn: seq<bv64>, op: Operation, lPos: nat, rPos: nat,
                   pos: nat, checkNulls: bool, n: nat, buffer: array<nat>, ghost keep: bool) returns (next: nat)
    requires lPos < |lv| && rPos < |rv| && n < buffer.Length && keep == Tested(lv, ln, rv, rn, op, lPos, rPos)
    requires !checkNulls ==> !IsNull(ln, lPos) && !IsNull(rn, rPos)
    modifies buffer
    ensures next == n + (if keep then 1 else 0) && buffer[..next] == old(buffer[..n]) + if keep then [pos] else []
    ensures forall j :: 0 <= j < buffer.Length && j != n ==> buffer[j] == old(buffer[j])
  {
    next := n;
    if !checkNulls || !(IsNull(ln, lPos) || IsNull(rn, rPos)) {
      next := SelectOnValue(op(lv[lPos], rv[rPos]), pos, n, buffer);
    }
  }

  /** The loops of select*: compaction into the buffer of `out`, which may be the very array the positions are read
      from. The write index never passes the read index. */
  method SelectLoop(lv: seq<int>, ln: seq<bv64>, rv: seq<int>, rn: seq<bv64>, op: Operation, l: Option<nat>,
                    r: Option<nat>, sel: SelectionVector, out: SelectionVector, checkNulls: bool,
                    ghost keep: seq<bool>)
    returns (n: nat)
    requires |lv| == |rv| == CAPACITY && |keep| == CAPACITY
    requires sel.Valid() && out.buffer.Length == CAPACITY && (sel == out || sel.buffer != out.buffer)
    requires (l.Some? ==> l.value < CAPACITY) && (r.Some? ==> r.value < CAPACITY)
    requires forall pos {:trigger RowFine(lv, ln, rv, rn, op, l, r, checkNulls, sel.Positions(), keep, pos)} ::
               0 <= pos < CAPACITY ==> RowFine(lv, ln, rv, rn, op, l, r, checkNulls, sel.Positions(), keep, pos)
    modifies out.buffer
    ensures n <= CAPACITY
    ensures out.buffer[..n] == Kept(old(sel.Positions()), keep)
  {
    ghost var positions := sel.Positions();
    var size, unfiltered := sel.selectedSize, sel.unfiltered;
    n := 0;
    for i := 0 to size
      invariant n <= i
      invariant out.buffer[..n] == Kept(positions[..i], keep)
      invariant !unfiltered ==> forall j :: i <= j < size ==> sel.buffer[j] == positions[j]
    {
      var pos := if unfiltered then i else sel.buffer[i];
      assert pos == positions[i] && pos in positions;
      assert RowFine(lv, ln, rv, rn, op, l, r, checkNulls, positions, keep, pos);
      KeptNext(positions, keep, i);
      n := SelectRow(lv, ln, rv, rn, op, PosOf(l, pos), PosOf(r, pos), pos, checkNulls, n, out.buffer, keep[pos]);
    }
    assert positions[..size] == positions;
  }

  /** select: keeps exactly the rows on which executing the operation gives a non-null true, in order, also when `out`
      is the selection the rows come from. With a null flat operand it returns false and leaves `out` as it was. */
  method Select(left: ValueVector, right: ValueVector, op: Operation, out: SelectionVector) returns (any: bool)
    requires left.Valid() && right.Valid() && left.nullMask.Sound() && right.nullMask.Sound()
    requires out.buffer.Length == CAPACITY
    requires left.state.selVector == out || left.state.selVector.buffer != out.buffer
    requires right.state.selVector == out || right.state.selVector.buffer != out.buffer
    requires left.state.IsFlat() ==> left.state.selVector != out
    requires right.state.IsFlat() ==> right.state.selVector != out
    requires !left.state.IsFlat() && !right.state.IsFlat() ==> left.state == right.state
    modifies out, out.buffer
    ensures any <==>
            exists pos :: pos in old(Rows(left, right)) && old(Holds(op, left, right, left.Flat(), right.Flat()))[pos]
    ensures !(old(left.state.IsFlat()) && old(right.state.IsFlat())) && !old(NullFlat(left))
            && !old(NullFlat(right)) ==>
              && out.selectedSize <= CAPACITY
              && out.buffer[..out.selectedSize] ==
                 Kept(old(Rows(left, right)), old(Holds(op, left, right, left.Flat(), right.Flat())))
    ensures old(left.state.IsFlat() && right.state.IsFlat()) || old(NullFlat(left)) || old(NullFlat(right)) ==>
              out.selectedSize == old(out.selectedSize) && out.buffer[..] == old(out.buffer[..])
    ensures out.unfiltered == old(out.unfiltered)
  {
    ghost var rows := Rows(left, right);
    ghost var keep := Holds(op, left, right, left.Flat(), right.Flat());
    if left.state.IsFlat() && right.state.IsFlat() {
      var lPos, rPos := left.state.CurrentPosition(), right.state.CurrentPosition();
      var resultValue := 0;
      if !IsNull(left.nullMask.data, lPos) && !IsNull(right.nullMask.data, rPos) {
        resultValue := op(left.values[lPos], right.values[rPos]);
      }
      assert rows == [lPos] && keep[lPos] == (resultValue == TRUE);
      return resultValue == TRUE;
    }
    var n;
    if left.state.IsFlat() {
      var lPos := left.state.CurrentPosition();
      if IsNull(left.nullMask.data, lPos) {
        return false;
      }
      n := SelectLoop(left.values, left.nullMask.data, right.values, right.nullMask.data, op, Some(lPos), None,
                      right.state.selVector, out, right.nullMask.mayContainNulls, keep);
    } else if right.state.IsFlat() {
      var rPos := right.state.CurrentPosition();
      if IsNull(right.nullMask.data, rPos) {
        return false;
      }
      n := SelectLoop(left.values, left.nullMask.data, right.values, right.nullMask.data, op, None, Some(rPos),
                      left.state.selVector, out, left.nullMask.mayContainNulls, keep);
    } else {
      n := SelectLoop(left.values, left.nullMask.data, right.values, right.nullMask.data, op, None, None,
                      left.state.selVector, out,
                      left.nullMask.mayContainNulls || right.nullMask.mayContainNulls, keep);
    }
    KeptSome(rows, keep);
    out.selectedSize := n;
    return n > 0;
  }

  /** A null flat operand makes every row null. */
  ghost predicate NullFlat(v: ValueVector)
    reads v, v.nullMask, v.state, v.state.selVector, v.state.selVector.buffer
    requires v.Valid()
  {
    v.state.IsFlat() && IsNull(v.nullMask.data, v.state.CurrentPosition())
  }

  lemma {:induction false} KeptSome(positions: seq<nat>, keep: seq<bool>)
    requires |keep| == CAPACITY
    ensures Kept(positions, keep) != [] <==> exists pos :: pos in positions && pos < |keep| && keep[pos]
  {
    if positions != [] {
      var init, last := positions[..|positions| - 1], positions[|positions| - 1];
      KeptSome(init, keep);
      assert positions == init + [last];
    }
  }

  // ---------------------------------------------------------------------------------------------
  // In-place filters over one vector
  // ---------------------------------------------------------------------------------------------

  /** Compaction in place: each position read is written at the write index, which moves on only if it is kept. */
  method Compact(sel: SelectionVector, keep: seq<bool>) returns (n: nat)
    requires sel.Valid() && |keep| == CAPACITY
    modifies sel.buffer
    ensures n <= sel.selectedSize
    ensures sel.buffer[..n] == Kept(old(sel.Positions()), keep)
  {
    ghost var positions := sel.Positions();
    var size, unfiltered := sel.selectedSize, sel.unfiltered;
    n := 0;
    for i := 0 to size
      invariant n <= i
      invariant sel.buffer[..n] == Kept(positions[..i], keep)
      invariant !unfiltered ==> forall j :: i <= j < size ==> sel.buffer[j] == positions[j]
    {
      var pos := if unfiltered then i else sel.buffer[i];
      KeptNext(positions, keep, i);
      n := SelectOnValue(if keep[pos] then TRUE else 0, pos, n, sel.buffer);
    }
    assert positions[..size] == positions;
  }

  function NonNull(nulls: seq<bv64>): (keep: seq<bool>)
    ensures |keep| == CAPACITY && forall pos :: 0 <= pos < CAPACITY ==> keep[pos] == !IsNull(nulls, pos)
  {
    seq(CAPACITY, pos requires pos >= 0 => !IsNull(nulls, pos))
  }

  function TrueCells(values: seq<int>, nulls: seq<bv64>): (keep: seq<bool>)
    ensures |keep| == CAPACITY && forall pos :: 0 <= pos < CAPACITY ==>
            keep[pos] == (Cell(values, nulls, pos) == Some(TRUE))
  {
    seq(CAPACITY, pos requires pos >= 0 => Cell(values, nulls, pos) == Some(TRUE))
  }

  lemma {:induction false} KeptAll(positions: seq<nat>, keep: seq<bool>)
    requires forall p :: p in positions ==> p < |keep| && keep[p]
    ensures Kept(positions, keep) == positions
  {
    if positions != [] {
      var init, last := positions[..|positions| - 1], positions[|positions| - 1];
      assert positions == init + [last];
      assert forall p :: p in init ==> p in positions;
      assert last in positions;
      KeptAll(init, keep);
    }
  }

  lemma {:induction false} KeptInRange(positions: seq<nat>, keep: seq<bool>)
    requires |keep| == CAPACITY
    ensures forall i :: 0 <= i < |Kept(positions, keep)| ==> Kept(positions, keep)[i] < CAPACITY
  {
    if positions != [] {
      KeptInRange(positions[..|positions| - 1], keep);
    }
  }

  /** discardNull: an unflat vector's selection becomes its non-null positions, in order. Without possible nulls the
      answer is true even for an empty selection. */
  method DiscardNull(vector: ValueVector) returns (any: bool)
    requires vector.Valid() && vector.nullMask.Sound()
    modifies vector.state.selVector, vector.state.selVector.buffer
    ensures vector.state.selVector.Valid()
    ensures vector.state.IsFlat() ==>
              && any == !old(NullFlat(vector))
              && vector.state.selVector.Positions() == old(vector.state.selVector.Positions())
    ensures !vector.state.IsFlat() ==>
              vector.state.selVector.Positions()
                == Kept(old(vector.state.selVector.Positions()), NonNull(vector.nullMask.data))
    ensures !vector.state.IsFlat() ==>
              any == (!vector.nullMask.mayContainNulls || vector.state.selVector.selectedSize > 0)
  {
    var sel := vector.state.selVector;
    ghost var positions := sel.Positions();
    if vector.state.IsFlat() {
      return !IsNull(vector.nullMask.data, vector.state.CurrentPosition());
    }
    if !vector.nullMask.mayContainNulls {
      KeptAll(positions, NonNull(vector.nullMask.data));
      return true;
    }
    var n := Compact(sel, NonNull(vector.nullMask.data));
    KeptInRange(positions, NonNull(vector.nullMask.data));
    assert forall i :: 0 <= i < n ==> sel.buffer[i] == sel.buffer[..n][i];
    sel.unfiltered := false;
    sel.selectedSize := n;
    return n > 0;
  }

  /** ReferenceExpressionEvaluator::select on a boolean vector: the true positions, in order, in the vector's own
      buffer. */
  method SelectTrue(vector: ValueVector, selVector: SelectionVector) returns (any: bool)
    requires vector.Valid()
    modifies selVector, vector.state.selVector.buffer
    ensures any <==>
            exists pos :: pos in old(SelfRows(vector)) && old(TrueCells(vector.values, vector.nullMask.data))[pos]
    ensures !old(vector.state.IsFlat()) ==>
              && selVector.selectedSize <= CAPACITY
              && vector.state.selVector.buffer[..selVector.selectedSize] ==
                 Kept(old(SelfRows(vector)), old(TrueCells(vector.values, vector.nullMask.data)))
  {
    var keep := TrueCells(vector.values, vector.nullMask.data);
    ghost var rows := SelfRows(vector);
    if vector.state.IsFlat() {
      return keep[vector.state.CurrentPosition()];
    }
    var n := Compact(vector.state.selVector, keep);
    KeptSome(rows, keep);
    selVector.selectedSize := n;
    return n > 0;
  }

  ghost function SelfRows(vector: ValueVector): seq<nat>
    reads vector, vector.nullMask, vector.state, vector.state.selVector, vector.state.selVector.buffer
    requires vector.Valid()
  {
    if vector.state.IsFlat() then [vector.state.CurrentPosition()] else vector.state.selVector.Positions()
  }

  // ---------------------------------------------------------------------------------------------
  // The two exceptions at an input
  // ---------------------------------------------------------------------------------------------

  /** A flat operand with the value x, at position `at`. */
  method FlatVector(x: int, at: nat) returns (v: ValueVector)
    requires at < CAPACITY
    ensures v.Valid() && v.state.IsFlat() && v.state.CurrentPosition() == at && v.values[at] == x
    ensures v.nullMask.Sound() && !v.nullMask.mayContainNulls
    ensures fresh(v) && fresh(v.nullMask) && fresh(v.state) && fresh(v.state.selVector)
            && fresh(v.state.selVector.buffer)
  {
    var sel := new SelectionVector();
    var state := new DataChunkState(sel);
    state.currIdx := at;
    var mask := new NullMask();
    v := new ValueVector(seq(CAPACITY, _ => x), mask, state);
  }

  /** An unflat operand with the value x in its n selected rows. */
  method UnflatVector(x: int, n: nat) returns (v: ValueVector)
    requires n <= CAPACITY
    ensures v.Valid() && !v.state.IsFlat() && v.state.selVector.selectedSize == n && v.state.selVector.unfiltered
    ensures forall i :: 0 <= i < CAPACITY ==> v.values[i] == x
    ensures v.nullMask.Sound() && !v.nullMask.mayContainNulls
    ensures fresh(v) && fresh(v.nullMask) && fresh(v.state) && fresh(v.state.selVector)
            && fresh(v.state.selVector.buffer)
  {
    var sel := new SelectionVector();
    sel.selectedSize := n;
    var state := new DataChunkState(sel);
    var mask := new NullMask();
    v := new ValueVector(seq(CAPACITY, _ => x), mask, state);
  }

  /** One batch with the flat operand null or not: a null left in the result stays. */
  method Batch(left: ValueVector, right: ValueVector, result: ValueVector, op: Operation, pos: nat, isNull: bool)
    returns (cell: Option<int>)
    requires Operands(left, right, result) && left.nullMask != right.nullMask && !right.nullMask.mayContainNulls
    requires left.state.IsFlat() && left.state.CurrentPosition() == pos && !right.state.IsFlat()
    requires right.state.selVector.unfiltered && pos < right.state.selVector.selectedSize
    modifies left.nullMask, result, result.nullMask
    ensures left.nullMask.Valid() && left.nullMask.Sound() && |result.values| == CAPACITY && result.nullMask.Valid()
    ensures cell == if isNull || old(IsNull(result.nullMask.data, pos)) then None
                    else Some(op(left.values[pos], right.values[pos]))
    ensures IsNull(left.nullMask.data, pos) == isNull && (isNull ==> IsNull(result.nullMask.data, pos))
  {
    left.nullMask.SetNull(pos, isNull);
    SelectedRow(left, right, pos);
    assert !IsNull(right.nullMask.data, pos);
    Execute(left, right, result, op);
    cell := Cell(result.values, result.nullMask.data, pos);
    assert cell == result.CellAt(pos);
  }

  /** Two batches into one result vector. The first has a null flat operand, the second no null at all; yet the second
      answer is still null. */
  method StaleNull(op: Operation, x: int, y: int, pos: nat)
    returns (first: Option<int>, second: Option<int>, due: Option<int>)
    requires pos < CAPACITY
    ensures first == None && second == None && due == Some(op(x, y))
  {
    var left := FlatVector(x, pos);
    var right := UnflatVector(y, pos + 1);
    var result := UnflatVector(0, pos + 1);
    first := Batch(left, right, result, op, pos, true);
    second := Batch(left, right, result, op, pos, false);
    assert !IsNull(right.nullMask.data, pos);
    due := Combine(op, Cell(left.values, left.nullMask.data, pos), Cell(right.values, right.nullMask.data, pos));
  }

  lemma SelectedRow(left: ValueVector, right: ValueVector, pos: nat)
    requires left.Valid() && right.Valid() && left.state.IsFlat() && !right.state.IsFlat()
    requires right.state.selVector.unfiltered && pos < right.state.selVector.selectedSize
    ensures pos in Rows(left, right)
  {
    assert right.state.selVector.Positions()[pos] == pos;
  }

  /** A null flat operand: the answer is that no row qualifies, and all n rows stay selected. */
  method NullKeepsSelection(op: Operation, x: int, y: int, pos: nat, n: nat) returns (any: bool, selected: nat)
    requires pos < CAPACITY && n <= CAPACITY
    ensures !any && selected == n
  {
    var left := FlatVector(x, pos);
    var right := UnflatVector(y, n);
    left.nullMask.SetNull(pos, true);
    var out := right.state.selVector;
    ghost var keep := Holds(op, left, right, left.Flat(), right.Flat());
    assert forall i :: 0 <= i < CAPACITY ==> !keep[i];
    any := Select(left, right, op, out);
    selected := out.selectedSize;
  }
}
