/** Null bitmaps (src/common/include/null_mask.h, src/common/null_mask.cpp). */
module NullMasks {

  const CAPACITY := 2048   // DEFAULT_VECTOR_CAPACITY
  const NUM_ENTRIES := 32   // 64 bits each

  /** NULL_BITMASKS_WITH_SINGLE_ONE; NULL_BITMASKS_WITH_SINGLE_ZERO holds the complements. */
  function One(b: nat): bv64 {
    if b == 0 then 1 else One(b - 1) << 1
  }

  // ---------------------------------------------------------------------------------------------
  // The 64 masks are different single bits
  // ---------------------------------------------------------------------------------------------

  lemma ShiftedOdd(x: bv64)
    ensures 1 & (x << 1) == 0
  {
  }

  lemma ShiftedAnd(x: bv64, y: bv64)
    requires x & y == 0
    ensures (x << 1) & (y << 1) == 0
  {
  }

  lemma {:induction false} Disjoint(b: nat, c: nat)
    requires b < c
    ensures One(b) & One(c) == 0
  {
    if b == 0 {
      ShiftedOdd(One(c - 1));
    } else {
      Disjoint(b - 1, c - 1);
      ShiftedAnd(One(b - 1), One(c - 1));
    }
  }

  lemma OneStep(b: nat)
    ensures One(b + 1) == One(b) << 1
  {
  }

  lemma ShiftFour(x: bv64)
    ensures (((x << 1) << 1) << 1) << 1 == x << 4
  {
  }

  lemma FourSteps(b: nat)
    ensures One(b + 4) == One(b) << 4
  {
    OneStep(b);
    OneStep(b + 1);
    OneStep(b + 2);
    OneStep(b + 3);
    ShiftFour(One(b));
  }

  lemma EightSteps(b: nat)
    ensures One(b + 8) == One(b) << 8
  {
    FourSteps(b);
    FourSteps(b + 4);
  }

  lemma LastMask()
    ensures One(63) == 0x8000_0000_0000_0000
  {
    EightSteps(0);
    EightSteps(8);
    EightSteps(16);
    EightSteps(24);
    EightSteps(32);
    EightSteps(40);
    EightSteps(48);
    FourSteps(56);
    OneStep(60);
    OneStep(61);
    OneStep(62);
  }

  lemma ShiftedNonZero(x: bv64)
    requires x != 0 && x & 0x8000_0000_0000_0000 == 0
    ensures x << 1 != 0
  {
  }

  lemma {:induction false} NonZero(b: nat)
    requires b < 64
    ensures One(b) != 0
  {
    if b > 0 {
      NonZero(b - 1);
      Disjoint(b - 1, 63);
      LastMask();
      ShiftedNonZero(One(b - 1));
    }
  }

  predicate HasBit(x: bv64, m: bv64) {
    x & m != 0
  }

  function WithBit(x: bv64, m: bv64, isNull: bool): bv64 {
    if isNull then x | m else x & !m
  }

  lemma SameBit(x: bv64, m: bv64, isNull: bool)
    requires m != 0
    ensures HasBit(WithBit(x, m, isNull), m) == isNull
  {
  }

  lemma OtherBit(x: bv64, m: bv64, o: bv64, isNull: bool)
    requires m & o == 0
    ensures HasBit(WithBit(x, m, isNull), o) == HasBit(x, o)
  {
  }

  // ---------------------------------------------------------------------------------------------
  // The mask
  // ---------------------------------------------------------------------------------------------

  predicate IsNull(entries: seq<bv64>, pos: nat) {
    pos / 64 < |entries| && HasBit(entries[pos / 64], One(pos % 64))
  }

  function WithNull(entries: seq<bv64>, pos: nat, isNull: bool): seq<bv64>
    requires pos / 64 < |entries|
  {
    var e, m := pos / 64, One(pos % 64);
    entries[e := WithBit(entries[e], m, isNull)]
  }

  lemma DisjointMasks(b: nat, c: nat)
    requires b != c
    ensures One(b) & One(c) == 0
  {
    if b < c {
      Disjoint(b, c);
    } else {
      Disjoint(c, b);
      AndCommutes(One(b), One(c));
    }
  }

  lemma BitAt(x: bv64, b: nat, c: nat, isNull: bool)
    requires b < 64 && c < 64
    ensures HasBit(WithBit(x, One(b), isNull), One(c)) == if b == c then isNull else HasBit(x, One(c))
  {
    if b == c {
      NonZero(b);
      SameBit(x, One(b), isNull);
    } else {
      DisjointMasks(b, c);
      OtherBit(x, One(b), One(c), isNull);
    }
  }

  /** Setting one bit sets that bit and no other. */
  lemma WithNullAt(entries: seq<bv64>, pos: nat, isNull: bool, q: nat)
    requires pos / 64 < |entries|
    ensures IsNull(WithNull(entries, pos, isNull), q) == if q == pos then isNull else IsNull(entries, q)
  {
    if q / 64 == pos / 64 {
      BitAt(entries[pos / 64], pos % 64, q % 64, isNull);
    }
  }

  lemma AndCommutes(x: bv64, y: bv64)
    ensures x & y == y & x
  {
  }

  lemma FullEntry(b: nat)
    requires b < 64
    ensures HasBit(0xFFFF_FFFF_FFFF_FFFF, One(b)) && !HasBit(0, One(b))
  {
    NonZero(b);
    AllOnes(One(b));
  }

  lemma AllOnes(x: bv64)
    ensures 0xFFFF_FFFF_FFFF_FFFF & x == x && 0 & x == 0
  {
  }

  class NullMask {
    var data: seq<bv64>
    var mayContainNulls: bool

    ghost predicate Valid()
      reads this
    {
      |data| == NUM_ENTRIES
    }

    /** A mask that guarantees there are no nulls has none. */
    ghost predicate Sound()
      reads this
    {
      !mayContainNulls ==> forall pos :: 0 <= pos < CAPACITY ==> !IsNull(data, pos)
    }

    constructor ()
      ensures Valid() && Sound() && !mayContainNulls
    {
      data := seq(NUM_ENTRIES, _ => 0);
      mayContainNulls := false;
      new;
      forall pos | 0 <= pos < CAPACITY ensures !IsNull(data, pos) {
        FullEntry(pos % 64);
      }
    }

    method SetAllNonNull()
      requires Valid()
      modifies this
      ensures Valid() && Sound() && !mayContainNulls
      ensures forall pos :: 0 <= pos < CAPACITY ==> !IsNull(data, pos)
    {
      data := seq(NUM_ENTRIES, _ => 0);
      mayContainNulls := false;
      forall pos | 0 <= pos < CAPACITY ensures !IsNull(data, pos) {
        FullEntry(pos % 64);
      }
    }

    method SetAllNull()
      requires Valid()
      modifies this
      ensures Valid() && Sound() && mayContainNulls
      ensures forall pos :: 0 <= pos < CAPACITY ==> IsNull(data, pos)
    {
      data := seq(NUM_ENTRIES, _ => 0xFFFF_FFFF_FFFF_FFFF);
      mayContainNulls := true;
      forall pos | 0 <= pos < CAPACITY ensures IsNull(data, pos) {
        FullEntry(pos % 64);
      }
    }

    method SetNull(pos: nat, isNull: bool)
      requires Valid() && pos < CAPACITY
      modifies this
      ensures Valid() && (old(Sound()) ==> Sound())
      ensures mayContainNulls == (old(mayContainNulls) || isNull)
      ensures forall q :: 0 <= q < CAPACITY ==>
                            IsNull(data, q) == if q == pos then isNull else IsNull(old(data), q)
    {
      ghost var was := data;
      data := WithNull(data, pos, isNull);
      if isNull {
        mayContainNulls := true;
      }
      forall q | 0 <= q < CAPACITY ensures IsNull(data, q) == if q == pos then isNull else IsNull(was, q) {
        WithNullAt(was, pos, isNull, q);
      }
    }
  }
}
