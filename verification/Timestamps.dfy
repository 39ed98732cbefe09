/** Timestamps: microseconds since 1970-01-01 00:00 (src/common/types/timestamp_t.cpp). */
module Timestamps {
  import opened Wrappers
  import opened Calendar

  const MICROS_PER_HOUR := 3_600_000_000
  const MICROS_PER_MINUTE := 60_000_000
  const MICROS_PER_SECOND := 1_000_000

  /** Two's complement wrap-around of 64-bit arithmetic. */
  function Wrap64(x: int): int64 {
    (x + 0x8000_0000_0000_0000) % 0x1_0000_0000_0000_0000 - 0x8000_0000_0000_0000
  }

  function Sign(v: int): int {
    if v < 0 then 1 else 0
  }

  function GetDate(v: int64): int {
    TruncDiv(v + Sign(v), MICROS_PER_DAY) - Sign(v)
  }

  function GetTime(v: int64): int {
    Wrap64(v - Wrap64(GetDate(v) * MICROS_PER_DAY))
  }

  /** Truncating division is made to round down: the date is the day the timestamp lies in. */
  lemma GetDateIsFloor(v: int64)
    ensures GetDate(v) == v / MICROS_PER_DAY
    ensures GetDate(v) * MICROS_PER_DAY <= v < (GetDate(v) + 1) * MICROS_PER_DAY
  {
  }

  /** The time is what is left of the day, also where the product overflows. */
  lemma GetTimeIsRemainder(v: int64)
    ensures GetTime(v) == v % MICROS_PER_DAY
    ensures 0 <= GetTime(v) < MICROS_PER_DAY
  {
    GetDateIsFloor(v);
    var x := GetDate(v) * MICROS_PER_DAY;
    assert v - x == v % MICROS_PER_DAY;
    WrapDifference(v, x);
  }

  lemma WrapDifference(a: int, b: int)
    requires 0 <= a - b < 0x8000_0000_0000_0000
    ensures Wrap64(a - Wrap64(b)) == a - b
  {
  }

  // ---------------------------------------------------------------------------------------------
  // From a date and a time
  // ---------------------------------------------------------------------------------------------

  /** Time::Convert and Time::IsValid together accept exactly the times of one day. */
  method IsTimeOfDay(time: int64) returns (ok: bool)
    ensures ok == (0 <= time < MICROS_PER_DAY)
  {
    var t: int := time;
    var hour := Wrap32(TruncDiv(t, MICROS_PER_HOUR));
    if hour > 23 || hour < 0 {
      return false;
    }
    t := t - hour * MICROS_PER_HOUR;
    var minute := TruncDiv(t, MICROS_PER_MINUTE);
    t := t - minute * MICROS_PER_MINUTE;
    var second := TruncDiv(t, MICROS_PER_SECOND);
    var micros := t - second * MICROS_PER_SECOND;
    return 0 <= minute <= 59 && 0 <= second <= 59 && 0 <= micros <= 999_999;
  }

  /** What FromDatetime gives: the wrapped 64-bit value, for a date and time in range. */
  function Datetime(days: int, time: int): Option<int64> {
    if MIN_DAY <= days <= MAX_DAY && 0 <= time < MICROS_PER_DAY
    then Some(Wrap64(days * MICROS_PER_DAY + time)) else None
  }

  method FromDatetime(days: int32, time: int64) returns (r: Option<int64>)
    ensures r == Datetime(days, time)
  {
    var c := Convert(days);
    var dateOk := CheckValid(c);
    ValidRange(c);
    var timeOk := IsTimeOfDay(time);
    if !dateOk || !timeOk {
      return None;
    }
    return Some(Wrap64(days * MICROS_PER_DAY + time));
  }

  /** The valid dates reach past the last 64-bit microsecond: from 294247-01-10 04:00:54.775808 on the value wraps. */
  lemma DatetimeExact(days: int, time: int)
    requires MIN_DAY <= days <= MAX_DAY && 0 <= time < MICROS_PER_DAY
    ensures Datetime(days, time) == Some(days * MICROS_PER_DAY + time)
            <==> days * MICROS_PER_DAY + time < 0x8000_0000_0000_0000
  {
  }

  lemma LastDayWraps()
    ensures Datetime(MAX_DAY, 0).Some? && Datetime(MAX_DAY, 0).value < 0
  {
  }

  // ---------------------------------------------------------------------------------------------
  // Adding and subtracting
  // ---------------------------------------------------------------------------------------------

  /** What base day `base`, time `time` and an interval's days and microseconds add up to, exactly. */
  function Total(base: int, time: int, iv: Interval): int {
    base * MICROS_PER_DAY + time + iv.days * MICROS_PER_DAY + iv.micros
  }

  function TimestampOf(exact: int): Option<int64> {
    if MIN_DAY <= exact / MICROS_PER_DAY <= MAX_DAY then Some(Wrap64(exact)) else None
  }

  /** A day count that leaves 32 bits by a sum of in-range days and an interval wraps to a day out of range. */
  lemma WrapStaysOut(d: int)
    requires -2_600_000_000 <= d <= 2_600_000_000
    ensures MIN_DAY <= Wrap32(d) <= MAX_DAY <==> MIN_DAY <= d <= MAX_DAY
    ensures MIN_DAY <= d <= MAX_DAY ==> Wrap32(d) == d
  {
  }

  lemma WrapStep(d: int, k: int)
    ensures Wrap32(Wrap32(d) + k) == Wrap32(d + k)
  {
  }

  lemma DayAndTime(d: int, t: int)
    requires 0 <= t < MICROS_PER_DAY
    ensures (d * MICROS_PER_DAY + t) / MICROS_PER_DAY == d
  {
  }

  lemma TruncRemainder(micros: int64)
    ensures -MICROS_PER_DAY < micros - TruncDiv(micros, MICROS_PER_DAY) * MICROS_PER_DAY < MICROS_PER_DAY
    ensures -106_751_992 <= TruncDiv(micros, MICROS_PER_DAY) <= 106_751_992
  {
  }

  /** The day arithmetic of operator+ after the months: truncated days, a remainder of either sign, one carry. */
  method Carry(days: int32, time: int, iv: Interval, ghost base: int) returns (r: Option<int64>)
    requires 0 <= time < MICROS_PER_DAY && -106_800_000 <= base <= 106_800_000
    requires days == Wrap32(base + iv.days + TruncDiv(iv.micros, MICROS_PER_DAY))
    ensures r == TimestampOf(Total(base, time, iv))
  {
    TruncRemainder(iv.micros);
    var whole := TruncDiv(iv.micros, MICROS_PER_DAY);
    var diff := iv.micros - whole * MICROS_PER_DAY;
    ghost var exact: int := base + iv.days + whole;
    ghost var carry := 0;
    var date, t := days, time + diff;
    if t >= MICROS_PER_DAY {
      WrapStep(exact, 1);
      carry := 1;
      t := t - MICROS_PER_DAY;
      date := Wrap32(date as int + 1);
    } else if t < 0 {
      WrapStep(exact, -1);
      carry := -1;
      t := t + MICROS_PER_DAY;
      date := Wrap32(date as int - 1);
    }
    r := FromDatetime(date, t);
    ghost var day := exact + carry;
    TotalIs(base, time, iv, whole, carry, day, t);
    WrappedDay(day, t);
  }

  lemma TotalIs(base: int, time: int, iv: Interval, whole: int, carry: int, day: int, t: int)
    requires day == base + iv.days + whole + carry
             && t == time + (iv.micros - whole * MICROS_PER_DAY) - carry * MICROS_PER_DAY
    ensures Total(base, time, iv) == day * MICROS_PER_DAY + t
  {
  }

  /** Wrapping the day first makes no difference. */
  lemma WrappedDay(day: int, t: int)
    requires -2_600_000_000 <= day <= 2_600_000_000 && 0 <= t < MICROS_PER_DAY
    ensures Datetime(Wrap32(day), t) == TimestampOf(day * MICROS_PER_DAY + t)
  {
    WrapStaysOut(day);
    DayAndTime(day, t);
  }

  /** timestamp_t::operator+: for every mix of signs the result is exactly the day (moved by the months), the time of
      day, the interval's days and its microseconds; it throws exactly when that is out of range. */
  method Add(v: int64, iv: Interval) returns (r: Option<int64>)
    ensures iv.months == 0 ==> r == TimestampOf(v + iv.days * MICROS_PER_DAY + iv.micros)
    ensures exists c :: Moves(c, v, iv, r)
  {
    GetDateIsFloor(v);
    GetTimeIsRemainder(v);
    var date, time := GetDate(v), GetTime(v);
    var moved := AddInterval(date, iv);
    ghost var c :| Shifts(c, date, iv, moved);
    if moved.None? {
      r := None;
    } else {
      BaseInRange(c, iv.months, date);
      r := Carry(moved.value, time, iv, Base(c, iv.months));
    }
    AddMoves(c, v, iv, date, time, moved, r);
  }

  lemma AddMoves(c: Civil, v: int64, iv: Interval, date: int32, time: int, moved: Option<int32>, r: Option<int64>)
    requires date == v / MICROS_PER_DAY && time == v % MICROS_PER_DAY && Shifts(c, date, iv, moved)
    requires r == if moved.None? then None else TimestampOf(Total(Base(c, iv.months), time, iv))
    ensures Moves(c, v, iv, r) && (iv.months == 0 ==> r == TimestampOf(v + iv.days * MICROS_PER_DAY + iv.micros))
  {
    SplitDay(v, date, time, iv);
  }

  /** c is the date of v, and r what moving it by the months and adding the rest gives. */
  ghost predicate Moves(c: Civil, v: int64, iv: Interval, r: Option<int64>) {
    && IsDate(c) && DayNumber(c) == v / MICROS_PER_DAY
    && (iv.months != 0 ==>
          r == if IsValid(MonthsAway(c, iv.months))
               then TimestampOf(Total(DayNumber(MonthsAway(c, iv.months)), v % MICROS_PER_DAY, iv)) else None)
  }

  lemma BaseInRange(c: Civil, months: int32, date: int32)
    requires IsDate(c) && DayNumber(c) == date && -106_800_000 <= date <= 106_800_000
    requires months != 0 ==> IsValid(MonthsAway(c, months))
    ensures -106_800_000 <= Base(c, months) <= 106_800_000
  {
    if months != 0 {
      MonthsAwayExact(c, months);
      ValidRange(MonthsAway(c, months));
    }
  }

  lemma SplitDay(v: int64, date: int, time: int, iv: Interval)
    requires date == v / MICROS_PER_DAY && time == v % MICROS_PER_DAY
    ensures Total(date, time, iv) == v + iv.days * MICROS_PER_DAY + iv.micros
  {
  }

  /** The difference is taken in 64 bits; its absolute value is split into days and microseconds, both with its sign. */
  function Subtract(a: int64, b: int64): Interval {
    var w: int := Wrap64(a - b);
    var diff := if w < 0 then -w else w;
    if a < b then Interval(0, -(diff / MICROS_PER_DAY), -(diff % MICROS_PER_DAY))
    else Interval(0, diff / MICROS_PER_DAY, diff % MICROS_PER_DAY)
  }

  /** b + (a - b) is a exactly if a is not before the first valid day and the difference fits in 64 bits. */
  lemma SubtractThenAdd(a: int64, b: int64)
    ensures var iv := Subtract(a, b);
            TimestampOf(b + iv.days * MICROS_PER_DAY + iv.micros) == Some(a)
            <==> MIN_DAY <= a / MICROS_PER_DAY && -0x8000_0000_0000_0000 <= a - b <= 0x8000_0000_0000_0000
  {
    var sum := SubtractSum(a, b);
    if -0x8000_0000_0000_0000 <= a - b <= 0x8000_0000_0000_0000 {
      assert sum == a;
    } else {
      WrapApart(sum, a);
    }
  }

  /** The two parts of a difference add up to its wrapped absolute value, with the sign of the comparison. */
  lemma SubtractSum(a: int64, b: int64) returns (sum: int)
    ensures var iv := Subtract(a, b);
            sum == b + iv.days * MICROS_PER_DAY + iv.micros
    ensures -0x8000_0000_0000_0000 <= a - b <= 0x8000_0000_0000_0000 ==> sum == a
    ensures a - b > 0x8000_0000_0000_0000 ==> sum == b + 0x1_0000_0000_0000_0000 - (a - b)
    ensures a - b < -0x8000_0000_0000_0000 ==> sum == b - 0x1_0000_0000_0000_0000 - (a - b)
  {
    var iv := Subtract(a, b);
    sum := b + iv.days * MICROS_PER_DAY + iv.micros;
  }

  lemma WrapApart(x: int, a: int64)
    requires x != a && -0x1_0000_0000_0000_0000 < x - a < 0x1_0000_0000_0000_0000
    ensures Wrap64(x) != a
  {
  }

  method AddDifference(a: int64, b: int64) returns (r: Option<int64>)
    ensures r == Some(a) <==> MIN_DAY <= a / MICROS_PER_DAY && -0x8000_0000_0000_0000 <= a - b <= 0x8000_0000_0000_0000
  {
    SubtractThenAdd(a, b);
    r := Add(b, Subtract(a, b));
  }
}
