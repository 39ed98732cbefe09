/** Days since 1970-01-01 and calendar dates (src/common/types/date_t.cpp). */
module Calendar {
  import opened Wrappers

  type int32 = x: int | -0x8000_0000 <= x < 0x8000_0000

  datatype Civil = Civil(year: int, month: int, day: int)

  // ---------------------------------------------------------------------------------------------
  // The Gregorian calendar (section 3.2.1 of ISO 8601:2004), by counting
  // ---------------------------------------------------------------------------------------------

  predicate IsLeapYear(y: int) {
    y % 4 == 0 && (y % 100 != 0 || y % 400 == 0)
  }

  function YearLength(y: int): int {
    if IsLeapYear(y) then 366 else 365
  }

  function MonthLength(y: int, m: int): int {
    if m == 2 then (if IsLeapYear(y) then 29 else 28)
    else if m == 4 || m == 6 || m == 9 || m == 11 then 30 else 31
  }

  /** The number of the first day of a year. */
  function YearStart(y: int): int
    decreases if y < 1970 then 1970 - y else y - 1970
  {
    if y == 1970 then 0
    else if y > 1970 then YearStart(y - 1) + YearLength(y - 1)
    else YearStart(y + 1) - YearLength(y)
  }

  /** Days of the year before a month. */
  function MonthStart(y: int, m: int): int
    decreases m
  {
    if m <= 1 then 0 else MonthStart(y, m - 1) + MonthLength(y, m - 1)
  }

  function DayNumber(c: Civil): int {
    YearStart(c.year) + MonthStart(c.year, c.month) + c.day - 1
  }

  predicate IsDate(c: Civil) {
    1 <= c.month <= 12 && 1 <= c.day <= MonthLength(c.year, c.month)
  }

  predicate Before(a: Civil, b: Civil) {
    a.year < b.year || (a.year == b.year && (a.month < b.month || (a.month == b.month && a.day < b.day)))
  }

  // ---------------------------------------------------------------------------------------------
  // Closed form, and the order of days
  // ---------------------------------------------------------------------------------------------

  function Elapsed(y: int): int {
    365 * y + (y - 1) / 4 - (y - 1) / 100 + (y - 1) / 400
  }

  lemma QuotientStep(y: int)
    ensures y / 4 == (y - 1) / 4 + if y % 4 == 0 then 1 else 0
    ensures y / 100 == (y - 1) / 100 + if y % 100 == 0 then 1 else 0
    ensures y / 400 == (y - 1) / 400 + if y % 400 == 0 then 1 else 0
  {
  }

  lemma CenturiesDivide(y: int)
    ensures y % 400 == 0 ==> y % 100 == 0
    ensures y % 100 == 0 ==> y % 4 == 0
  {
    var q, c := y / 400, y / 100;
    MultipleOf(4 * q);
    MultipleOf4(25 * c);
    assert y == 400 * q + y % 400 && y == 100 * c + y % 100;
  }

  lemma MultipleOf(k: int)
    ensures (100 * k) % 100 == 0
  {
  }

  lemma MultipleOf4(k: int)
    ensures (4 * k) % 4 == 0
  {
  }

  lemma ElapsedStep(y: int)
    ensures Elapsed(y + 1) == Elapsed(y) + YearLength(y)
  {
    QuotientStep(y);
    CenturiesDivide(y);
  }

  lemma QuotientShift(x: int)
    ensures (x + 400) / 4 == x / 4 + 100
    ensures (x + 400) / 100 == x / 100 + 4
    ensures (x + 400) / 400 == x / 400 + 1
    ensures (x + 400) % 4 == x % 4 && (x + 400) % 100 == x % 100 && (x + 400) % 400 == x % 400
  {
  }

  lemma {:induction false} YearStartClosed(y: int)
    ensures YearStart(y) == Elapsed(y) - Elapsed(1970)
    decreases if y < 1970 then 1970 - y else y - 1970
  {
    if y > 1970 {
      YearStartClosed(y - 1);
      ElapsedStep(y - 1);
    } else if y < 1970 {
      YearStartClosed(y + 1);
      ElapsedStep(y);
    }
  }

  /** The calendar repeats every 400 years. */
  lemma Repeats(y: int)
    ensures YearStart(y + 400) == YearStart(y) + 146097
    ensures IsLeapYear(y + 400) == IsLeapYear(y)
  {
    YearStartClosed(y);
    YearStartClosed(y + 400);
    QuotientShift(y - 1);
    QuotientShift(y);
  }

  lemma YearStartNext(y: int)
    ensures YearStart(y + 1) == YearStart(y) + YearLength(y)
  {
    YearStartClosed(y);
    YearStartClosed(y + 1);
    ElapsedStep(y);
  }

  lemma {:induction false} YearStartMonotone(y: int, z: int)
    requires y < z
    ensures YearStart(y + 1) <= YearStart(z)
    decreases z - y
  {
    if y + 1 < z {
      YearStartMonotone(y, z - 1);
      YearStartNext(z - 1);
    }
  }

  /** MonthStart unfolded. */
  lemma MonthStarts(y: int)
    ensures var l := if IsLeapYear(y) then 1 else 0;
            && MonthStart(y, 1) == 0 && MonthStart(y, 2) == 31 && MonthStart(y, 3) == 59 + l
               && MonthStart(y, 4) == 90 + l
            && MonthStart(y, 5) == 120 + l && MonthStart(y, 6) == 151 + l && MonthStart(y, 7) == 181 + l
            && MonthStart(y, 8) == 212 + l && MonthStart(y, 9) == 243 + l && MonthStart(y, 10) == 273 + l
            && MonthStart(y, 11) == 304 + l && MonthStart(y, 12) == 334 + l && MonthStart(y, 13) == 365 + l
  {
    assert MonthStart(y, 4) == MonthStart(y, 3) + MonthLength(y, 3);
    assert MonthStart(y, 7) == MonthStart(y, 6) + MonthLength(y, 6);
    assert MonthStart(y, 10) == MonthStart(y, 9) + MonthLength(y, 9);
    assert MonthStart(y, 13) == MonthStart(y, 12) + MonthLength(y, 12);
  }

  /** The days of a year come after its start and before the next year's. */
  lemma WithinYear(c: Civil)
    requires IsDate(c)
    ensures YearStart(c.year) <= DayNumber(c) < YearStart(c.year + 1)
  {
    MonthStarts(c.year);
    YearStartNext(c.year);
  }

  /** Day numbers order dates strictly. */
  lemma DayNumberMonotone(a: Civil, b: Civil)
    requires IsDate(a) && IsDate(b) && Before(a, b)
    ensures DayNumber(a) < DayNumber(b)
  {
    WithinYear(a);
    WithinYear(b);
    if a.year < b.year {
      YearStartMonotone(a.year, b.year);
    } else {
      MonthStarts(a.year);
    }
  }

  lemma DayNumberInjective(a: Civil, b: Civil)
    requires IsDate(a) && IsDate(b) && DayNumber(a) == DayNumber(b)
    ensures a == b
  {
    if Before(a, b) {
      DayNumberMonotone(a, b);
    } else if Before(b, a) {
      DayNumberMonotone(b, a);
    }
  }

  // ---------------------------------------------------------------------------------------------
  // Tables of the source
  // ---------------------------------------------------------------------------------------------

  const MIN_YEAR := -290307
  const MAX_YEAR := 294247
  const YEAR_INTERVAL := 400
  const DAYS_PER_YEAR_INTERVAL := 146097

  const NORMAL_DAYS := [0, 31, 28, 31, 30, 31, 30, 31, 31, 30, 31, 30, 31]
  const LEAP_DAYS := [0, 31, 29, 31, 30, 31, 30, 31, 31, 30, 31, 30, 31]
  const CUMULATIVE_LEAP_DAYS := [0, 31, 60, 91, 121, 152, 182, 213, 244, 274, 305, 335, 366]
  const CUMULATIVE_DAYS := [0, 31, 59, 90, 120, 151, 181, 212, 243, 273, 304, 334, 365]

  /** CUMULATIVE_YEAR_DAYS, twenty entries to a row; its last entry stands alone. */
  function YearRow(row: nat): (r: seq<int>)
    requires row < 20
    ensures |r| == 20
  {
    match row
    case 0 => [0, 365, 730, 1096, 1461, 1826, 2191, 2557, 2922, 3287,
                3652, 4018, 4383, 4748, 5113, 5479, 5844, 6209, 6574, 6940]
    case 1 => [7305, 7670, 8035, 8401, 8766, 9131, 9496, 9862, 10227, 10592,
                10957, 11323, 11688, 12053, 12418, 12784, 13149, 13514, 13879, 14245]
    case 2 => [14610, 14975, 15340, 15706, 16071, 16436, 16801, 17167, 17532, 17897,
                18262, 18628, 18993, 19358, 19723, 20089, 20454, 20819, 21184, 21550]
    case 3 => [21915, 22280, 22645, 23011, 23376, 23741, 24106, 24472, 24837, 25202,
                25567, 25933, 26298, 26663, 27028, 27394, 27759, 28124, 28489, 28855]
    case 4 => [29220, 29585, 29950, 30316, 30681, 31046, 31411, 31777, 32142, 32507,
                32872, 33238, 33603, 33968, 34333, 34699, 35064, 35429, 35794, 36160]
    case 5 => [36525, 36890, 37255, 37621, 37986, 38351, 38716, 39082, 39447, 39812,
                40177, 40543, 40908, 41273, 41638, 42004, 42369, 42734, 43099, 43465]
    case 6 => [43830, 44195, 44560, 44926, 45291, 45656, 46021, 46387, 46752, 47117,
                47482, 47847, 48212, 48577, 48942, 49308, 49673, 50038, 50403, 50769]
    case 7 => [51134, 51499, 51864, 52230, 52595, 52960, 53325, 53691, 54056, 54421,
                54786, 55152, 55517, 55882, 56247, 56613, 56978, 57343, 57708, 58074]
    case 8 => [58439, 58804, 59169, 59535, 59900, 60265, 60630, 60996, 61361, 61726,
                62091, 62457, 62822, 63187, 63552, 63918, 64283, 64648, 65013, 65379]
    case 9 => [65744, 66109, 66474, 66840, 67205, 67570, 67935, 68301, 68666, 69031,
                69396, 69762, 70127, 70492, 70857, 71223, 71588, 71953, 72318, 72684]
    case 10 => [73049, 73414, 73779, 74145, 74510, 74875, 75240, 75606, 75971, 76336,
                76701, 77067, 77432, 77797, 78162, 78528, 78893, 79258, 79623, 79989]
    case 11 => [80354, 80719, 81084, 81450, 81815, 82180, 82545, 82911, 83276, 83641,
                84006, 84371, 84736, 85101, 85466, 85832, 86197, 86562, 86927, 87293]
    case 12 => [87658, 88023, 88388, 88754, 89119, 89484, 89849, 90215, 90580, 90945,
                91310, 91676, 92041, 92406, 92771, 93137, 93502, 93867, 94232, 94598]
    case 13 => [94963, 95328, 95693, 96059, 96424, 96789, 97154, 97520, 97885, 98250,
                98615, 98981, 99346, 99711, 100076, 100442, 100807, 101172, 101537, 101903]
    case 14 => [102268, 102633, 102998, 103364, 103729, 104094, 104459, 104825, 105190, 105555,
                105920, 106286, 106651, 107016, 107381, 107747, 108112, 108477, 108842, 109208]
    case 15 => [109573, 109938, 110303, 110669, 111034, 111399, 111764, 112130, 112495, 112860,
                113225, 113591, 113956, 114321, 114686, 115052, 115417, 115782, 116147, 116513]
    case 16 => [116878, 117243, 117608, 117974, 118339, 118704, 119069, 119435, 119800, 120165,
                120530, 120895, 121260, 121625, 121990, 122356, 122721, 123086, 123451, 123817]
    case 17 => [124182, 124547, 124912, 125278, 125643, 126008, 126373, 126739, 127104, 127469,
                127834, 128200, 128565, 128930, 129295, 129661, 130026, 130391, 130756, 131122]
    case 18 => [131487, 131852, 132217, 132583, 132948, 133313, 133678, 134044, 134409, 134774,
                135139, 135505, 135870, 136235, 136600, 136966, 137331, 137696, 138061, 138427]
    case 19 => [138792, 139157, 139522, 139888, 140253, 140618, 140983, 141349, 141714, 142079,
                142444, 142810, 143175, 143540, 143905, 144271, 144636, 145001, 145366, 145732]
  }

  function CumulativeYearDays(k: nat): int
    requires k <= 400
  {
    if k == 400 then 146097 else YearRow(k / 20)[k % 20]
  }

  /** MONTH_PER_DAY_OF_YEAR, 31 entries to a row. */
  function MonthRow(row: nat): (r: seq<int>)
    requires row < 12
    ensures |r| == if row == 11 then 24 else 31
  {
    match row
    case 0 => [1, 1, 1, 1, 1, 1, 1, 1, 1, 1, 1, 1, 1, 1, 1, 1, 1, 1, 1, 1, 1, 1, 1, 1, 1, 1, 1, 1, 1, 1, 1]
    case 1 => [2, 2, 2, 2, 2, 2, 2, 2, 2, 2, 2, 2, 2, 2, 2, 2, 2, 2, 2, 2, 2, 2, 2, 2, 2, 2, 2, 2, 3, 3, 3]
    case 2 => [3, 3, 3, 3, 3, 3, 3, 3, 3, 3, 3, 3, 3, 3, 3, 3, 3, 3, 3, 3, 3, 3, 3, 3, 3, 3, 3, 3, 4, 4, 4]
    case 3 => [4, 4, 4, 4, 4, 4, 4, 4, 4, 4, 4, 4, 4, 4, 4, 4, 4, 4, 4, 4, 4, 4, 4, 4, 4, 4, 4, 5, 5, 5, 5]
    case 4 => [5, 5, 5, 5, 5, 5, 5, 5, 5, 5, 5, 5, 5, 5, 5, 5, 5, 5, 5, 5, 5, 5, 5, 5, 5, 5, 5, 6, 6, 6, 6]
    case 5 => [6, 6, 6, 6, 6, 6, 6, 6, 6, 6, 6, 6, 6, 6, 6, 6, 6, 6, 6, 6, 6, 6, 6, 6, 6, 6, 7, 7, 7, 7, 7]
    case 6 => [7, 7, 7, 7, 7, 7, 7, 7, 7, 7, 7, 7, 7, 7, 7, 7, 7, 7, 7, 7, 7, 7, 7, 7, 7, 7, 8, 8, 8, 8, 8]
    case 7 => [8, 8, 8, 8, 8, 8, 8, 8, 8, 8, 8, 8, 8, 8, 8, 8, 8, 8, 8, 8, 8, 8, 8, 8, 8, 8, 9, 9, 9, 9, 9]
    case 8 => [9, 9, 9, 9, 9, 9, 9, 9, 9, 9, 9, 9, 9, 9, 9, 9, 9, 9, 9, 9, 9, 9, 9, 9, 9, 10, 10, 10, 10, 10, 10]
    case 9 => [10, 10, 10, 10, 10, 10, 10, 10, 10, 10, 10, 10, 10, 10, 10, 10, 10, 10, 10, 10, 10, 10, 10, 10, 10, 11,
               11, 11, 11, 11, 11]
    case 10 => [11, 11, 11, 11, 11, 11, 11, 11, 11, 11, 11, 11, 11, 11, 11, 11, 11, 11, 11, 11, 11, 11, 11, 11, 12,
                12, 12, 12, 12, 12, 12]
    case 11 => [12, 12, 12, 12, 12, 12, 12, 12, 12, 12, 12, 12, 12, 12, 12, 12, 12, 12, 12, 12, 12, 12, 12, 12]
  }

  function MonthPerDayOfYear(day: nat): int
    requires day < 365
  {
    MonthRow(day / 31)[day % 31]
  }

  /** LEAP_MONTH_PER_DAY_OF_YEAR, 31 entries to a row. */
  function LeapMonthRow(row: nat): (r: seq<int>)
    requires row < 12
    ensures |r| == if row == 11 then 25 else 31
  {
    match row
    case 0 => [1, 1, 1, 1, 1, 1, 1, 1, 1, 1, 1, 1, 1, 1, 1, 1, 1, 1, 1, 1, 1, 1, 1, 1, 1, 1, 1, 1, 1, 1, 1]
    case 1 => [2, 2, 2, 2, 2, 2, 2, 2, 2, 2, 2, 2, 2, 2, 2, 2, 2, 2, 2, 2, 2, 2, 2, 2, 2, 2, 2, 2, 2, 3, 3]
    case 2 => [3, 3, 3, 3, 3, 3, 3, 3, 3, 3, 3, 3, 3, 3, 3, 3, 3, 3, 3, 3, 3, 3, 3, 3, 3, 3, 3, 3, 3, 4, 4]
    case 3 => [4, 4, 4, 4, 4, 4, 4, 4, 4, 4, 4, 4, 4, 4, 4, 4, 4, 4, 4, 4, 4, 4, 4, 4, 4, 4, 4, 4, 5, 5, 5]
    case 4 => [5, 5, 5, 5, 5, 5, 5, 5, 5, 5, 5, 5, 5, 5, 5, 5, 5, 5, 5, 5, 5, 5, 5, 5, 5, 5, 5, 5, 6, 6, 6]
    case 5 => [6, 6, 6, 6, 6, 6, 6, 6, 6, 6, 6, 6, 6, 6, 6, 6, 6, 6, 6, 6, 6, 6, 6, 6, 6, 6, 6, 7, 7, 7, 7]
    case 6 => [7, 7, 7, 7, 7, 7, 7, 7, 7, 7, 7, 7, 7, 7, 7, 7, 7, 7, 7, 7, 7, 7, 7, 7, 7, 7, 7, 8, 8, 8, 8]
    case 7 => [8, 8, 8, 8, 8, 8, 8, 8, 8, 8, 8, 8, 8, 8, 8, 8, 8, 8, 8, 8, 8, 8, 8, 8, 8, 8, 8, 9, 9, 9, 9]
    case 8 => [9, 9, 9, 9, 9, 9, 9, 9, 9, 9, 9, 9, 9, 9, 9, 9, 9, 9, 9, 9, 9, 9, 9, 9, 9, 9, 10, 10, 10, 10, 10]
    case 9 => [10, 10, 10, 10, 10, 10, 10, 10, 10, 10, 10, 10, 10, 10, 10, 10, 10, 10, 10, 10, 10, 10, 10, 10, 10, 10,
               11, 11, 11, 11, 11]
    case 10 => [11, 11, 11, 11, 11, 11, 11, 11, 11, 11, 11, 11, 11, 11, 11, 11, 11, 11, 11, 11, 11, 11, 11, 11, 11,
                12, 12, 12, 12, 12, 12]
    case 11 => [12, 12, 12, 12, 12, 12, 12, 12, 12, 12, 12, 12, 12, 12, 12, 12, 12, 12, 12, 12, 12, 12, 12, 12, 12]
  }

  function LeapMonthPerDayOfYear(day: nat): int
    requires day < 366
  {
    LeapMonthRow(day / 31)[day % 31]
  }

  // Row by row, the table agrees with the closed form.
  lemma Row0(j: nat) requires j < 20 ensures YearRow(0)[j] == Elapsed(1970 + j) - Elapsed(1970) {}
  lemma Row1(j: nat) requires j < 20 ensures YearRow(1)[j] == Elapsed(1990 + j) - Elapsed(1970) {}
  lemma Row2(j: nat) requires j < 20 ensures YearRow(2)[j] == Elapsed(2010 + j) - Elapsed(1970) {}
  lemma Row3(j: nat) requires j < 20 ensures YearRow(3)[j] == Elapsed(2030 + j) - Elapsed(1970) {}
  lemma Row4(j: nat) requires j < 20 ensures YearRow(4)[j] == Elapsed(2050 + j) - Elapsed(1970) {}
  lemma Row5(j: nat) requires j < 20 ensures YearRow(5)[j] == Elapsed(2070 + j) - Elapsed(1970) {}
  lemma Row6(j: nat) requires j < 20 ensures YearRow(6)[j] == Elapsed(2090 + j) - Elapsed(1970) {}
  lemma Row7(j: nat) requires j < 20 ensures YearRow(7)[j] == Elapsed(2110 + j) - Elapsed(1970) {}
  lemma Row8(j: nat) requires j < 20 ensures YearRow(8)[j] == Elapsed(2130 + j) - Elapsed(1970) {}
  lemma Row9(j: nat) requires j < 20 ensures YearRow(9)[j] == Elapsed(2150 + j) - Elapsed(1970) {}
  lemma Row10(j: nat) requires j < 20 ensures YearRow(10)[j] == Elapsed(2170 + j) - Elapsed(1970) {}
  lemma Row11(j: nat) requires j < 20 ensures YearRow(11)[j] == Elapsed(2190 + j) - Elapsed(1970) {}
  lemma Row12(j: nat) requires j < 20 ensures YearRow(12)[j] == Elapsed(2210 + j) - Elapsed(1970) {}
  lemma Row13(j: nat) requires j < 20 ensures YearRow(13)[j] == Elapsed(2230 + j) - Elapsed(1970) {}
  lemma Row14(j: nat) requires j < 20 ensures YearRow(14)[j] == Elapsed(2250 + j) - Elapsed(1970) {}
  lemma Row15(j: nat) requires j < 20 ensures YearRow(15)[j] == Elapsed(2270 + j) - Elapsed(1970) {}
  lemma Row16(j: nat) requires j < 20 ensures YearRow(16)[j] == Elapsed(2290 + j) - Elapsed(1970) {}
  lemma Row17(j: nat) requires j < 20 ensures YearRow(17)[j] == Elapsed(2310 + j) - Elapsed(1970) {}
  lemma Row18(j: nat) requires j < 20 ensures YearRow(18)[j] == Elapsed(2330 + j) - Elapsed(1970) {}
  lemma Row19(j: nat) requires j < 20 ensures YearRow(19)[j] == Elapsed(2350 + j) - Elapsed(1970) {}

  lemma RowsFrom0(row: nat, j: nat)
    requires 0 <= row < 4 && j < 20
    ensures YearRow(row)[j] == Elapsed(1970 + 20 * row + j) - Elapsed(1970)
  {
    match row
    case 0 => Row0(j);
    case 1 => Row1(j);
    case 2 => Row2(j);
    case 3 => Row3(j);
  }

  lemma RowsFrom4(row: nat, j: nat)
    requires 4 <= row < 8 && j < 20
    ensures YearRow(row)[j] == Elapsed(1970 + 20 * row + j) - Elapsed(1970)
  {
    match row
    case 4 => Row4(j);
    case 5 => Row5(j);
    case 6 => Row6(j);
    case 7 => Row7(j);
  }

  lemma RowsFrom8(row: nat, j: nat)
    requires 8 <= row < 12 && j < 20
    ensures YearRow(row)[j] == Elapsed(1970 + 20 * row + j) - Elapsed(1970)
  {
    match row
    case 8 => Row8(j);
    case 9 => Row9(j);
    case 10 => Row10(j);
    case 11 => Row11(j);
  }

  lemma RowsFrom12(row: nat, j: nat)
    requires 12 <= row < 16 && j < 20
    ensures YearRow(row)[j] == Elapsed(1970 + 20 * row + j) - Elapsed(1970)
  {
    match row
    case 12 => Row12(j);
    case 13 => Row13(j);
    case 14 => Row14(j);
    case 15 => Row15(j);
  }

  lemma RowsFrom16(row: nat, j: nat)
    requires 16 <= row < 20 && j < 20
    ensures YearRow(row)[j] == Elapsed(1970 + 20 * row + j) - Elapsed(1970)
  {
    match row
    case 16 => Row16(j);
    case 17 => Row17(j);
    case 18 => Row18(j);
    case 19 => Row19(j);
  }

  lemma RowCorrect(row: nat, j: nat)
    requires row < 20 && j < 20
    ensures YearRow(row)[j] == Elapsed(1970 + 20 * row + j) - Elapsed(1970)
  {
    if row < 4 {
      RowsFrom0(row, j);
    } else if row < 8 {
      RowsFrom4(row, j);
    } else if row < 12 {
      RowsFrom8(row, j);
    } else if row < 16 {
      RowsFrom12(row, j);
    } else {
      RowsFrom16(row, j);
    }
  }

  /** CUMULATIVE_YEAR_DAYS counts the days from 1970 on. */
  lemma TableCorrect(k: nat)
    requires k <= 400
    ensures CumulativeYearDays(k) == YearStart(1970 + k)
  {
    YearStartClosed(1970 + k);
    if k < 400 {
      RowCorrect(k / 20, k % 20);
    }
  }

  lemma {:induction false} YearStartLower(k: nat)
    ensures 365 * k <= YearStart(1970 + k)
  {
    if k > 0 {
      YearStartLower(k - 1);
    }
  }

  /** The month of a day of the year, with `feb` days in February. */
  function MonthAt(feb: nat, day: nat): int {
    if day < 31 then 1 else if day < 31 + feb then 2 else if day < 62 + feb then 3 else if day < 92 + feb then 4
    else if day < 123 + feb then 5 else if day < 153 + feb then 6 else if day < 184 + feb then 7
    else if day < 215 + feb then 8 else if day < 245 + feb then 9 else if day < 276 + feb then 10
    else if day < 306 + feb then 11 else 12
  }

  lemma MonthRow0(j: nat) requires j < 31 ensures MonthRow(0)[j] == MonthAt(28, 0 + j) {}
  lemma MonthRow1(j: nat) requires j < 31 ensures MonthRow(1)[j] == MonthAt(28, 31 + j) {}
  lemma MonthRow2(j: nat) requires j < 31 ensures MonthRow(2)[j] == MonthAt(28, 62 + j) {}
  lemma MonthRow3(j: nat) requires j < 31 ensures MonthRow(3)[j] == MonthAt(28, 93 + j) {}
  lemma MonthRow4(j: nat) requires j < 31 ensures MonthRow(4)[j] == MonthAt(28, 124 + j) {}
  lemma MonthRow5(j: nat) requires j < 31 ensures MonthRow(5)[j] == MonthAt(28, 155 + j) {}
  lemma MonthRow6(j: nat) requires j < 31 ensures MonthRow(6)[j] == MonthAt(28, 186 + j) {}
  lemma MonthRow7(j: nat) requires j < 31 ensures MonthRow(7)[j] == MonthAt(28, 217 + j) {}
  lemma MonthRow8(j: nat) requires j < 31 ensures MonthRow(8)[j] == MonthAt(28, 248 + j) {}
  lemma MonthRow9(j: nat) requires j < 31 ensures MonthRow(9)[j] == MonthAt(28, 279 + j) {}
  lemma MonthRow10(j: nat) requires j < 31 ensures MonthRow(10)[j] == MonthAt(28, 310 + j) {}
  lemma MonthRow11(j: nat) requires j < 24 ensures MonthRow(11)[j] == MonthAt(28, 341 + j) {}

  lemma MonthRows(row: nat, j: nat)
    requires row < 12 && j < |MonthRow(row)|
    ensures MonthRow(row)[j] == MonthAt(28, 31 * row + j)
  {
    match row
    case 0 => MonthRow0(j);
    case 1 => MonthRow1(j);
    case 2 => MonthRow2(j);
    case 3 => MonthRow3(j);
    case 4 => MonthRow4(j);
    case 5 => MonthRow5(j);
    case 6 => MonthRow6(j);
    case 7 => MonthRow7(j);
    case 8 => MonthRow8(j);
    case 9 => MonthRow9(j);
    case 10 => MonthRow10(j);
    case 11 => MonthRow11(j);
  }

  lemma LeapMonthRow0(j: nat) requires j < 31 ensures LeapMonthRow(0)[j] == MonthAt(29, 0 + j) {}
  lemma LeapMonthRow1(j: nat) requires j < 31 ensures LeapMonthRow(1)[j] == MonthAt(29, 31 + j) {}
  lemma LeapMonthRow2(j: nat) requires j < 31 ensures LeapMonthRow(2)[j] == MonthAt(29, 62 + j) {}
  lemma LeapMonthRow3(j: nat) requires j < 31 ensures LeapMonthRow(3)[j] == MonthAt(29, 93 + j) {}
  lemma LeapMonthRow4(j: nat) requires j < 31 ensures LeapMonthRow(4)[j] == MonthAt(29, 124 + j) {}
  lemma LeapMonthRow5(j: nat) requires j < 31 ensures LeapMonthRow(5)[j] == MonthAt(29, 155 + j) {}
  lemma LeapMonthRow6(j: nat) requires j < 31 ensures LeapMonthRow(6)[j] == MonthAt(29, 186 + j) {}
  lemma LeapMonthRow7(j: nat) requires j < 31 ensures LeapMonthRow(7)[j] == MonthAt(29, 217 + j) {}
  lemma LeapMonthRow8(j: nat) requires j < 31 ensures LeapMonthRow(8)[j] == MonthAt(29, 248 + j) {}
  lemma LeapMonthRow9(j: nat) requires j < 31 ensures LeapMonthRow(9)[j] == MonthAt(29, 279 + j) {}
  lemma LeapMonthRow10(j: nat) requires j < 31 ensures LeapMonthRow(10)[j] == MonthAt(29, 310 + j) {}
  lemma LeapMonthRow11(j: nat) requires j < 25 ensures LeapMonthRow(11)[j] == MonthAt(29, 341 + j) {}

  lemma LeapMonthRows(row: nat, j: nat)
    requires row < 12 && j < |LeapMonthRow(row)|
    ensures LeapMonthRow(row)[j] == MonthAt(29, 31 * row + j)
  {
    match row
    case 0 => LeapMonthRow0(j);
    case 1 => LeapMonthRow1(j);
    case 2 => LeapMonthRow2(j);
    case 3 => LeapMonthRow3(j);
    case 4 => LeapMonthRow4(j);
    case 5 => LeapMonthRow5(j);
    case 6 => LeapMonthRow6(j);
    case 7 => LeapMonthRow7(j);
    case 8 => LeapMonthRow8(j);
    case 9 => LeapMonthRow9(j);
    case 10 => LeapMonthRow10(j);
    case 11 => LeapMonthRow11(j);
  }

  /** The closed form inverts MonthStart. */
  lemma MonthAtCorrect(y: int, day: nat)
    requires day < YearLength(y)
    ensures var month := MonthAt(if IsLeapYear(y) then 29 else 28, day);
            1 <= month <= 12 && MonthStart(y, month) <= day < MonthStart(y, month + 1)
  {
    MonthStarts(y);
  }

  /** The month tables invert MonthStart. */
  lemma MonthTableCorrect(y: int, day: nat)
    requires day < YearLength(y)
    ensures var month := if IsLeapYear(y) then LeapMonthPerDayOfYear(day) else MonthPerDayOfYear(day);
            1 <= month <= 12 && MonthStart(y, month) <= day < MonthStart(y, month + 1)
  {
    MonthAtCorrect(y, day);
    if IsLeapYear(y) {
      LeapMonthRows(day / 31, day % 31);
    } else {
      MonthRows(day / 31, day % 31);
    }
  }

  // ---------------------------------------------------------------------------------------------
  // Operations
  // ---------------------------------------------------------------------------------------------

  lemma {:induction false} RepeatsTimes(y: int, q: int)
    ensures YearStart(y + 400 * q) == YearStart(y) + 146097 * q
    ensures IsLeapYear(y + 400 * q) == IsLeapYear(y)
    decreases if q < 0 then -q else q
  {
    if q > 0 {
      RepeatsTimes(y, q - 1);
      Repeats(y + 400 * (q - 1));
    } else if q < 0 {
      RepeatsTimes(y, q + 1);
      Repeats(y + 400 * q);
    }
  }

  /** Moves a day into the 400 years of the table, with the years that takes. */
  method ShiftDays(days: int32) returns (n: int32, year: int32, ghost q: int)
    ensures 0 <= n < DAYS_PER_YEAR_INTERVAL && n == days - 146097 * q && year == 1970 + 400 * q
    ensures -6000000 <= year <= 6000000
  {
    n, year, q := days, 1970, 0;
    while n < 0
      invariant n == days - 146097 * q && year == 1970 + 400 * q && q <= 0 && (q < 0 ==> n < 146097)
      decreases 1 - (n as int)
    {
      n, year, q := n + DAYS_PER_YEAR_INTERVAL, year - YEAR_INTERVAL, q - 1;
    }
    while n >= DAYS_PER_YEAR_INTERVAL
      invariant n == days - 146097 * q && year == 1970 + 400 * q && n >= 0 && (q <= 0 || days >= 0)
    {
      n, year, q := n - DAYS_PER_YEAR_INTERVAL, year + YEAR_INTERVAL, q + 1;
    }
  }

  /** An entry of CUMULATIVE_YEAR_DAYS. */
  method LookUp(k: nat) returns (start: int)
    requires k <= 400
    ensures start == YearStart(1970 + k)
  {
    TableCorrect(k);
    start := CumulativeYearDays(k);
  }

  /** The interpolation search: 365-day years give an upper bound, from which the table is walked down. */
  method SearchYear(n: int32) returns (yearOffset: int32)
    requires 0 <= n < DAYS_PER_YEAR_INTERVAL
    ensures 0 <= yearOffset < 400
    ensures YearStart(1970 + yearOffset) <= n < YearStart(1970 + yearOffset + 1)
  {
    yearOffset := n / 365;
    YearStartLower(yearOffset + 1);
    var start := LookUp(yearOffset);
    while n < start
      invariant 0 <= yearOffset <= 400 && n < YearStart(1970 + yearOffset + 1) && start == YearStart(1970 + yearOffset)
      decreases yearOffset
    {
      assert YearStart(1970) == 0;
      yearOffset := yearOffset - 1;
      start := LookUp(yearOffset);
    }
    YearStartClosed(2370);
  }

  /** Shifts the day into the 400 years of the table and searches it for the year. */
  method ExtractYearOffset(days: int32) returns (n: int32, year: int32, yearOffset: int32)
    ensures 0 <= n < DAYS_PER_YEAR_INTERVAL && 0 <= yearOffset < 400
    ensures YearStart(1970 + yearOffset) <= n < YearStart(1970 + yearOffset + 1)
    ensures YearStart(year) == days - (n - YearStart(1970 + yearOffset))
    ensures IsLeapYear(year) == IsLeapYear(1970 + yearOffset)
  {
    ghost var q: int;
    n, year, q := ShiftDays(days);
    yearOffset := SearchYear(n);
    RepeatsTimes(1970 + yearOffset, q);
    year := year + yearOffset;
  }

  /** Every day number has a date, and this is it. */
  method Convert(days: int32) returns (c: Civil)
    ensures IsDate(c) && DayNumber(c) == days
  {
    var n, year, yearOffset := ExtractYearOffset(days);
    YearStartNext(1970 + yearOffset);
    var start := LookUp(yearOffset);
    var next := LookUp(yearOffset + 1);
    c := MonthAndDay(year, n - start, next - start == 366);
  }

  method MonthAndDay(year: int, dayOfYear: nat, isLeapYear: bool) returns (c: Civil)
    requires dayOfYear < YearLength(year) && isLeapYear == IsLeapYear(year)
    ensures IsDate(c) && c.year == year && DayNumber(c) == YearStart(year) + dayOfYear
  {
    var month := MonthOfDay(year, dayOfYear, isLeapYear);
    CumulativeMonths(year, month);
    var day := dayOfYear - if isLeapYear then CUMULATIVE_LEAP_DAYS[month - 1] else CUMULATIVE_DAYS[month - 1];
    day := day + 1;
    c := Civil(year, month, day);
  }

  /** An entry of a month table. */
  method MonthOfDay(year: int, day: nat, isLeapYear: bool) returns (month: int)
    requires day < YearLength(year) && isLeapYear == IsLeapYear(year)
    ensures 1 <= month <= 12 && MonthStart(year, month) <= day < MonthStart(year, month) + MonthLength(year, month)
  {
    MonthTableCorrect(year, day);
    month := if isLeapYear then LeapMonthPerDayOfYear(day) else MonthPerDayOfYear(day);
  }

  predicate IsValid(c: Civil) {
    IsDate(c) && MIN_YEAR <= c.year <= MAX_YEAR
  }

  /** The source's IsValid, over its tables. */
  method CheckValid(c: Civil) returns (ok: bool)
    ensures ok == IsValid(c)
  {
    if c.month < 1 || c.month > 12 {
      return false;
    }
    if c.year < MIN_YEAR || c.year > MAX_YEAR {
      return false;
    }
    if c.day < 1 {
      return false;
    }
    return if IsLeapYear(c.year) then c.day <= LEAP_DAYS[c.month] else c.day <= NORMAL_DAYS[c.month];
  }

  /** Moves a year into the 400 years of the table, with the days that takes. */
  method ShiftYear(y: int) returns (year: int, n: int32)
    requires MIN_YEAR <= y <= MAX_YEAR
    ensures 1970 <= year < 2370 && YearStart(y) == YearStart(year) + n && IsLeapYear(y) == IsLeapYear(year)
    ensures -106800000 <= n <= 106800000
  {
    n, year := 0, y;
    ghost var q: int := 0;
    while year < 1970
      invariant year == y + 400 * q && n == -146097 * q && 0 <= q && (q > 0 ==> year < 2370)
      invariant MIN_YEAR <= year <= MAX_YEAR
    {
      year, n, q := year + YEAR_INTERVAL, n - DAYS_PER_YEAR_INTERVAL, q + 1;
    }
    while year >= 2370
      invariant year == y + 400 * q && n == -146097 * q && 1970 <= year <= MAX_YEAR && (year < 2370 || q <= 0)
    {
      year, n, q := year - YEAR_INTERVAL, n + DAYS_PER_YEAR_INTERVAL, q - 1;
    }
    RepeatsTimes(y, q);
  }

  /** None is the exception for a date out of range. */
  method FromDate(c: Civil) returns (r: Option<int32>)
    ensures r.Some? <==> IsValid(c)
    ensures r.Some? ==> r.value == DayNumber(c)
  {
    var ok := CheckValid(c);
    if !ok {
      return None;
    }
    var year, n := ShiftYear(c.year);
    CumulativeMonths(c.year, c.month);
    TableBounds(year - 1970);
    var yearDays := LookUp(year - 1970);
    n := n + yearDays;
    n := n + if IsLeapYear(year) then CUMULATIVE_LEAP_DAYS[c.month - 1] else CUMULATIVE_DAYS[c.month - 1];
    n := n + c.day - 1;
    return Some(n);
  }

  lemma CumulativeMonths(y: int, m: int)
    requires 1 <= m <= 12
    ensures (if IsLeapYear(y) then CUMULATIVE_LEAP_DAYS[m - 1] else CUMULATIVE_DAYS[m - 1]) == MonthStart(y, m)
    ensures 0 <= MonthStart(y, m) <= 335
  {
    MonthStarts(y);
  }

  lemma TableBounds(k: nat)
    requires k < 400
    ensures 0 <= YearStart(1970 + k) <= 146097
  {
    YearStartLower(k);
    YearStartMonotone(1970 + k, 2370);
    YearStartNext(1970 + k);
    YearStartClosed(2370);
  }

  // ---------------------------------------------------------------------------------------------
  // Round trips and range
  // ---------------------------------------------------------------------------------------------

  const MIN_DAY := -106751981
  const MAX_DAY := 106752346

  lemma RangeStarts()
    ensures YearStart(MIN_YEAR) == MIN_DAY && YearStart(MAX_YEAR + 1) == MAX_DAY + 1
  {
    YearStartClosed(MIN_YEAR);
    YearStartClosed(MAX_YEAR + 1);
  }

  lemma {:induction false} YearOrder(y: int, z: int)
    requires y <= z
    ensures YearStart(y) <= YearStart(z)
    decreases z - y
  {
    if y < z {
      YearOrder(y, z - 1);
      YearStartNext(z - 1);
    }
  }

  lemma YearInRange(y: int, n: int)
    requires YearStart(y) <= n < YearStart(y + 1)
    ensures MIN_YEAR <= y <= MAX_YEAR <==> MIN_DAY <= n <= MAX_DAY
  {
    RangeStarts();
    if y < MIN_YEAR {
      YearOrder(y + 1, MIN_YEAR);
    } else if y > MAX_YEAR {
      YearOrder(MAX_YEAR + 1, y);
    } else {
      YearOrder(MIN_YEAR, y);
      YearOrder(y + 1, MAX_YEAR + 1);
    }
  }

  /** A date is in range exactly when its day is. */
  lemma ValidRange(c: Civil)
    requires IsDate(c)
    ensures IsValid(c) <==> MIN_DAY <= DayNumber(c) <= MAX_DAY
  {
    WithinYear(c);
    YearInRange(c.year, DayNumber(c));
  }

  /** Convert(FromDate(c)) == c for every valid date. */
  method DateRoundTrip(c: Civil) returns (back: Civil)
    requires IsValid(c)
    ensures back == c
  {
    var days := FromDate(c);
    back := Convert(days.value);
    DayNumberInjective(back, c);
  }

  /** FromDate(Convert(n)) == n exactly for the days in range; outside, FromDate throws. */
  method DayRoundTrip(days: int32) returns (back: Option<int32>)
    ensures back == if MIN_DAY <= days <= MAX_DAY then Some(days) else None
  {
    var c := Convert(days);
    ValidRange(c);
    back := FromDate(c);
  }

  // ---------------------------------------------------------------------------------------------
  // Adding an interval
  // ---------------------------------------------------------------------------------------------

  type int64 = x: int | -0x8000_0000_0000_0000 <= x < 0x8000_0000_0000_0000

  datatype Interval = Interval(months: int32, days: int32, micros: int64)

  const MICROS_PER_DAY := 86_400_000_000

  /** Division that truncates toward zero. */
  function TruncDiv(a: int, b: int): int
    requires b > 0
  {
    if a >= 0 then a / b else -((-a) / b)
  }

  /** Two's complement wrap-around of a 32-bit sum. */
  function Wrap32(x: int): int32 {
    (x + 0x8000_0000) % 0x1_0000_0000 - 0x8000_0000
  }

  /** The date m months away, clamped to the length of its month. */
  function MonthsAway(c: Civil, m: int): Civil {
    var index := 12 * c.year + c.month - 1 + m;
    var year, month := index / 12, index % 12 + 1;
    Civil(year, month, if c.day > MonthLength(year, month) then MonthLength(year, month) else c.day)
  }

  /** Months are counted exactly; the day only changes when the month is too short for it. */
  lemma MonthsAwayExact(c: Civil, m: int)
    requires IsDate(c)
    ensures var r := MonthsAway(c, m);
            && IsDate(r) && 12 * r.year + r.month == 12 * c.year + c.month + m
            && r.day <= c.day && (r.day == c.day || (r.day == MonthLength(r.year, r.month) && r.day >= 28))
            && (c.day <= MonthLength(r.year, r.month) ==> r.day == c.day)
  {
  }

  method MonthDays(year: int, month: int) returns (r: int)
    requires 1 <= month <= 12
    ensures r == MonthLength(year, month)
  {
    r := if IsLeapYear(year) then LEAP_DAYS[month] else NORMAL_DAYS[month];
  }

  method AddMonths(c: Civil, months: int32) returns (r: Civil)
    requires IsDate(c)
    ensures r == MonthsAway(c, months)
  {
    var year, month, day := c.year, c.month, c.day;
    var yearDiff := TruncDiv(months, 12);
    year := year + yearDiff;
    month := month + months - yearDiff * 12;
    if month > 12 {
      year := year + 1;
      month := month - 12;
    } else if month <= 0 {
      year := year - 1;
      month := month + 12;
    }
    var maxDayInMonth := MonthDays(year, month);
    day := if day > maxDayInMonth then maxDayInMonth else day;
    r := Civil(year, month, day);
    assert 12 * year + month - 1 == 12 * c.year + c.month - 1 + months;
  }

  /** The day that the months move date c to. */
  function Base(c: Civil, months: int): int {
    if months == 0 then DayNumber(c) else DayNumber(MonthsAway(c, months))
  }

  /** c is the date of the day, and r the day after the interval, wrapped to 32 bits; None is the exception of a date
      out of range after the months. */
  ghost predicate Shifts(c: Civil, days: int32, iv: Interval, r: Option<int32>) {
    && IsDate(c) && DayNumber(c) == days
    && (r.None? <==> iv.months != 0 && !IsValid(MonthsAway(c, iv.months)))
    && (r.Some? ==> r.value == Wrap32(Base(c, iv.months) + iv.days + TruncDiv(iv.micros, MICROS_PER_DAY)))
  }

  /** date_t::operator+. None is the exception of FromDate. */
  method AddInterval(days: int32, iv: Interval) returns (r: Option<int32>)
    ensures exists c :: Shifts(c, days, iv, r)
  {
    var c := Convert(days);
    var result: int32 := days;
    if iv.months != 0 {
      var shifted := AddMonths(c, iv.months);
      MonthsAwayExact(c, iv.months);
      var base := FromDate(shifted);
      if base.None? {
        assert Shifts(c, days, iv, None);
        return None;
      }
      result := base.value;
    }
    ghost var base := result;
    result := Wrap32(result + iv.days);
    result := Wrap32(result + Wrap32(TruncDiv(iv.micros, MICROS_PER_DAY)));
    WrapSum(base, iv.days, TruncDiv(iv.micros, MICROS_PER_DAY));
    r := Some(result);
    assert Shifts(c, days, iv, r);
  }

  lemma WrapSum(a: int, b: int, c: int)
    ensures Wrap32(Wrap32(a + b) + Wrap32(c)) == Wrap32(a + b + c)
  {
  }
}
