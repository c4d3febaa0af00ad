/** The SQLite store's fixed-width UTC timestamps (internal/storage/sqlite.go), as in
    section 5.1 of RFC 3339: their byte order is the order of time. */
module Clock {
  import opened Text
  import opened Seqs
  import opened Events

  // ---------------------------------------------------------------- fixed-width numerals

  function Pow10(w: nat): nat { if w == 0 then 1 else 10 * Pow10(w - 1) }

  /** `n` in `w` digits. */
  function Pad(n: nat, w: nat): (s: string)
    ensures |s| == w && AllDigits(s)
  {
    if w == 0 then "" else Pad(n / 10, w - 1) + [Digit(n % 10)]
  }

  lemma {:induction false} PadIsMonotone(m: nat, n: nat, w: nat)
    requires m < n < Pow10(w)
    ensures Before(Pad(m, w), Pad(n, w))
  {
    if m / 10 < n / 10 {
      PadIsMonotone(m / 10, n / 10, w - 1);
      BeforeByHead(Pad(m / 10, w - 1), Pad(n / 10, w - 1), [Digit(m % 10)], [Digit(n % 10)]);
    } else {
      BeforeSharedPrefix(Pad(m / 10, w - 1), [Digit(m % 10)], [Digit(n % 10)]);
    }
  }

  lemma {:induction false} ValueOfPad(n: nat, w: nat)
    requires n < Pow10(w)
    ensures Value(Pad(n, w)) == n
  {
    if w > 0 {
      ValueOfPad(n / 10, w - 1);
      assert Pad(n, w)[..w - 1] == Pad(n / 10, w - 1);
    }
  }

  lemma Widths()
    ensures Pow10(2) == 100 && Pow10(3) == 1000 && Pow10(4) == 10000
  {
    assert Pow10(0) == 1 && Pow10(1) == 10;
  }

  /** A numeral before more text decides first; the rest decides ties. */
  lemma {:induction false} NumeralFirst(m: nat, n: nat, w: nat, x: string, y: string)
    requires m < Pow10(w) && n < Pow10(w)
    requires m < n || (m == n && Before(x, y))
    ensures Before(Pad(m, w) + x, Pad(n, w) + y)
  {
    if m < n {
      PadIsMonotone(m, n, w);
      BeforeByHead(Pad(m, w), Pad(n, w), x, y);
    } else {
      BeforeSharedPrefix(Pad(m, w), x, y);
    }
  }

  lemma {:induction false} SeparatorFirst(c: char, x: string, y: string)
    requires Before(x, y)
    ensures Before([c] + x, [c] + y)
  {
    BeforeSharedPrefix([c], x, y);
  }

  // ---------------------------------------------------------------- the calendar

  /** Days from 1 January of year 1 to 1 January of year `y`. */
  function YearStart(y: int): int { 365 * (y - 1) + (y - 1) / 4 - (y - 1) / 100 + (y - 1) / 400 }

  predicate Leap(y: int) { y % 4 == 0 && (y % 100 != 0 || y % 400 == 0) }

  lemma YearLength(y: int)
    ensures YearStart(y + 1) - YearStart(y) == if Leap(y) then 366 else 365
  {
    DivNext(y, 4);
    DivNext(y, 100);
    DivNext(y, 400);
  }

  lemma DivNext(y: int, d: nat)
    requires d == 4 || d == 100 || d == 400
    ensures y / d - (y - 1) / d == if y % d == 0 then 1 else 0
  {
  }

  lemma {:induction false} YearsGrow(a: int, b: int)
    requires a <= b
    ensures YearStart(a) <= YearStart(b)
    decreases b - a
  {
    if a < b {
      YearLength(a);
      YearsGrow(a + 1, b);
    }
  }

  function YearUp(day: int, y: int): (r: int)
    requires YearStart(y) <= day
    ensures y <= r && YearStart(r) <= day < YearStart(r + 1)
    decreases day - YearStart(y)
  {
    YearLength(y);
    if day < YearStart(y + 1) then y else YearUp(day, y + 1)
  }

  function YearDown(day: int, y: int): (r: int)
    requires day < YearStart(y + 1)
    ensures r <= y && YearStart(r) <= day < YearStart(r + 1)
    decreases YearStart(y + 1) - day
  {
    YearLength(y);
    if YearStart(y) <= day then y else YearDown(day, y - 1)
  }

  /** Days of the year before month `m`; month 13 is the next year. */
  function MonthStart(leap: bool, m: nat): nat {
    var l := if leap then 1 else 0;
    if m <= 1 then 0 else if m == 2 then 31 else if m == 3 then 59 + l else if m == 4 then 90 + l
    else if m == 5 then 120 + l else if m == 6 then 151 + l else if m == 7 then 181 + l else if m == 8 then 212 + l
    else if m == 9 then 243 + l else if m == 10 then 273 + l else if m == 11 then 304 + l
    else if m == 12 then 334 + l else 365 + l
  }

  lemma MonthsGrow(leap: bool, a: nat, b: nat)
    requires a <= b
    ensures MonthStart(leap, a) <= MonthStart(leap, b)
  {
  }

  function MonthFrom(leap: bool, dy: nat, m: nat): (r: nat)
    requires 1 <= m && dy < MonthStart(leap, m + 1)
    ensures 1 <= r <= m && MonthStart(leap, r) <= dy < MonthStart(leap, r + 1)
  {
    if MonthStart(leap, m) <= dy then m else MonthFrom(leap, dy, m - 1)
  }

  function YearOf(day: int): (y: int)
    ensures YearStart(y) <= day < YearStart(y + 1)
  {
    if day >= 0 then YearUp(day, 1) else YearDown(day, 0)
  }

  function DayOfYear(day: int): (dy: nat)
    ensures dy < MonthStart(Leap(YearOf(day)), 13)
  {
    YearLength(YearOf(day));
    day - YearStart(YearOf(day))
  }

  function MonthOf(day: int): (m: nat)
    ensures 1 <= m <= 12
  {
    MonthFrom(Leap(YearOf(day)), DayOfYear(day), 12)
  }

  function DayOf(day: int): (d: nat)
    ensures 1 <= d <= 31
  {
    var leap := Leap(YearOf(day));
    var m := MonthFrom(leap, DayOfYear(day), 12);
    DayOfYear(day) - MonthStart(leap, m) + 1
  }

  /** The years that fill four digits. */
  predicate InCalendar(day: int) { 0 <= YearOf(day) <= 9999 }

  /** At least four digits, with a sign before year 0. */
  function YearText(y: int): string {
    if y < 0 then ['-'] + AtLeastFour(-y) else AtLeastFour(y)
  }

  function AtLeastFour(n: nat): string { if n < 10000 then Pad(n, 4) else Dec(n) }

  /** The digits of a year's text. */
  function YearWidth(y: nat): (w: nat)
    ensures w >= 4
  {
    if y < 10000 then 4 else 1 + YearWidth(y / 10)
  }

  lemma {:induction false} DecIsPad(n: nat)
    requires 1000 <= n < 10000
    ensures Dec(n) == Pad(n, 4)
  {
    DecByOne(n);
    DecByOne(n / 10);
    DecByOne(n / 10 / 10);
    assert Dec(n / 10 / 10 / 10) == Pad(n / 10 / 10 / 10, 1);
    assert Pad(n / 10 / 10, 2) == Pad(n / 10 / 10 / 10, 1) + [Digit(n / 10 / 10 % 10)];
    assert Pad(n / 10, 3) == Pad(n / 10 / 10, 2) + [Digit(n / 10 % 10)];
  }

  lemma {:induction false} DecByOne(n: nat)
    requires n >= 10
    ensures Dec(n) == Dec(n / 10) + [Digit(n % 10)]
  {
  }

  /** A year's text is its numeral in that width. */
  lemma {:induction false} YearIsPadded(y: nat)
    ensures AtLeastFour(y) == Pad(y, YearWidth(y)) && y < Pow10(YearWidth(y))
  {
    Widths();
    if y >= 10000 {
      DecByOne(y);
      YearIsPadded(y / 10);
      if y / 10 < 10000 { DecIsPad(y / 10); }
    }
  }

  /** Two days whose years have one width, from year 0 on. */
  predicate SameWidth(a: int, b: int) {
    0 <= YearOf(a) && 0 <= YearOf(b) && YearWidth(YearOf(a)) == YearWidth(YearOf(b))
  }

  function DateText(day: int): (s: string)
    ensures InCalendar(day) ==> |s| == 10
  {
    YearText(YearOf(day)) + MonthText(MonthOf(day), DayOf(day))
  }

  /** A two-digit field and a separator before more text. */
  lemma {:induction false} FieldFirst(m: nat, n: nat, c: char, x: string, y: string)
    requires m < 100 && n < 100 && (m < n || (m == n && Before(x, y)))
    ensures Before([c] + (Pad(m, 2) + x), [c] + (Pad(n, 2) + y))
  {
    Widths();
    NumeralFirst(m, n, 2, x, y);
    SeparatorFirst(c, Pad(m, 2) + x, Pad(n, 2) + y);
  }

  function MonthText(m: nat, d: nat): string { ['-'] + (Pad(m, 2) + (['-'] + (Pad(d, 2) + ""))) }

  lemma MonthFirst(m: nat, d: nat, n: nat, e: nat)
    requires m < 100 && d < 100 && n < 100 && e < 100 && (m < n || (m == n && d < e))
    ensures Before(MonthText(m, d), MonthText(n, e))
  {
    if m == n { FieldFirst(d, e, '-', "", ""); }
    FieldFirst(m, n, '-', ['-'] + (Pad(d, 2) + ""), ['-'] + (Pad(e, 2) + ""));
  }

  /** Days in order have dates in order. */
  lemma DatesInOrder(a: int, b: int)
    requires a < b
    ensures YearOf(a) < YearOf(b) ||
            (YearOf(a) == YearOf(b) && (MonthOf(a) < MonthOf(b) || (MonthOf(a) == MonthOf(b) && DayOf(a) < DayOf(b))))
  {
    var y, z := YearOf(a), YearOf(b);
    if z < y { YearsGrow(z + 1, y); }
    if y == z && MonthOf(b) < MonthOf(a) { MonthsGrow(Leap(y), MonthOf(b) + 1, MonthOf(a)); }
  }

  /** Days in order are texts in order. */
  lemma DateIsMonotone(a: int, b: int)
    requires SameWidth(a, b) && a < b
    ensures Before(DateText(a), DateText(b)) && |DateText(a)| == |DateText(b)|
  {
    DatesInOrder(a, b);
    YearIsPadded(YearOf(a));
    YearIsPadded(YearOf(b));
    if YearOf(a) == YearOf(b) { MonthFirst(MonthOf(a), DayOf(a), MonthOf(b), DayOf(b)); }
    NumeralFirst(YearOf(a), YearOf(b), YearWidth(YearOf(a)), MonthText(MonthOf(a), DayOf(a)),
                 MonthText(MonthOf(b), DayOf(b)));
  }

  // ---------------------------------------------------------------- the time of day

  const DAY: int := 86_400_000   // milliseconds

  /** Hour, minute and second, then `x`. */
  function TimeText(h: nat, mi: nat, s: nat, x: string): (t: string)
    ensures |t| == 8 + |x|
  {
    Pad(h, 2) + ([':'] + (Pad(mi, 2) + ([':'] + (Pad(s, 2) + x))))
  }

  lemma {:induction false} TimeFirst(h: nat, mi: nat, s: nat, x: string, h': nat, mi': nat, s': nat, x': string)
    requires h < 100 && mi < 100 && s < 100 && h' < 100 && mi' < 100 && s' < 100
    requires h < h' || (h == h' && (mi < mi' || (mi == mi' && (s < s' || (s == s' && Before(x, x'))))))
    ensures Before(TimeText(h, mi, s, x), TimeText(h', mi', s', x'))
  {
    Widths();
    if mi == mi' && h == h' { FieldFirst(s, s', ':', x, x'); }
    if h == h' { FieldFirst(mi, mi', ':', [':'] + (Pad(s, 2) + x), [':'] + (Pad(s', 2) + x')); }
    NumeralFirst(h, h', 2, [':'] + (Pad(mi, 2) + ([':'] + (Pad(s, 2) + x))),
                 [':'] + (Pad(mi', 2) + ([':'] + (Pad(s', 2) + x'))));
  }

  function ClockText(r: nat): (s: string)
    ensures |s| == 12
  {
    TimeText(r / 3_600_000, r / 60_000 % 60, r / 1000 % 60, ['.'] + Pad(r % 1000, 3))
  }

  /** A coarser and a finer digit of a mixed-radix number. */
  lemma DigitsInOrder(a: nat, b: nat, d: nat)
    requires d > 0
    ensures a < b <==> a / d < b / d || (a / d == b / d && a % d < b % d)
  {
    Divided(a, d);
    Divided(b, d);
    if a / d < b / d { Scaled(a / d, b / d, d); }
    if b / d < a / d { Scaled(b / d, a / d, d); }
  }

  lemma Divided(a: nat, d: nat)
    requires d > 0
    ensures a == a / d * d + a % d && a % d < d
  {
  }

  lemma {:induction false} Scaled(m: int, n: int, d: nat)
    requires m < n
    ensures m * d + d <= n * d
    decreases n - m
  {
    assert n * d == (n - 1) * d + d;
    if m < n - 1 { Scaled(m, n - 1, d); }
  }

  lemma Nested(r: nat)
    ensures r / 60_000 == r / 1000 / 60 && r / 3_600_000 == r / 60_000 / 60
  {
  }

  lemma ClockIsMonotone(a: nat, b: nat)
    requires a < b < DAY
    ensures Before(ClockText(a), ClockText(b))
  {
    Widths();
    Nested(a);
    Nested(b);
    DigitsInOrder(a, b, 1000);
    DigitsInOrder(a / 1000, b / 1000, 60);
    DigitsInOrder(a / 60_000, b / 60_000, 60);
    if a % 1000 < b % 1000 { FractionInOrder(a % 1000, b % 1000); }
    TimeFirst(a / 3_600_000, a / 60_000 % 60, a / 1000 % 60, ['.'] + Pad(a % 1000, 3),
              b / 3_600_000, b / 60_000 % 60, b / 1000 % 60, ['.'] + Pad(b % 1000, 3));
  }

  lemma {:induction false} FractionInOrder(m: nat, n: nat)
    requires m < n < 1000
    ensures Before(['.'] + Pad(m, 3), ['.'] + Pad(n, 3))
  {
    Widths();
    PadIsMonotone(m, n, 3);
    SeparatorFirst('.', Pad(m, 3), Pad(n, 3));
  }

  // ---------------------------------------------------------------- instants

  const MILLI: int := 1_000_000   // nanoseconds

  /** Milliseconds since the zero time, rounded down. */
  function Milli(t: Time): int { t / MILLI }

  /** In the years 0 to 9999, the ones that fill four digits. */
  predicate FourDigitYear(t: Time) { InCalendar(Milli(t) / DAY) }

  function InstantText(ms: int): (s: string)
    ensures InCalendar(ms / DAY) ==> |s| == 24
  {
    DateText(ms / DAY) + (['T'] + (ClockText(ms % DAY) + ['Z']))
  }

  /** `formatTime`. */
  function FormatTime(t: Time): string {
    if t == ZERO_TIME then "" else InstantText(Milli(t))
  }

  lemma SameDayInOrder(day: int, r: nat, q: nat)
    requires r < q < DAY
    ensures Before(DateText(day) + (['T'] + (ClockText(r) + ['Z'])), DateText(day) + (['T'] + (ClockText(q) + ['Z'])))
  {
    ClockIsMonotone(r, q);
    BeforeByHead(ClockText(r), ClockText(q), ['Z'], ['Z']);
    SeparatorFirst('T', ClockText(r) + ['Z'], ClockText(q) + ['Z']);
    BeforeSharedPrefix(DateText(day), ['T'] + (ClockText(r) + ['Z']), ['T'] + (ClockText(q) + ['Z']));
  }

  lemma DayThenRest(a: int, b: int)
    requires a < b
    ensures a / DAY < b / DAY || (a / DAY == b / DAY && a % DAY < b % DAY)
  {
  }

  /** The earlier day decides. */
  lemma DaysInOrder(day: int, r: nat, later: int, q: nat)
    requires SameWidth(day, later) && day < later && r < DAY && q < DAY
    ensures Before(DateText(day) + (['T'] + (ClockText(r) + ['Z'])), DateText(later) + (['T'] + (ClockText(q) + ['Z'])))
  {
    DateIsMonotone(day, later);
    BeforeByHead(DateText(day), DateText(later), ['T'] + (ClockText(r) + ['Z']), ['T'] + (ClockText(q) + ['Z']));
  }

  lemma InstantIsMonotone(a: int, b: int)
    requires SameWidth(a / DAY, b / DAY) && a < b
    ensures Before(InstantText(a), InstantText(b))
  {
    DayThenRest(a, b);
    if a / DAY < b / DAY {
      DaysInOrder(a / DAY, a % DAY, b / DAY, b % DAY);
    } else {
      SameDayInOrder(a / DAY, a % DAY, b % DAY);
    }
  }

  // ---------------------------------------------------------------- years of different widths

  function YearAt(t: Time): int { YearOf(Milli(t) / DAY) }

  /** `z` without its last `d` digits. */
  function Leading(z: nat, d: nat): nat { if d == 0 then z else Leading(z / 10, d - 1) }

  /** The numeral of `z` starts with that of its leading digits. */
  lemma {:induction false} LeadingDigits(z: nat, w: nat, d: nat) returns (rest: string)
    requires z < Pow10(w + d)
    ensures Pad(z, w + d) == Pad(Leading(z, d), w) + rest && |rest| == d && AllDigits(rest)
    ensures Leading(z, d) < Pow10(w)
  {
    if d == 0 {
      rest := "";
    } else {
      var r := LeadingDigits(z / 10, w, d - 1);
      rest := r + [Digit(z % 10)];
      Regroup(Pad(Leading(z, d), w), r, [Digit(z % 10)]);
    }
  }

  /** The years have one width, or the shorter one is at most the longer one's leading digits. */
  predicate Comparable(y: nat, z: nat) {
    var v, w := YearWidth(y), YearWidth(z);
    if v <= w then v == w || y <= Leading(z, w - v) else z <= Leading(y, v - w)
  }

  /** The text is a year and then a dash and more. */
  predicate Starts(s: string, y: nat, x: string) {
    s == Pad(y, YearWidth(y)) + x && x != "" && x[0] == '-'
  }

  lemma YearThenRest(ms: int) returns (x: string)
    requires YearOf(ms / DAY) >= 0
    ensures Starts(InstantText(ms), YearOf(ms / DAY), x)
  {
    var y, m := YearText(YearOf(ms / DAY)), MonthText(MonthOf(ms / DAY), DayOf(ms / DAY));
    x := m + (['T'] + (ClockText(ms % DAY) + ['Z']));
    YearIsPadded(YearOf(ms / DAY));
    Regroup(y, m, ['T'] + (ClockText(ms % DAY) + ['Z']));
  }

  /** A shorter year against a longer one: the longer one's leading digits decide, and the dash after
      the shorter one is below every digit. */
  lemma {:induction false} ShorterYear(s: string, y: nat, x: string, t: string, z: nat, x': string)
    requires YearWidth(y) < YearWidth(z) && Starts(s, y, x) && Starts(t, z, x')
    ensures if Comparable(y, z) then Before(s, t) else Before(t, s)
  {
    var w, d := YearWidth(y), YearWidth(z) - YearWidth(y);
    YearIsPadded(y);
    YearIsPadded(z);
    var rest := LeadingDigits(z, w, d);
    Regroup(Pad(Leading(z, d), w), rest, x');
    assert IsDigit(rest[0]) && (rest + x')[0] == rest[0];
    if y <= Leading(z, d) {
      NumeralFirst(y, Leading(z, d), w, x, rest + x');
    } else {
      NumeralFirst(Leading(z, d), y, w, rest + x', x);
    }
  }

  // ---------------------------------------------------------------- the order of the texts

  lemma {:induction false} WidthsGrow(y: nat, z: nat)
    requires y <= z
    ensures YearWidth(y) <= YearWidth(z)
  {
    if y >= 10000 { WidthsGrow(y / 10, z / 10); }
  }

  lemma LaterMilliLaterYear(a: int, b: int)
    requires a < b
    ensures YearOf(a / DAY) <= YearOf(b / DAY)
  {
    DayThenRest(a, b);
    var y, z := YearOf(a / DAY), YearOf(b / DAY);
    if z < y { YearsGrow(z + 1, y); }
  }

  lemma ShorterInstant(a: int, b: int)
    requires 0 <= YearOf(a / DAY) && 0 <= YearOf(b / DAY)
    requires YearWidth(YearOf(a / DAY)) < YearWidth(YearOf(b / DAY))
    ensures if Comparable(YearOf(a / DAY), YearOf(b / DAY)) then Before(InstantText(a), InstantText(b))
            else Before(InstantText(b), InstantText(a))
  {
    var x := YearThenRest(a);
    var x' := YearThenRest(b);
    ShorterYear(InstantText(a), YearOf(a / DAY), x, InstantText(b), YearOf(b / DAY), x');
  }

  lemma EarlierText(a: int, b: int)
    requires 0 <= YearOf(a / DAY) && 0 <= YearOf(b / DAY) && a < b
    ensures if Comparable(YearOf(a / DAY), YearOf(b / DAY)) then Before(InstantText(a), InstantText(b))
            else Before(InstantText(b), InstantText(a))
  {
    var y, z := YearOf(a / DAY), YearOf(b / DAY);
    LaterMilliLaterYear(a, b);
    WidthsGrow(y, z);
    if YearWidth(y) == YearWidth(z) {
      InstantIsMonotone(a, b);
    } else {
      ShorterInstant(a, b);
    }
  }

  /** WHEN TIMES SORT, for non-zero instants from year 0 on: the byte order of the texts is the order
      of the instants cut to milliseconds if and only if these are the same, the years have one
      width, or the shorter year is at most the longer one's leading digits. */
  lemma TimesSortIff(a: Time, b: Time)
    requires YearAt(a) >= 0 && YearAt(b) >= 0 && a != ZERO_TIME && b != ZERO_TIME
    ensures (Before(FormatTime(a), FormatTime(b)) <==> Milli(a) < Milli(b)) <==> Comparable(YearAt(a), YearAt(b))
    ensures FormatTime(a) == FormatTime(b) <==> Milli(a) == Milli(b)
  {
    BeforeIsStrict(FormatTime(a));
    if Milli(a) < Milli(b) {
      EarlierText(Milli(a), Milli(b));
    } else if Milli(b) < Milli(a) {
      EarlierText(Milli(b), Milli(a));
    }
    if Before(FormatTime(a), FormatTime(b)) { BeforeIsAsymmetric(FormatTime(a), FormatTime(b)); }
    if Before(FormatTime(b), FormatTime(a)) { BeforeIsAsymmetric(FormatTime(b), FormatTime(a)); }
  }

  /** FIXED-WIDTH TIMES SORT CORRECTLY: for non-zero instants in four-digit years, the byte
      order of the texts is the order of the instants cut to milliseconds, and the texts are
      equal exactly when the milliseconds are. */
  lemma TimesSort(a: Time, b: Time)
    requires FourDigitYear(a) && FourDigitYear(b) && a != ZERO_TIME && b != ZERO_TIME
    ensures Before(FormatTime(a), FormatTime(b)) <==> Milli(a) < Milli(b)
    ensures FormatTime(a) == FormatTime(b) <==> Milli(a) == Milli(b)
  {
    TimesSortIff(a, b);
  }

  // ---------------------------------------------------------------- reading back

  function DayNumber(y: nat, m: nat, d: nat): int { YearStart(y) + MonthStart(Leap(y), m) + d - 1 }

  predicate Shaped(s: string) {
    && |s| == 24 && s[4] == '-' && s[7] == '-' && s[10] == 'T' && s[13] == ':' && s[16] == ':' && s[19] == '.'
    && s[23] == 'Z'
    && AllDigits(s[..4]) && AllDigits(s[5..7]) && AllDigits(s[8..10]) && AllDigits(s[11..13])
    && AllDigits(s[14..16]) && AllDigits(s[17..19]) && AllDigits(s[20..23])
  }

  /** `parseTime`, on texts of the fixed shape; `time.Parse` reads other shapes too. */
  function ParseTime(s: string): Option<Time> {
    if s == "" then Some(ZERO_TIME)
    else if !Shaped(s) then None
    else
      Some(Assembled(Value(s[..4]), Value(s[5..7]), Value(s[8..10]), Value(s[11..13]), Value(s[14..16]),
                     Value(s[17..19]), Value(s[20..23])))
  }

  lemma DateFields(day: int, x: string)
    requires InCalendar(day)
    ensures var s := DateText(day) + x;
            && s[..4] == Pad(YearOf(day), 4) && s[4] == '-' && s[5..7] == Pad(MonthOf(day), 2)
            && s[7] == '-' && s[8..10] == Pad(DayOf(day), 2) && s[10..] == x
  {
    var s := DateText(day) + x;
    assert s == Pad(YearOf(day), 4) + ['-'] + Pad(MonthOf(day), 2) + ['-'] + Pad(DayOf(day), 2) + x;
  }

  lemma {:induction false} TimeFields(h: nat, mi: nat, s: nat, x: string)
    ensures var t := TimeText(h, mi, s, x);
            && t[..2] == Pad(h, 2) && t[2] == ':' && t[3..5] == Pad(mi, 2)
            && t[5] == ':' && t[6..8] == Pad(s, 2) && t[8..] == x
  {
    var t := TimeText(h, mi, s, x);
    assert t == Pad(h, 2) + [':'] + Pad(mi, 2) + [':'] + Pad(s, 2) + x;
  }

  lemma DayNumberOf(day: int)
    requires InCalendar(day)
    ensures DayNumber(YearOf(day), MonthOf(day), DayOf(day)) == day
  {
  }

  lemma SecondsOf(r: nat)
    requires r < DAY
    ensures (r / 3_600_000 * 3600 + r / 60_000 % 60 * 60 + r / 1000 % 60) * 1000 + r % 1000 == r
    ensures r / 3_600_000 < 100
  {
    Nested(r);
    Divided(r, 1000);
    Divided(r / 1000, 60);
    Divided(r / 60_000, 60);
  }

  /** The text of an instant, field by field. */
  lemma InstantFields(ms: int)
    requires InCalendar(ms / DAY)
    ensures var s, day, r := InstantText(ms), ms / DAY, ms % DAY;
            && Shaped(s)
            && s[..4] == Pad(YearOf(day), 4) && s[5..7] == Pad(MonthOf(day), 2) && s[8..10] == Pad(DayOf(day), 2)
            && s[11..13] == Pad(r / 3_600_000, 2) && s[14..16] == Pad(r / 60_000 % 60, 2)
            && s[17..19] == Pad(r / 1000 % 60, 2) && s[20..23] == Pad(r % 1000, 3)
  {
    var s, day, r := InstantText(ms), ms / DAY, ms % DAY;
    var tail := ['T'] + (ClockText(r) + ['Z']);
    DateFields(day, tail);
    TimeFields(r / 3_600_000, r / 60_000 % 60, r / 1000 % 60, ['.'] + Pad(r % 1000, 3));
    var t := ClockText(r);
    assert s[10..] == tail;
    assert forall i :: 0 <= i < 12 ==> s[11 + i] == tail[1 + i] && tail[1 + i] == t[i];
    assert s[11..13] == t[..2] && s[14..16] == t[3..5] && s[17..19] == t[6..8];
    assert s[20..23] == t[8..][1..];
  }

  lemma InstantValues(ms: int)
    requires InCalendar(ms / DAY)
    ensures var s, day, r := InstantText(ms), ms / DAY, ms % DAY;
            && Shaped(s)
            && Value(s[..4]) == YearOf(day) && Value(s[5..7]) == MonthOf(day) && Value(s[8..10]) == DayOf(day)
            && Value(s[11..13]) == r / 3_600_000 && Value(s[14..16]) == r / 60_000 % 60
            && Value(s[17..19]) == r / 1000 % 60 && Value(s[20..23]) == r % 1000
  {
    var day, r := ms / DAY, ms % DAY;
    Widths();
    InstantFields(ms);
    ValueOfPad(YearOf(day), 4);
    ValueOfPad(MonthOf(day), 2);
    ValueOfPad(DayOf(day), 2);
    SecondsOf(r);
    ValueOfPad(r / 3_600_000, 2);
    ValueOfPad(r / 60_000 % 60, 2);
    ValueOfPad(r / 1000 % 60, 2);
    ValueOfPad(r % 1000, 3);
  }

  function Assembled(y: nat, m: nat, d: nat, h: nat, mi: nat, s: nat, f: nat): Time {
    (DayNumber(y, m, d) * DAY + (h * 3600 + mi * 60 + s) * 1000 + f) * MILLI
  }

  lemma Reassembled(ms: int)
    requires InCalendar(ms / DAY)
    ensures var day, r := ms / DAY, ms % DAY;
            Assembled(YearOf(day), MonthOf(day), DayOf(day), r / 3_600_000, r / 60_000 % 60, r / 1000 % 60, r % 1000) ==
              ms * MILLI
  {
    DayNumberOf(ms / DAY);
    SecondsOf(ms % DAY);
  }

  /** Reading back gives the instant, cut to milliseconds. */
  lemma ParseOfFormat(t: Time)
    requires FourDigitYear(t)
    ensures ParseTime(FormatTime(t)) == Some(Milli(t) * MILLI)
  {
    if t != ZERO_TIME {
      InstantValues(Milli(t));
      Reassembled(Milli(t));
    }
  }

  // ---------------------------------------------------------------- a bound that reads as year 10000

  lemma YearIs(day: int, y: int)
    requires YearStart(y) <= day < YearStart(y + 1)
    ensures YearOf(day) == y
  {
    if YearOf(day) < y { YearsGrow(YearOf(day) + 1, y); }
    if y < YearOf(day) { YearsGrow(y + 1, YearOf(day)); }
  }

  /** What "9999-12-31T23:59:59-01:00" says: an hour later in UTC (section 4.2 of RFC 3339). */
  const FAR_BOUND: Time := Assembled(9999, 12, 31, 23, 59, 59, 0) + 3600 * 1000 * MILLI

  lemma FarBoundIsYear10000()
    ensures YearAt(FAR_BOUND) == 10000 && FAR_BOUND > ZERO_TIME
  {
    var day := YearStart(10000);
    assert DayNumber(9999, 12, 31) == day - 1;
    assert Milli(FAR_BOUND) == day * DAY + 3599 * 1000;
    assert Milli(FAR_BOUND) / DAY == day;
    YearIs(day, 10000);
  }

  lemma Year10000Leads(y: nat)
    requires 1001 <= y <= 9999
    ensures !Comparable(y, 10000)
  {
    assert YearWidth(y) == 4 && YearWidth(1000) == 4;
    assert Leading(10000, 1) == Leading(1000, 0) == 1000;
  }

  lemma Year10000SortsFirst(a: int, b: int)
    requires 1001 <= YearOf(a / DAY) <= 9999 && YearOf(b / DAY) == 10000
    ensures a < b && Before(InstantText(b), InstantText(a))
  {
    Year10000Leads(YearOf(a / DAY));
    if b < a { LaterMilliLaterYear(b, a); }
    EarlierText(a, b);
  }

  /** It is later than every instant of a four-digit year, but its text is before those of all from
      year 1001 on. */
  lemma FarBoundSortsFirst(t: Time)
    requires 1001 <= YearAt(t) <= 9999 && t != ZERO_TIME
    ensures t < FAR_BOUND && Before(FormatTime(FAR_BOUND), FormatTime(t))
  {
    FarBoundIsYear10000();
    Year10000SortsFirst(Milli(t), Milli(FAR_BOUND));
  }

  // ---------------------------------------------------------------- known instants

  const SECOND: int := 1_000_000_000

  /** The calendar stands where it should: the Unix epoch, the leap day of 2000, the end of a year
      of 366 days, and the common years 1900 and 2100. */
  lemma KnownInstants()
    ensures Assembled(1, 1, 1, 0, 0, 0, 0) == ZERO_TIME
    ensures Assembled(1970, 1, 1, 0, 0, 0, 0) == 62_135_596_800 * SECOND
    ensures Assembled(2000, 2, 29, 0, 0, 0, 0) == Assembled(1970, 1, 1, 0, 0, 0, 0) + 951_782_400 * SECOND
    ensures Assembled(2024, 12, 31, 23, 59, 59, 999) ==
              Assembled(1970, 1, 1, 0, 0, 0, 0) + 1_735_689_599 * SECOND + 999 * MILLI
    ensures Assembled(1900, 3, 1, 0, 0, 0, 0) == Assembled(1970, 1, 1, 0, 0, 0, 0) - 2_203_891_200 * SECOND
    ensures Assembled(2100, 3, 1, 0, 0, 0, 0) == Assembled(1970, 1, 1, 0, 0, 0, 0) + 4_107_542_400 * SECOND
  {
  }
}
