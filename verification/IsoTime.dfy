/**
 UTC instants and their ISO 8601 texts as Python's `isoformat()` writes them: the
 fraction is left out when it is zero.  The cache script compares these texts as
 strings, so string order has to be time order.
 */
module IsoTime {

  datatype Instant = Instant(year: int, month: int, day: int, hour: int, minute: int, second: int, micro: int)

  // ---------------------------------------------------------------- the calendar

  predicate Leap(year: int) {
    year % 4 == 0 && (year % 100 != 0 || year % 400 == 0)
  }

  function DaysInMonth(year: int, month: int): int {
    if month == 2 then (if Leap(year) then 29 else 28)
    else if month == 4 || month == 6 || month == 9 || month == 11 then 30
    else 31
  }

  function DaysBeforeYear(year: int): int {
    (year - 1) * 365 + (year - 1) / 4 - (year - 1) / 100 + (year - 1) / 400
  }

  function DaysBeforeMonth(year: int, month: int): int
    requires 1 <= month
    decreases month
  {
    if month == 1 then 0 else DaysBeforeMonth(year, month - 1) + DaysInMonth(year, month - 1)
  }

  predicate Valid(t: Instant) {
    && 1 <= t.year <= 9999 && 1 <= t.month <= 12 && 1 <= t.day <= DaysInMonth(t.year, t.month)
    && 0 <= t.hour < 24 && 0 <= t.minute < 60 && 0 <= t.second < 60 && 0 <= t.micro < 1_000_000
  }

  /** The proleptic Gregorian ordinal of the day. */
  function Ordinal(t: Instant): int
    requires Valid(t)
  {
    DaysBeforeYear(t.year) + DaysBeforeMonth(t.year, t.month) + t.day
  }

  /** Microseconds on the UTC time line. */
  function Micros(t: Instant): int
    requires Valid(t)
  {
    (((Ordinal(t) * 24 + t.hour) * 60 + t.minute) * 60 + t.second) * 1_000_000 + t.micro
  }

  lemma QuotientSteps(n: int)
    ensures n / 4 == (n - 1) / 4 + if n % 4 == 0 then 1 else 0
    ensures n / 100 == (n - 1) / 100 + if n % 100 == 0 then 1 else 0
    ensures n / 400 == (n - 1) / 400 + if n % 400 == 0 then 1 else 0
  {
  }

  lemma CenturiesAreFourths(n: int)
    ensures n % 100 == 0 ==> n % 4 == 0
    ensures n % 400 == 0 ==> n % 100 == 0
  {
    MultipleOfFour(25 * (n / 100));
    MultipleOfHundred(4 * (n / 400));
  }

  lemma MultipleOfFour(q: int)
    ensures 4 * q % 4 == 0
  {
  }

  lemma MultipleOfHundred(q: int)
    ensures 100 * q % 100 == 0
  {
  }

  lemma YearLength(year: int)
    requires 1 <= year
    ensures DaysBeforeYear(year + 1) == DaysBeforeYear(year) + if Leap(year) then 366 else 365
  {
    QuotientSteps(year);
    CenturiesAreFourths(year);
    var d := (if year % 4 == 0 then 1 else 0) - (if year % 100 == 0 then 1 else 0) + (if year % 400 == 0 then 1 else 0);
    assert d == if Leap(year) then 1 else 0;
  }

  lemma {:induction false} YearsInOrder(year: int, year': int)
    requires 1 <= year <= year'
    ensures DaysBeforeYear(year) <= DaysBeforeYear(year')
    decreases year' - year
  {
    if year < year' {
      YearLength(year);
      YearsInOrder(year + 1, year');
    }
  }

  lemma {:induction false} MonthsInOrder(year: int, month: int, month': int)
    requires 1 <= month <= month'
    ensures DaysBeforeMonth(year, month) <= DaysBeforeMonth(year, month')
    decreases month' - month
  {
    if month < month' {
      MonthsInOrder(year, month, month' - 1);
    }
  }

  lemma MonthsFillYear(year: int)
    ensures DaysBeforeMonth(year, 13) == if Leap(year) then 366 else 365
  {
    assert DaysBeforeMonth(year, 3) == 31 + DaysInMonth(year, 2);
    assert DaysBeforeMonth(year, 5) == DaysBeforeMonth(year, 3) + 61;
    assert DaysBeforeMonth(year, 7) == DaysBeforeMonth(year, 5) + 61;
    assert DaysBeforeMonth(year, 9) == DaysBeforeMonth(year, 7) + 62;
    assert DaysBeforeMonth(year, 11) == DaysBeforeMonth(year, 9) + 61;
    assert DaysBeforeMonth(year, 13) == DaysBeforeMonth(year, 11) + 61;
  }

  predicate EarlierDate(a: Instant, b: Instant) {
    a.year < b.year || (a.year == b.year && (a.month < b.month || (a.month == b.month && a.day < b.day)))
  }

  lemma EarlierDateHasSmallerOrdinal(a: Instant, b: Instant)
    requires Valid(a) && Valid(b) && EarlierDate(a, b)
    ensures Ordinal(a) < Ordinal(b)
  {
    hide DaysBeforeYear;
    hide Leap;
    MonthsInOrder(b.year, 1, b.month);
    if a.year < b.year {
      MonthsInOrder(a.year, a.month + 1, 13);
      MonthsFillYear(a.year);
      YearLength(a.year);
      YearsInOrder(a.year + 1, b.year);
    } else if a.month < b.month {
      MonthsInOrder(a.year, a.month + 1, b.month);
    }
  }

  predicate EarlierFields(a: Instant, b: Instant) {
    || EarlierDate(a, b)
    || (a.year == b.year && a.month == b.month && a.day == b.day &&
        (a.hour < b.hour || (a.hour == b.hour &&
         (a.minute < b.minute || (a.minute == b.minute &&
          (a.second < b.second || (a.second == b.second && a.micro < b.micro)))))))
  }

  lemma EarlierFieldsIsEarlier(a: Instant, b: Instant)
    requires Valid(a) && Valid(b)
    ensures EarlierFields(a, b) <==> Micros(a) < Micros(b)
  {
    if EarlierDate(a, b) {
      EarlierDateHasSmallerOrdinal(a, b);
    } else if EarlierDate(b, a) {
      EarlierDateHasSmallerOrdinal(b, a);
    } else {
      assert Ordinal(a) == Ordinal(b);
    }
  }

  /** The lengths of the months as the calendar lists them. */
  lemma MonthLengths(year: int, month: int)
    requires 1 <= month <= 12
    ensures
      DaysInMonth(year, month) ==
      if month == 2 && Leap(year) then 29 else [31, 28, 31, 30, 31, 30, 31, 31, 30, 31, 30, 31][month - 1]
  {
  }

  /** The next microsecond on the clock and in the calendar. */
  function Following(t: Instant): Instant {
    if t.micro < 999_999 then t.(micro := t.micro + 1)
    else if t.second < 59 then t.(second := t.second + 1, micro := 0)
    else if t.minute < 59 then t.(minute := t.minute + 1, second := 0, micro := 0)
    else if t.hour < 23 then t.(hour := t.hour + 1, minute := 0, second := 0, micro := 0)
    else if t.day < DaysInMonth(t.year, t.month) then Instant(t.year, t.month, t.day + 1, 0, 0, 0, 0)
    else if t.month < 12 then Instant(t.year, t.month + 1, 1, 0, 0, 0, 0)
    else Instant(t.year + 1, 1, 1, 0, 0, 0, 0)
  }

  /** The time line has no gaps and no repetitions: each microsecond is one later than the one before it. */
  lemma TimeLineIsContinuous(t: Instant)
    requires Valid(t) && t.year < 9999
    ensures Valid(Following(t)) && Micros(Following(t)) == Micros(t) + 1
  {
    if Following(t).year != t.year {
      MonthsFillYear(t.year);
      assert DaysBeforeMonth(t.year, 13) == DaysBeforeMonth(t.year, 12) + 31;
      YearLength(t.year);
    }
    hide DaysBeforeYear;
    hide Leap;
    assert Ordinal(Following(t)) == Ordinal(t) + if Following(t).(micro := 0).hour == 0 && t.hour == 23 then 1 else 0;
  }

  // ---------------------------------------------------------------- texts

  function Pad(n: int, width: nat): (s: string)
    requires 0 <= n
    ensures |s| == width
    decreases width
  {
    if width == 0 then "" else Pad(n / 10, width - 1) + [('0' as int + n % 10) as char]
  }

  function Fraction(micro: int): string
    requires 0 <= micro
  {
    if micro == 0 then "+00:00" else "." + (Pad(micro, 6) + "+00:00")
  }

  function IsoFormat(t: Instant): string
    requires Valid(t)
  {
    Pad(t.year, 4) + ("-" + (Pad(t.month, 2) + ("-" + (Pad(t.day, 2) + ("T" +
    (Pad(t.hour, 2) + (":" + (Pad(t.minute, 2) + (":" + (Pad(t.second, 2) + Fraction(t.micro)))))))))))
  }

  /** Lua's `<` on strings. */
  predicate LexLess(a: string, b: string) {
    b != "" && (a == "" || a[0] < b[0] || (a[0] == b[0] && LexLess(a[1..], b[1..])))
  }

  lemma {:induction false} LexAfterSame(p: string, s: string, t: string)
    ensures LexLess(p + s, p + t) <==> LexLess(s, t)
  {
    if p == "" {
      assert p + s == s && p + t == t;
    } else {
      LexAfterSame(p[1..], s, t);
      assert (p + s)[1..] == p[1..] + s && (p + t)[1..] == p[1..] + t;
    }
  }

  lemma {:induction false} LexAfterDifferent(p: string, q: string, s: string, t: string)
    requires |p| == |q| && p != q
    ensures LexLess(p + s, q + t) <==> LexLess(p, q)
  {
    assert (p + s)[1..] == p[1..] + s && (q + t)[1..] == q[1..] + t;
    if p[0] == q[0] {
      assert p == [p[0]] + p[1..] && q == [q[0]] + q[1..];
      LexAfterDifferent(p[1..], q[1..], s, t);
    }
  }

  lemma LexIrreflexive(s: string)
    ensures !LexLess(s, s)
  {
  }

  function Power10(n: nat): int {
    if n == 0 then 1 else 10 * Power10(n - 1)
  }

  /** Zero-padded numbers of one width are ordered, and told apart, like the numbers. */
  lemma {:induction false} PadInOrder(a: int, b: int, width: nat)
    requires 0 <= a < Power10(width) && 0 <= b < Power10(width)
    ensures LexLess(Pad(a, width), Pad(b, width)) <==> a < b
    ensures Pad(a, width) == Pad(b, width) <==> a == b
  {
    if width > 0 {
      PadInOrder(a / 10, b / 10, width - 1);
      var p, q := Pad(a / 10, width - 1), Pad(b / 10, width - 1);
      var c, d := [('0' as int + a % 10) as char], [('0' as int + b % 10) as char];
      if p == q {
        LexAfterSame(p, c, d);
        assert (p + c)[width - 1] == c[0] && (q + d)[width - 1] == d[0];
      } else {
        LexAfterDifferent(p, q, c, d);
        assert (p + c)[..width - 1] == p && (q + d)[..width - 1] == q;
      }
    }
  }

  lemma LexField(a: int, b: int, width: nat, s: string, t: string)
    requires 0 <= a < Power10(width) && 0 <= b < Power10(width)
    ensures LexLess(Pad(a, width) + s, Pad(b, width) + t) <==> a < b || (a == b && LexLess(s, t))
  {
    PadInOrder(a, b, width);
    if a == b {
      LexAfterSame(Pad(a, width), s, t);
    } else {
      LexAfterDifferent(Pad(a, width), Pad(b, width), s, t);
    }
  }

  lemma LexSeparatedField(mark: char, a: int, b: int, width: nat, s: string, t: string)
    requires 0 <= a < Power10(width) && 0 <= b < Power10(width)
    ensures
      LexLess([mark] + (Pad(a, width) + s), [mark] + (Pad(b, width) + t)) <==> a < b || (a == b && LexLess(s, t))
  {
    LexField(a, b, width, s, t);
    LexAfterSame([mark], Pad(a, width) + s, Pad(b, width) + t);
  }

  /** The missing fraction does no harm: '+' sorts before '.'. */
  lemma LexFraction(a: int, b: int)
    requires 0 <= a < 1_000_000 && 0 <= b < 1_000_000
    ensures LexLess(Fraction(a), Fraction(b)) <==> a < b
  {
    assert Power10(6) == 1_000_000 by { assert Power10(3) == 1000; }
    if a != 0 && b != 0 {
      LexSeparatedField('.', a, b, 6, "+00:00", "+00:00");
      LexIrreflexive("+00:00");
    } else if a == 0 && b == 0 {
      LexIrreflexive("+00:00");
    } else {
      assert '+' < '.';
    }
  }

  /** String order of ISO texts is time order, for all UTC instants. */
  lemma IsoOrderIsTimeOrder(a: Instant, b: Instant)
    requires Valid(a) && Valid(b)
    ensures LexLess(IsoFormat(a), IsoFormat(b)) <==> Micros(a) < Micros(b)
  {
    EarlierFieldsIsEarlier(a, b);
    IsoOrderIsFieldOrder(a, b);
  }

  function Clock(t: Instant): string
    requires Valid(t)
  {
    "T" + (Pad(t.hour, 2) + (":" + (Pad(t.minute, 2) + (":" + (Pad(t.second, 2) + Fraction(t.micro))))))
  }

  lemma ClockInOrder(a: Instant, b: Instant)
    requires Valid(a) && Valid(b)
    ensures
      LexLess(Clock(a), Clock(b)) <==>
        a.hour < b.hour || (a.hour == b.hour &&
         (a.minute < b.minute || (a.minute == b.minute &&
          (a.second < b.second || (a.second == b.second && a.micro < b.micro)))))
  {
    hide LexLess;
    hide Pad;
    hide Fraction;
    assert Power10(2) == 100;
    var s, t := ":" + (Pad(a.second, 2) + Fraction(a.micro)), ":" + (Pad(b.second, 2) + Fraction(b.micro));
    LexFraction(a.micro, b.micro);
    LexSeparatedField(':', a.second, b.second, 2, Fraction(a.micro), Fraction(b.micro));
    LexSeparatedField(':', a.minute, b.minute, 2, s, t);
    LexSeparatedField('T', a.hour, b.hour, 2, ":" + (Pad(a.minute, 2) + s), ":" + (Pad(b.minute, 2) + t));
  }

  lemma IsoOrderIsFieldOrder(a: Instant, b: Instant)
    requires Valid(a) && Valid(b)
    ensures LexLess(IsoFormat(a), IsoFormat(b)) <==> EarlierFields(a, b)
  {
    hide LexLess;
    hide Pad;
    hide Clock;
    assert Power10(2) == 100 && Power10(4) == 10000;
    var s, t := "-" + (Pad(a.day, 2) + Clock(a)), "-" + (Pad(b.day, 2) + Clock(b));
    ClockInOrder(a, b);
    LexSeparatedField('-', a.day, b.day, 2, Clock(a), Clock(b));
    LexSeparatedField('-', a.month, b.month, 2, s, t);
    LexField(a.year, b.year, 4, "-" + (Pad(a.month, 2) + s), "-" + (Pad(b.month, 2) + t));
    IsoFormatEndsInClock(a);
    IsoFormatEndsInClock(b);
  }

  lemma IsoFormatEndsInClock(t: Instant)
    requires Valid(t)
    ensures IsoFormat(t) == Pad(t.year, 4) + ("-" + (Pad(t.month, 2) + ("-" + (Pad(t.day, 2) + Clock(t)))))
  {
  }

  /** The number that a text of decimal digits stands for. */
  function Number(s: string): int {
    if s == "" then 0 else Number(s[..|s| - 1]) * 10 + (s[|s| - 1] as int - '0' as int)
  }

  lemma {:induction false} NumberOfPad(n: int, width: nat)
    requires 0 <= n < Power10(width)
    ensures Number(Pad(n, width)) == n
  {
    if width > 0 {
      NumberOfPad(n / 10, width - 1);
      assert Pad(n, width)[..width - 1] == Pad(n / 10, width - 1);
    }
  }

  /** A field of fixed width and its mark at the start of a text. */
  lemma FieldAndMark(field: string, mark: char, rest: string)
    ensures
      var s := field + ([mark] + rest);
      && |s| == |field| + 1 + |rest|
      && s[..|field|] == field && s[|field|] == mark && s[|field| + 1..] == rest
  {
  }

  lemma DateSlices(y: string, m: string, d: string, rest: string)
    requires |y| == 4 && |m| == 2 && |d| == 2
    ensures
      var s := y + ("-" + (m + ("-" + (d + rest))));
      && |s| == 10 + |rest| && s[0..4] == y && s[4] == '-' && s[5..7] == m && s[7] == '-' && s[8..10] == d
      && s[10..] == rest
  {
    var days := m + ("-" + (d + rest));
    var s := y + ("-" + days);
    FieldAndMark(y, '-', days);
    FieldAndMark(m, '-', d + rest);
    assert s[5..7] == days[..2] && s[7] == days[2] && s[8..] == days[3..];
    assert s[8..10] == s[8..][..2] && s[10..] == s[8..][2..];
  }

  lemma ClockSlices(h: string, m: string, sec: string, rest: string)
    requires |h| == 2 && |m| == 2 && |sec| == 2
    ensures
      var s := "T" + (h + (":" + (m + (":" + (sec + rest)))));
      && |s| == 9 + |rest| && s[0] == 'T' && s[1..3] == h && s[3] == ':' && s[4..6] == m && s[6] == ':'
      && s[7..9] == sec && s[9..] == rest
  {
    var minutes := m + (":" + (sec + rest));
    var hours := h + (":" + minutes);
    var s := "T" + hours;
    FieldAndMark(h, ':', minutes);
    FieldAndMark(m, ':', sec + rest);
    assert s[1..] == hours && s[1..3] == hours[..2] && s[3] == hours[2] && s[4..] == minutes;
    assert s[4..6] == s[4..][..2] && s[6] == s[4..][2] && s[7..] == s[4..][3..];
    assert s[7..9] == s[7..][..2] && s[9..] == s[7..][2..];
  }

  /** The text has the form YYYY-MM-DD, followed by the clock. */
  lemma TextShowsTheDate(t: Instant)
    requires Valid(t)
    ensures
      var s := IsoFormat(t);
      && |s| == 10 + |Clock(t)| && s[10..] == Clock(t)
      && Number(s[0..4]) == t.year && s[4] == '-' && Number(s[5..7]) == t.month && s[7] == '-'
      && Number(s[8..10]) == t.day
  {
    assert Power10(2) == 100 && Power10(4) == 10000;
    NumberOfPad(t.year, 4);
    NumberOfPad(t.month, 2);
    NumberOfPad(t.day, 2);
    hide Pad;
    hide Number;
    hide Power10;
    DateSlices(Pad(t.year, 4), Pad(t.month, 2), Pad(t.day, 2), Clock(t));
  }

  lemma FractionShowsTheMicros(micro: int)
    requires 0 <= micro < 1_000_000
    ensures micro == 0 ==> Fraction(micro) == "+00:00"
    ensures
      var s := Fraction(micro);
      micro != 0 ==> |s| == 13 && s[0] == '.' && Number(s[1..7]) == micro && s[7..] == "+00:00"
  {
    assert Power10(6) == 1_000_000 by { assert Power10(3) == 1000; }
    NumberOfPad(micro, 6);
    hide Number;
    hide Pad;
    assert micro != 0 ==> Fraction(micro)[1..7] == Pad(micro, 6) && Fraction(micro)[7..] == "+00:00";
  }

  /** The clock has the form THH:MM:SS, the fraction of six digits unless it is zero, and the UTC offset. */
  lemma TextShowsTheClock(t: Instant)
    requires Valid(t)
    ensures
      var s := Clock(t);
      && |s| == (if t.micro == 0 then 15 else 22) && s[0] == 'T'
      && Number(s[1..3]) == t.hour && s[3] == ':' && Number(s[4..6]) == t.minute && s[6] == ':'
      && Number(s[7..9]) == t.second
      && (t.micro == 0 ==> s[9..] == "+00:00")
      && (t.micro != 0 ==> s[9] == '.' && Number(s[9..][1..7]) == t.micro && s[9..][7..] == "+00:00")
  {
    assert Power10(2) == 100;
    NumberOfPad(t.hour, 2);
    NumberOfPad(t.minute, 2);
    NumberOfPad(t.second, 2);
    FractionShowsTheMicros(t.micro);
    hide Pad;
    hide Number;
    hide Power10;
    ClockSlices(Pad(t.hour, 2), Pad(t.minute, 2), Pad(t.second, 2), Fraction(t.micro));
    hide Fraction;
    assert Clock(t)[9..] == Fraction(t.micro);
  }

  /** Equal texts are equal instants, so a stored text stands for exactly one time. */
  lemma IsoFormatIsInjective(a: Instant, b: Instant)
    requires Valid(a) && Valid(b) && IsoFormat(a) == IsoFormat(b)
    ensures Micros(a) == Micros(b) && a == b
  {
    IsoOrderIsFieldOrder(a, b);
    IsoOrderIsFieldOrder(b, a);
    LexIrreflexive(IsoFormat(a));
  }
}
