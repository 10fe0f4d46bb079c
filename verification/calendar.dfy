/** Gregorian calendar arithmetic behind `yesterday_str` (Python's
    `datetime(y, m, d) - timedelta(days=1)`) and behind comparing ISO
    `YYYY-MM-DD` strings as dates. */
module Calendar {
  import opened Results
  import opened Text

  /** The range of years Python's `datetime` accepts. */
  const MinYear := 1
  const MaxYear := 9999

  datatype Date = Date(year: int, month: int, day: int)

  /** The text triple `(year, month, day)` the tool passes around, as produced
      by `date.split('-')` and by `yesterday_str`. */
  datatype DateParts = DateParts(year: string, month: string, day: string)

  predicate IsLeap(y: int) {
    y % 4 == 0 && (y % 100 != 0 || y % 400 == 0)
  }

  function DaysInMonth(y: int, m: int): int
    requires 1 <= m <= 12
  {
    if m == 2 then (if IsLeap(y) then 29 else 28)
    else if m == 4 || m == 6 || m == 9 || m == 11 then 30
    else 31
  }

  /** What `datetime(year, month, day)` accepts without raising ValueError. */
  predicate Valid(d: Date) {
    && MinYear <= d.year <= MaxYear
    && 1 <= d.month <= 12
    && 1 <= d.day <= DaysInMonth(d.year, d.month)
  }

  function DaysInYear(y: int): int {
    if IsLeap(y) then 366 else 365
  }

  /** Days of year `y` before the first of month `m` (`m == 13` is the whole year). */
  function DaysBeforeMonth(y: int, m: int): int
    requires 1 <= m <= 13
  {
    var common :=
      if m == 1 then 0 else if m == 2 then 31 else if m == 3 then 59
      else if m == 4 then 90 else if m == 5 then 120 else if m == 6 then 151
      else if m == 7 then 181 else if m == 8 then 212 else if m == 9 then 243
      else if m == 10 then 273 else if m == 11 then 304 else if m == 12 then 334
      else 365;
    if m > 2 && IsLeap(y) then common + 1 else common
  }

  /** Days in all years before year `y`, counting from year 1. */
  function DaysBeforeYear(y: int): nat
    requires y >= 1
    decreases y
  {
    if y == 1 then 0 else DaysBeforeYear(y - 1) + DaysInYear(y - 1)
  }

  /** The proleptic Gregorian day number, 0001-01-01 being day 1 (Python's
      `date.toordinal()`): the independent measure of "one day earlier". */
  function Ordinal(d: Date): int
    requires Valid(d)
  {
    DaysBeforeYear(d.year) + DaysBeforeMonth(d.year, d.month) + d.day
  }

  /** Day numbers start at 1. */
  lemma OrdinalPositive(d: Date)
    requires Valid(d)
    ensures Ordinal(d) >= 1
  {
    assert DaysBeforeMonth(d.year, d.month) >= 0;
  }

  lemma MonthStep(y: int, m: int)
    requires 1 <= m <= 12
    ensures DaysBeforeMonth(y, m + 1) == DaysBeforeMonth(y, m) + DaysInMonth(y, m)
  {
  }

  /** The calendar day before `d`: day 1 rolls back to the last day of the
      previous month, January 1 to December 31 of the previous year. */
  function Pred(d: Date): (p: Date)
    requires Valid(d) && d != Date(MinYear, 1, 1)
    ensures Valid(p)
  {
    if d.day > 1 then Date(d.year, d.month, d.day - 1)
    else if d.month > 1 then Date(d.year, d.month - 1, DaysInMonth(d.year, d.month - 1))
    else Date(d.year - 1, 12, 31)
  }

  lemma PredIsPreviousDay(d: Date)
    requires Valid(d) && d != Date(MinYear, 1, 1)
    ensures Ordinal(Pred(d)) == Ordinal(d) - 1
  {
    if d.day > 1 {
    } else if d.month > 1 {
      MonthStep(d.year, d.month - 1);
    } else {
      var y := d.year - 1;
      assert DaysBeforeMonth(y, 12) + 31 == DaysInYear(y);
      assert DaysBeforeYear(d.year) == DaysBeforeYear(y) + DaysInYear(y);
    }
  }

  /** Tuple order on `(year, month, day)`. */
  predicate Before(a: Date, b: Date) {
    || a.year < b.year
    || (a.year == b.year && (a.month < b.month || (a.month == b.month && a.day < b.day)))
  }

  lemma {:induction false} YearsAccumulate(y1: int, y2: int)
    requires 1 <= y1 < y2
    ensures DaysBeforeYear(y1) + DaysInYear(y1) <= DaysBeforeYear(y2)
    decreases y2 - y1
  {
    if y2 > y1 + 1 {
      YearsAccumulate(y1, y2 - 1);
    }
  }

  lemma MonthsAccumulate(y: int, m1: int, m2: int)
    requires 1 <= m1 < m2 <= 13
    ensures DaysBeforeMonth(y, m1) + DaysInMonth(y, m1) <= DaysBeforeMonth(y, m2)
  {
  }

  lemma BeforeHasSmallerOrdinal(a: Date, b: Date)
    requires Valid(a) && Valid(b) && Before(a, b)
    ensures Ordinal(a) < Ordinal(b)
  {
    if a.year < b.year {
      MonthsAccumulate(a.year, a.month, 13);
      YearsAccumulate(a.year, b.year);
    } else if a.month < b.month {
      MonthsAccumulate(a.year, a.month, b.month);
    }
  }

  /** Tuple order on valid dates is chronological order. */
  lemma BeforeIsChronological(a: Date, b: Date)
    requires Valid(a) && Valid(b)
    ensures Before(a, b) <==> Ordinal(a) < Ordinal(b)
  {
    if Before(a, b) {
      BeforeHasSmallerOrdinal(a, b);
    } else if a != b {
      BeforeHasSmallerOrdinal(b, a);
    }
  }

  /** The zero-padded text of a date, as `strftime('%Y-%m-%d')` and
      `yesterday_str` produce it. */
  function Format(d: Date): DateParts
    requires Valid(d)
  {
    DateParts(Fixed(d.year, 4), Fixed(d.month, 2), Fixed(d.day, 2))
  }

  /** The ISO `YYYY-MM-DD` string of a date. */
  function Iso(d: Date): string
    requires Valid(d)
  {
    var p := Format(d);
    p.year + "-" + p.month + "-" + p.day
  }

  /** `int()` on each part, then the range checks of the `datetime`
      constructor; None where Python raises. */
  function ParseParts(p: DateParts): (r: Option<Date>)
    ensures r.Some? ==> Valid(r.value)
  {
    match (ParseNat(p.year), ParseNat(p.month), ParseNat(p.day))
    case (Some(y), Some(m), Some(d)) =>
      if Valid(Date(y, m, d)) then Some(Date(y, m, d)) else None
    case _ => None
  }

  /** Three parts read as a date exactly when each is a non-empty run of
      decimal digits and the numbers they denote name a real day; the date
      is then those numbers. */
  lemma ParsePartsDigits(p: DateParts)
    ensures ParseParts(p).Some? <==>
      && |p.year| > 0 && AllDigits(p.year)
      && |p.month| > 0 && AllDigits(p.month)
      && |p.day| > 0 && AllDigits(p.day)
      && Valid(Date(Value(p.year), Value(p.month), Value(p.day)))
    ensures ParseParts(p).Some? ==> ParseParts(p).value == Date(Value(p.year), Value(p.month), Value(p.day))
  {
  }

  lemma Pow10Widths()
    ensures Pow10(2) == 100 && Pow10(4) == 10000
  {
  }

  /** Formatting a date and reading it back gives the date. */
  lemma ParseFormat(d: Date)
    requires Valid(d)
    ensures ParseParts(Format(d)) == Some(d)
  {
    Pow10Widths();
    FixedRoundTrip(d.year, 4);
    FixedRoundTrip(d.month, 2);
    FixedRoundTrip(d.day, 2);
  }

  /** `yesterday_str`: parse the three strings, step back one day and format
      the result zero-padded; None where `int`, `datetime` or the subtraction
      (before 0001-01-01) raises. */
  function YesterdayStr(p: DateParts): (r: Option<DateParts>)
    ensures r.Some? <==> ParseParts(p).Some? && ParseParts(p).value != Date(MinYear, 1, 1)
    ensures r.Some? ==> |r.value.year| == 4 && |r.value.month| == 2 && |r.value.day| == 2
  {
    match ParseParts(p)
    case None => None
    case Some(d) => if d == Date(MinYear, 1, 1) then None else Some(Format(Pred(d)))
  }

  /** `yesterday_str` succeeds exactly on the text of a valid date after
      0001-01-01, and then returns the zero-padded text (4/2/2 digits) of the
      day whose ordinal is one less. */
  lemma YesterdayStrIsPreviousDay(p: DateParts)
    ensures YesterdayStr(p).Some? <==> ParseParts(p).Some? && ParseParts(p).value != Date(MinYear, 1, 1)
    ensures YesterdayStr(p).Some? ==>
      var q := YesterdayStr(p).value;
      && |q.year| == 4 && |q.month| == 2 && |q.day| == 2
      && AllDigits(q.year) && AllDigits(q.month) && AllDigits(q.day)
      && ParseParts(q).Some?
      && Ordinal(ParseParts(q).value) == Ordinal(ParseParts(p).value) - 1
  {
    if YesterdayStr(p).Some? {
      var d := ParseParts(p).value;
      PredIsPreviousDay(d);
      ParseFormat(Pred(d));
    }
  }

  /** `k` successive applications of a day step such as `yesterday_str`. */
  function StepsBack(back: DateParts -> Option<DateParts>, p: DateParts, k: nat): Option<DateParts>
    decreases k
  {
    if k == 0 then Some(p)
    else match back(p)
      case None => None
      case Some(q) => StepsBack(back, q, k - 1)
  }

  /** `k` applications of `yesterday_str` land exactly `k` days earlier. */
  lemma StepsBackOrdinal(p: DateParts, k: nat)
    requires ParseParts(p).Some? && StepsBack(YesterdayStr, p, k).Some?
    ensures ParseParts(StepsBack(YesterdayStr, p, k).value).Some?
    ensures Ordinal(ParseParts(StepsBack(YesterdayStr, p, k).value).value) == Ordinal(ParseParts(p).value) - k
  {
    forall x | DayNumber(x).Some? && YesterdayStr(x).Some?
      ensures DayNumber(YesterdayStr(x).value).Some?
      ensures DayNumber(YesterdayStr(x).value).value == DayNumber(x).value - 1
    {
      YesterdayStrIsPreviousDay(x);
    }
    StepsBackMeasure(YesterdayStr, DayNumber, p, k);
  }

  /** The day number of a date text; None where it does not read as a date. */
  function DayNumber(p: DateParts): Option<int> {
    match ParseParts(p)
    case None => None
    case Some(d) => Some(Ordinal(d))
  }

  /** If each step lowers a measure by one, `k` steps lower it by `k`. */
  lemma {:induction false} StepsBackMeasure(back: DateParts -> Option<DateParts>, m: DateParts -> Option<int>, p: DateParts, k: nat)
    requires forall x :: m(x).Some? && back(x).Some? ==> m(back(x).value).Some? && m(back(x).value).value == m(x).value - 1
    requires m(p).Some? && StepsBack(back, p, k).Some?
    ensures m(StepsBack(back, p, k).value).Some?
    ensures m(StepsBack(back, p, k).value).value == m(p).value - k
    decreases k
  {
    if k > 0 {
      StepsBackUnfold(back, p, k);
      StepsBackMeasure(back, m, back(p).value, k - 1);
    }
  }

  /** The first of `k` steps back, split off. */
  lemma StepsBackUnfold(back: DateParts -> Option<DateParts>, p: DateParts, k: nat)
    requires k > 0 && StepsBack(back, p, k).Some?
    ensures back(p).Some? && StepsBack(back, p, k) == StepsBack(back, back(p).value, k - 1)
  {
  }

  /** Different years: the four-digit year decides the order of ISO strings. */
  lemma IsoYearDecides(a: Date, b: Date)
    requires Valid(a) && Valid(b) && a.year != b.year
    ensures StrLess(Iso(a), Iso(b)) <==> a.year < b.year
  {
    Pow10Widths();
    var pa, pb := Format(a), Format(b);
    assert Iso(a) == pa.year + ("-" + pa.month + "-" + pa.day);
    assert Iso(b) == pb.year + ("-" + pb.month + "-" + pb.day);
    if pa.year == pb.year {
      FixedInjective(a.year, b.year, 4);
    }
    StrLessDifferentPrefix(pa.year, pb.year, "-" + pa.month + "-" + pa.day, "-" + pb.month + "-" + pb.day);
    FixedOrder(a.year, b.year, 4);
  }

  /** Same year, different months: the two-digit month decides. */
  lemma IsoMonthDecides(a: Date, b: Date)
    requires Valid(a) && Valid(b) && a.year == b.year && a.month != b.month
    ensures StrLess(Iso(a), Iso(b)) <==> a.month < b.month
  {
    Pow10Widths();
    var pa, pb := Format(a), Format(b);
    var x := pa.year + "-";
    assert Iso(a) == x + (pa.month + ("-" + pa.day));
    assert Iso(b) == x + (pb.month + ("-" + pb.day));
    StrLessCommonPrefix(x, pa.month + ("-" + pa.day), pb.month + ("-" + pb.day));
    if pa.month == pb.month {
      FixedInjective(a.month, b.month, 2);
    }
    StrLessDifferentPrefix(pa.month, pb.month, "-" + pa.day, "-" + pb.day);
    FixedOrder(a.month, b.month, 2);
  }

  /** Same year and month: the two-digit day decides. */
  lemma IsoDayDecides(a: Date, b: Date)
    requires Valid(a) && Valid(b) && a.year == b.year && a.month == b.month
    ensures StrLess(Iso(a), Iso(b)) <==> a.day < b.day
  {
    Pow10Widths();
    var pa, pb := Format(a), Format(b);
    var x := pa.year + "-" + pa.month + "-";
    assert Iso(a) == x + pa.day && Iso(b) == x + pb.day;
    StrLessCommonPrefix(x, pa.day, pb.day);
    FixedOrder(a.day, b.day, 2);
  }

  /** Comparing ISO strings is comparing dates chronologically. */
  lemma IsoOrder(a: Date, b: Date)
    requires Valid(a) && Valid(b)
    ensures StrLess(Iso(a), Iso(b)) <==> Ordinal(a) < Ordinal(b)
  {
    BeforeIsChronological(a, b);
    if a.year != b.year {
      IsoYearDecides(a, b);
    } else if a.month != b.month {
      IsoMonthDecides(a, b);
    } else {
      IsoDayDecides(a, b);
    }
  }

  /** `date.split('-')` on an ISO string gives back its three zero-padded parts. */
  lemma IsoSplit(d: Date)
    requires Valid(d)
    ensures Split(Iso(d), '-') == [Format(d).year, Format(d).month, Format(d).day]
  {
    var p := Format(d);
    var parts := [p.year, p.month, p.day];
    DigitsHaveNoDash(p.year);
    DigitsHaveNoDash(p.month);
    DigitsHaveNoDash(p.day);
    assert parts[1..] == [p.month, p.day] && parts[1..][1..] == [p.day];
    assert Join(parts[1..], '-') == p.month + ['-'] + p.day;
    assert Join(parts, '-') == p.year + ['-'] + (p.month + ['-'] + p.day);
    assert Join(parts, '-') == Iso(d);
    SplitJoin(parts, '-');
  }
}
