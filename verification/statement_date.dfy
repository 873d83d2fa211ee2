/** A statement period: a year-month pair whose equality, ordering and hash
    all go through the scalar `ym = year * 12 + (month - 1)`.

    The constructor does not normalise its month, so two different pairs
    may denote the same period; `Same` (Python `==`) and `Before` (Python
    `<`) compare scalars, never the pair itself.
 */
module StatementDates {
  import opened Base
  import opened Text

  datatype Period = Period(year: int, month: int) {
    /** The year-month scalar; also the period's hash. */
    function Ym(): int {
      year * 12 + (month - 1)
    }
  }

  /** A calendar date as already parsed: year, month and day of month. */
  datatype Date = Date(year: int, month: int, day: int)

  predicate ValidMonth(p: Period) {
    1 <= p.month <= 12
  }

  /** Python `__eq__`. */
  predicate Same(a: Period, b: Period) {
    a.Ym() == b.Ym()
  }

  /** Python `__lt__`; `total_ordering` derives the other comparisons. */
  predicate Before(a: Period, b: Period) {
    a.Ym() < b.Ym()
  }

  /** Python `__hash__`. */
  function Hash(p: Period): int {
    p.Ym()
  }

  /** `from_ym`: Python's floor division and modulo by 12, which agree with
      Dafny's Euclidean operators for a positive divisor. */
  function FromYm(ym: int): (p: Period)
    ensures p.Ym() == ym
    ensures ValidMonth(p)
  {
    Period(ym / 12, ym % 12 + 1)
  }

  /** `from_datetime`. */
  function FromDate(d: Date): Period {
    Period(d.year, d.month)
  }

  predicate IsLeap(y: int) {
    y % 4 == 0 && (y % 100 != 0 || y % 400 == 0)
  }

  /** The length of a month in the proleptic Gregorian calendar. */
  function DaysInMonth(y: int, m: int): (n: int)
    requires 1 <= m <= 12
    ensures 28 <= n <= 31
  {
    if m == 2 then (if IsLeap(y) then 29 else 28)
    else if m == 4 || m == 6 || m == 9 || m == 11 then 30
    else 31
  }

  /** The dates Python's `datetime` accepts: years 1 to 9999 and a day that
      exists in its month. */
  predicate ValidDate(d: Date) {
    1 <= d.year <= 9999 && 1 <= d.month <= 12 && 1 <= d.day <= DaysInMonth(d.year, d.month)
  }

  /** `to_datetime(day)`: the given day of the period's month; a day the
      month lacks (or a year outside 1..9999) raises ValueError. */
  function ToDatetime(p: Period, day: int): (r: Result<Date>)
    ensures r.Ok? <==> ValidDate(Date(p.year, p.month, day))
    ensures r.Ok? ==> FromDate(r.value) == p && r.value.day == day
    ensures r.Err? ==> r.error == ValueError
  {
    var d := Date(p.year, p.month, day);
    if ValidDate(d) then Ok(d) else Err(ValueError)
  }

  /** `__repr__`: the year, a dash, and the month zero-padded to two places. */
  function ToIso(p: Period): string {
    IntToString(p.year) + "-" + Zfill(IntToString(p.month), 2)
  }

  /** `from_iso`: split on "-", then `int()` of the first two fields. Too few
      fields raise IndexError; a field `int()` rejects raises ValueError. */
  function FromIso(iso: string): (r: Result<Period>)
    ensures r.Ok? <==>
      |SplitOn(iso, "-")| >= 2 && ParseInt(SplitOn(iso, "-")[0]).Some? && ParseInt(SplitOn(iso, "-")[1]).Some?
    ensures r.Ok? ==> ParseInt(SplitOn(iso, "-")[0]) == Some(r.value.year)
    ensures r.Ok? ==> ParseInt(SplitOn(iso, "-")[1]) == Some(r.value.month)
    ensures r == Err(IndexError) <==> |SplitOn(iso, "-")| < 2
    ensures r == Err(ValueError) <==>
      |SplitOn(iso, "-")| >= 2 && (ParseInt(SplitOn(iso, "-")[0]).None? || ParseInt(SplitOn(iso, "-")[1]).None?)
  {
    var fields := SplitOn(iso, "-");
    if |fields| < 2 then Err(IndexError)
    else
      match (ParseInt(fields[0]), ParseInt(fields[1]))
      case (Some(y), Some(m)) => Ok(Period(y, m))
      case _ => Err(ValueError)
  }

  // ---------------------------------------------------------------------
  // Properties
  // ---------------------------------------------------------------------

  /** Equality, ordering and hash are all decided by `ym`: the order is
      strict and total, and equal periods hash alike. */
  lemma OrderByYm(a: Period, b: Period, c: Period)
    ensures !Before(a, a)
    ensures Before(a, b) && Before(b, c) ==> Before(a, c)
    ensures Before(a, b) || Same(a, b) || Before(b, a)
    ensures !(Before(a, b) && Same(a, b)) && !(Before(a, b) && Before(b, a))
    ensures Same(a, b) ==> Hash(a) == Hash(b)
  {
  }

  /** An unnormalised month is equal (as a Python object) to its normalised
      twin, e.g. (2023, 13) == (2024, 1), although the pairs differ. */
  lemma UnnormalisedEqualsTwin(y: int, m: int)
    ensures Same(Period(y, m + 12), Period(y + 1, m))
    ensures Period(y, m + 12) != Period(y + 1, m)
  {
  }

  lemma DivModTwelve(y: int, r: int)
    requires 0 <= r < 12
    ensures (y * 12 + r) / 12 == y && (y * 12 + r) % 12 == r
  {
    var n := y * 12 + r;
    assert n == 12 * (n / 12) + n % 12;
    assert 0 <= n % 12 < 12;
  }

  /** For a month in 1..12, `from_ym` of the scalar gives back exactly the
      same fields. */
  lemma FromYmOfYm(p: Period)
    requires ValidMonth(p)
    ensures FromYm(p.Ym()) == p
  {
    DivModTwelve(p.year, p.month - 1);
  }

  /** With valid months the scalar is injective: `==` coincides with
      equality of the pairs. */
  lemma SameIsEqualForValidMonths(a: Period, b: Period)
    requires ValidMonth(a) && ValidMonth(b)
    ensures Same(a, b) <==> a == b
  {
    if Same(a, b) {
      FromYmOfYm(a);
      FromYmOfYm(b);
    }
  }

  /** `from_datetime` keeps year and month and discards the day. */
  lemma FromDateDiscardsDay(d: Date, e: Date)
    ensures FromDate(d).year == d.year && FromDate(d).month == d.month
    ensures d.year == e.year && d.month == e.month ==> FromDate(d) == FromDate(e)
  {
  }

  /** The two-digit month field of the ISO form. */
  lemma MonthFieldDigits(m: int)
    requires 1 <= m <= 12
    ensures AllDigits(Zfill(IntToString(m), 2))
    ensures |Zfill(IntToString(m), 2)| == 2
    ensures DigitsValue(Zfill(IntToString(m), 2)) == m
  {
    var s := Zfill(IntToString(m), 2);
    if m < 10 {
      assert s == ['0', DigitChar(m)];
      assert s[..1] == ['0'];
      assert DigitsValue(s) == DigitsValue(['0']) * 10 + m;
    } else {
      assert s == NatToString(m);
      DigitsValueOfNatToString(m);
    }
  }

  /** `from_iso(repr(p)) == p` for non-negative years and months 1..12. */
  lemma IsoRoundTrip(p: Period)
    requires p.year >= 0 && ValidMonth(p)
    ensures FromIso(ToIso(p)) == Ok(p)
  {
    IsoFields(p);
    MonthFieldDigits(p.month);
    ParseIntOfIntToString(p.year);
    ParseIntOfDigits(Zfill(IntToString(p.month), 2));
  }

  /** The ISO form splits on "-" into the year and the padded month. */
  lemma {:induction false} IsoFields(p: Period)
    requires p.year >= 0 && ValidMonth(p)
    ensures SplitOn(ToIso(p), "-") == [IntToString(p.year), Zfill(IntToString(p.month), 2)]
  {
    var y := IntToString(p.year);
    var mm := Zfill(IntToString(p.month), 2);
    MonthFieldDigits(p.month);
    assert '-' !in y by {
      assert y == NatToString(p.year);
      assert AllDigits(y);
    }
    assert '-' !in mm by {
      assert AllDigits(mm);
    }
    assert ToIso(p) == y + ['-'] + mm;
    SplitOnFirst(y, '-', mm);
    SplitOnAbsent(mm, '-');
  }

  /** The ISO form of a period with a month in 1..12 always ends in a dash
      followed by exactly two digits. */
  lemma IsoShape(p: Period)
    requires ValidMonth(p)
    ensures |ToIso(p)| == |IntToString(p.year)| + 3
    ensures ToIso(p)[|ToIso(p)| - 3] == '-'
    ensures AllDigits(ToIso(p)[|ToIso(p)| - 2..])
  {
    MonthFieldDigits(p.month);
    var mm := Zfill(IntToString(p.month), 2);
    assert ToIso(p)[|ToIso(p)| - 2..] == mm;
  }
}
