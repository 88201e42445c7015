/**
 * How the Mongo-backed server addresses expenses by date. Dates are stored
 * as strings "YYYY-M-D"; a month is selected with the regular expression
 * `^<year>-<month>-` and a year with `^<year>-`, and the day is
 * `Number(date.split('-')[2])`.
 */
module DateKeys {
  import opened Common
  import opened Text

  /**
   * The literal text of the regular expression `^<year>-`: the year in
   * decimal, its sign first, then one dash.
   */
  function YearPrefix(year: int): (p: string)
    ensures |p| >= 2 && p[|p| - 1] == '-'
    ensures p[0] == '-' <==> year < 0
    ensures var digits := if year < 0 then p[1..|p| - 1] else p[..|p| - 1];
            AllDigits(digits) && DigitsValue(digits) == if year < 0 then -year else year
  {
    DigitsValueOfDigits(if year < 0 then -year else year);
    assert (Decimal(year) + "-")[..|Decimal(year)|] == Decimal(year);
    Decimal(year) + "-"
  }

  /** The literal text of the regular expression `^<year>-<month>-`. */
  function MonthPrefix(year: int, month: int): string
  {
    Decimal(year) + "-" + Decimal(month) + "-"
  }

  /** `Number(date.split('-')[2])`, where the third field exists and is a digit string. */
  function DayOf(date: string): (day: Option<nat>)
    ensures day.Some? <==> |Split(date, '-')| >= 3 && AllDigits(Split(date, '-')[2])
    ensures '-' !in date ==> day.None?
  {
    var fields := Split(date, '-');
    if |fields| < 3 then None else NumberValue(fields[2])
  }

  /** The canonical "YYYY-M-D" text of a calendar day. */
  function DateString(year: nat, month: nat, day: nat): string
  {
    Decimal(year) + "-" + Decimal(month) + "-" + Decimal(day)
  }

  /** At most one integer, rendered and followed by a dash, starts a given string. */
  lemma DecimalDashUnique(s: string, a: int, b: int)
    requires StartsWith(s, Decimal(a) + "-") && StartsWith(s, Decimal(b) + "-")
    ensures a == b
  {
    var da, db := Decimal(a), Decimal(b);
    TerminatedPrefixAt(s, da, '-');
    TerminatedPrefixAt(s, db, '-');
    assert (a < 0) == (b < 0) by {
      assert s[0] == da[0] && s[0] == db[0];
    }
    if a < 0 {
      assert da + "-" == "-" + (Digits(-a) + "-");
      assert db + "-" == "-" + (Digits(-b) + "-");
      StartsWithRest(s, "-", Digits(-a) + "-");
      StartsWithRest(s, "-", Digits(-b) + "-");
      TerminatedPrefixUnique(s[1..], Digits(-a), Digits(-b), '-');
      DigitsValueOfDigits(-a);
      DigitsValueOfDigits(-b);
    } else {
      TerminatedPrefixUnique(s, da, db, '-');
      DecimalInjective(a, b);
    }
  }

  /** A date starts with at most one year's prefix. */
  lemma YearPrefixesDisjoint(date: string, y1: int, y2: int)
    ensures StartsWith(date, YearPrefix(y1)) && StartsWith(date, YearPrefix(y2)) ==> y1 == y2
  {
    if StartsWith(date, YearPrefix(y1)) && StartsWith(date, YearPrefix(y2)) {
      DecimalDashUnique(date, y1, y2);
    }
  }

  /**
   * A date starts with at most one month's prefix of a year: thanks to the
   * trailing dash, `^2024-1-` and `^2024-11-` never select the same date.
   */
  lemma MonthPrefixesDisjoint(date: string, year: int, m1: int, m2: int)
    ensures StartsWith(date, MonthPrefix(year, m1)) && StartsWith(date, MonthPrefix(year, m2)) ==> m1 == m2
  {
    if StartsWith(date, MonthPrefix(year, m1)) && StartsWith(date, MonthPrefix(year, m2)) {
      var p := YearPrefix(year);
      assert MonthPrefix(year, m1) == p + (Decimal(m1) + "-");
      assert MonthPrefix(year, m2) == p + (Decimal(m2) + "-");
      StartsWithRest(date, p, Decimal(m1) + "-");
      StartsWithRest(date, p, Decimal(m2) + "-");
      DecimalDashUnique(date[|p|..], m1, m2);
    }
  }

  /** Every date of a month of a year is a date of that year. */
  lemma MonthPrefixWithinYear(date: string, year: int, month: int)
    requires StartsWith(date, MonthPrefix(year, month))
    ensures StartsWith(date, YearPrefix(year))
  {
    assert MonthPrefix(year, month) == YearPrefix(year) + (Decimal(month) + "-");
    StartsWithRest(date, YearPrefix(year), Decimal(month) + "-");
  }

  /**
   * Without the trailing dash the prefix of month `m` would also select the
   * dates of month `10 * m + k` (month 1 against months 10 to 12); with it,
   * it does not.
   */
  lemma UndashedPrefixCollides(year: int, m: nat, k: nat)
    requires 1 <= m && k < 10
    ensures StartsWith(MonthPrefix(year, 10 * m + k), YearPrefix(year) + Decimal(m))
    ensures !StartsWith(MonthPrefix(year, 10 * m + k), MonthPrefix(year, m))
  {
    var n := 10 * m + k;
    assert n / 10 == m && n % 10 == k;
    assert Decimal(n) == Decimal(m) + [DigitChar(k)];
    var p := YearPrefix(year) + Decimal(m);
    assert MonthPrefix(year, n) == p + ([DigitChar(k)] + "-");
    assert MonthPrefix(year, n)[..|p|] == p;
    MonthPrefixesDisjoint(MonthPrefix(year, n), year, n, m);
  }

  /**
   * The day of a date made of three dash-free fields is the number its
   * third field spells, whatever the first two are.
   */
  lemma DayOfFields(y: string, m: string, d: string)
    requires '-' !in y && '-' !in m && '-' !in d
    ensures DayOf(y + "-" + m + "-" + d) == NumberValue(d)
  {
    var date := y + "-" + m + "-" + d;
    assert date == y + ['-'] + (m + ['-'] + d);
    SplitAfterField(y, '-', m + ['-'] + d);
    SplitAfterField(m, '-', d);
    JoinSplit(d, '-');
    assert Split(date, '-')[2] == d;
  }

  /** A canonical date is selected by its own month's prefix and yields its own day. */
  lemma DateRoundTrip(year: nat, month: nat, day: nat)
    ensures StartsWith(DateString(year, month, day), MonthPrefix(year, month))
    ensures DayOf(DateString(year, month, day)) == Some(day)
  {
    var date := DateString(year, month, day);
    var dy, dm, dd := Decimal(year), Decimal(month), Decimal(day);
    assert date == MonthPrefix(year, month) + dd;
    assert '-' !in dy && '-' !in dm && '-' !in dd;
    assert date == dy + ['-'] + (dm + ['-'] + dd);
    SplitAfterField(dy, '-', dm + ['-'] + dd);
    SplitAfterField(dm, '-', dd);
    JoinSplit(dd, '-');
    assert Split(date, '-') == [dy, dm, dd];
    DigitsValueOfDigits(day);
  }

  /** The rendering of the year in the example below. */
  lemma Decimal2024()
    ensures Decimal(2024) == "2024"
  {
    assert Digits(2) == "2";
    assert Digits(20) == Digits(2) + "0";
    assert Digits(202) == Digits(20) + "2";
    assert Digits(2024) == Digits(202) + "4";
  }

  /** The example of a month query: "2024-1-5" is selected by month 1 of 2024, as day 5. */
  lemma JanuaryFifthSelected()
    ensures StartsWith("2024-1-5", MonthPrefix(2024, 1)) && DayOf("2024-1-5") == Some(5)
  {
    Decimal2024();
    assert DateString(2024, 1, 5) == "2024-1-5";
    DateRoundTrip(2024, 1, 5);
  }

  /** ... while "2024-11-5" is not, though it starts with "2024-1". */
  lemma NovemberFifthNotSelected()
    ensures !StartsWith("2024-11-5", MonthPrefix(2024, 1))
    ensures StartsWith("2024-11-5", YearPrefix(2024) + Decimal(1))
  {
    Decimal2024();
    assert Decimal(11) == Digits(1) + "1";
    assert MonthPrefix(2024, 11) == "2024-11-";
    MonthPrefixesDisjoint("2024-11-5", 2024, 1, 11);
  }
}
