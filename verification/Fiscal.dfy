/** Fiscal years: backend/core/fiscal.py. */
module Fiscal {
  import opened Prelude
  import opened Text

  datatype Date = Date(year: int, month: int, day: int)

  predicate Leap(year: int) {
    year % 4 == 0 && (year % 100 != 0 || year % 400 == 0)
  }

  function DaysIn(year: int, month: int): (n: int)
    ensures 28 <= n <= 31
  {
    if month == 2 then (if Leap(year) then 29 else 28)
    else if month in {4, 6, 9, 11} then 30 else 31
  }

  /** The dates there are. */
  predicate IsDate(d: Date) {
    1 <= d.year <= 9999 && 1 <= d.month <= 12 && 1 <= d.day <= DaysIn(d.year, d.month)
  }

  /** The calendar: month lengths, and February's in the years that are hard to get right. */
  lemma Calendar(year: int, month: int)
    requires 1 <= month <= 12
    ensures DaysIn(year, month) == [31, DaysIn(year, 2), 31, 30, 31, 30, 31, 31, 30, 31, 30, 31][month - 1]
    ensures DaysIn(year, 2) == DaysIn(year + 400, 2)
    ensures DaysIn(2023, 2) == DaysIn(1900, 2) == DaysIn(2100, 2) == 28
    ensures DaysIn(2024, 2) == DaysIn(2000, 2) == 29
  {
  }

  /** Dates compare field by field. */
  predicate DateLe(a: Date, b: Date) {
    a.year < b.year || (a.year == b.year && (a.month < b.month || (a.month == b.month && a.day <= b.day)))
  }

  // ---- The workspace setting ---------------------------------------------

  /** The position of the first dash, or the length. */
  function DashAt(s: string): (i: nat)
    ensures i <= |s| && forall k :: 0 <= k < i ==> s[k] != '-'
    ensures i < |s| ==> s[i] == '-'
  {
    if s == [] || s[0] == '-' then 0 else 1 + DashAt(s[1..])
  }

  /** What `int` reads: digits, with single underscores allowed between them. */
  predicate IsNumeral(s: string) {
    && s != [] && IsDigit(s[0]) && IsDigit(s[|s| - 1])
    && (forall i :: 0 <= i < |s| ==> IsDigit(s[i]) || s[i] == '_')
    && (forall i :: 0 <= i < |s| - 1 ==> !(s[i] == '_' == s[i + 1]))
  }

  function NumeralValue(s: string): int {
    if s == [] then 0
    else
      var c := s[|s| - 1];
      if IsDigit(c) then NumeralValue(s[..|s| - 1]) * 10 + (c as int - '0' as int) else NumeralValue(s[..|s| - 1])
  }

  /** `int` on a piece of text without a dash in it. */
  function ParseInt(s: string): Option<int> {
    var t := Strip(s);
    var digits := if t != [] && t[0] == '+' then t[1..] else t;
    if IsNumeral(digits) then Some(NumeralValue(digits)) else None
  }

  /** A number may stand in white space and have a plus sign before it. */
  lemma NumberIsRead(before: string, digits: string, after: string)
    requires Blank(before) && IsNumeral(digits) && Blank(after)
    ensures ParseInt(before + digits + after) == Some(NumeralValue(digits))
    ensures ParseInt(before + ("+" + digits) + after) == Some(NumeralValue(digits))
  {
    StripIs(before, digits, after);
    StripIs(before, "+" + digits, after);
    assert ("+" + digits)[1..] == digits;
  }

  /** Its digits count in tens; a single underscore between two numbers joins them. */
  lemma NumeralsAre(a: string, b: string, c: char)
    requires IsDigit(c)
    ensures IsNumeral([c]) && NumeralValue([c]) == c as int - '0' as int
    ensures IsNumeral(a) ==> IsNumeral(a + [c]) && NumeralValue(a + [c]) == NumeralValue(a) * 10 + NumeralValue([c])
    ensures IsNumeral(a) ==> IsNumeral(a + "_" + [c]) && NumeralValue(a + "_" + [c]) == NumeralValue(a + [c])
    ensures !IsNumeral([]) && !IsNumeral(a + "__" + b) && !IsNumeral(a + "-" + b) && !IsNumeral("_" + a)
  {
    assert [c][..0] == [];
    assert (a + [c])[..|a|] == a;
    assert (a + "_" + [c])[..|a| + 1] == a + "_" && (a + "_")[..|a|] == a;
    assert (a + "__" + b)[|a|] == '_' == (a + "__" + b)[|a| + 1];
    assert (a + "-" + b)[|a|] == '-';
  }

  /** Month and day of the year end; anything unreadable means 31 December. */
  function ParseFye(fye: Option<string>): (r: (int, int))
    ensures 1 <= r.0 <= 12 && 1 <= r.1 <= DaysIn(2024, r.0)
  {
    if fye.None? || fye.value == [] then (12, 31)
    else
      var s := Strip(fye.value);
      var i := DashAt(s);
      if i == |s| || '-' in s[i + 1..] then (12, 31)
      else
        var m, d := ParseInt(s[..i]), ParseInt(s[i + 1..]);
        if m.Some? && d.Some? && 1 <= m.value <= 12 && 1 <= d.value <= DaysIn(2024, m.value)
        then (m.value, d.value) else (12, 31)
  }

  function TwoDigits(n: int): string
    requires 0 <= n < 100
  {
    [('0' as int + n / 10) as char, ('0' as int + n % 10) as char]
  }

  lemma TwoDigitsParse(n: int)
    requires 0 <= n < 100
    ensures ParseInt(TwoDigits(n)) == Some(n) && '-' !in TwoDigits(n)
  {
    var t := TwoDigits(n);
    var tens, ones := '0' as int + n / 10, '0' as int + n % 10;
    assert t == [tens as char, ones as char];
    assert IsDigit(t[0]) && IsDigit(t[1]);
    assert Strip(t) == t;
    assert t[..1][..0] == [] && NumeralValue(t[..1]) == n / 10;
    assert IsNumeral(t) && NumeralValue(t) == n;
    assert forall c :: c in t ==> IsDigit(c);
  }

  lemma PiecesOfFye(a: string, b: string)
    requires |a| == |b| == 2 && IsDigit(a[0]) && IsDigit(b[1]) && '-' !in a && '-' !in b
    ensures var s := a + "-" + b;
            Strip(s) == s && DashAt(s) == 2 && s[..2] == a && s[3..] == b
  {
    var s := a + "-" + b;
    assert s[0] == a[0] && s[1] == a[1] && s[2] == '-' && s[4] == b[1];
    assert a[0] in a && a[1] in a;
  }

  /** Every year end written MM-DD is read back as it was written, when there is such a day. */
  lemma FyeRoundTrip(m: int, d: int)
    requires 0 <= m < 100 && 0 <= d < 100
    ensures ParseFye(Some(TwoDigits(m) + "-" + TwoDigits(d))) ==
              if 1 <= m <= 12 && 1 <= d <= DaysIn(2024, m) then (m, d) else (12, 31)
  {
    TwoDigitsParse(m);
    TwoDigitsParse(d);
    PiecesOfFye(TwoDigits(m), TwoDigits(d));
  }

  /** The text is two numbers around its one dash, a month and a day of it. */
  ghost predicate SaysFye(s: string, m: int, d: int) {
    && 1 <= m <= 12 && 1 <= d <= DaysIn(2024, m)
    && exists a, b :: DashBetween(Strip(s), a, b) && ParseInt(a) == Some(m) && ParseInt(b) == Some(d)
  }

  predicate DashBetween(s: string, a: string, b: string) {
    s == a + "-" + b && '-' !in a && '-' !in b
  }

  lemma {:induction false} DashAtIs(s: string, a: string, b: string)
    requires DashBetween(s, a, b)
    ensures DashAt(s) == |a| && s[..|a|] == a && s[|a| + 1..] == b
  {
    assert forall k :: 0 <= k < |a| ==> s[k] == a[k] && a[k] in a;
    assert s[|a|] == '-';
  }

  lemma DashSplits(s: string, i: nat)
    requires i < |s| && s[i] == '-' && (forall k :: 0 <= k < i ==> s[k] != '-') && '-' !in s[i + 1..]
    ensures DashBetween(s, s[..i], s[i + 1..])
  {
    var a, b := s[..i], s[i + 1..];
    assert s == a + [s[i]] + b;
    forall k | 0 <= k < |a| ensures a[k] != '-' {
      assert a[k] == s[k];
    }
  }

  /** A year end that can be read is read. */
  lemma FyeIsRead(fye: string, m: int, d: int)
    requires SaysFye(fye, m, d)
    ensures ParseFye(Some(fye)) == (m, d)
  {
    var s := Strip(fye);
    var a, b :| DashBetween(s, a, b) && ParseInt(a) == Some(m) && ParseInt(b) == Some(d);
    DashAtIs(s, a, b);
  }

  /** Any other setting, and none, means 31 December. */
  lemma FyeExactly(fye: Option<string>)
    ensures var (m, d) := ParseFye(fye); (fye.Some? && SaysFye(fye.value, m, d)) || (m, d) == (12, 31)
    ensures fye.None? || fye.value == [] ==> ParseFye(fye) == (12, 31)
  {
    if fye.Some? && fye.value != [] {
      var s := Strip(fye.value);
      var i := DashAt(s);
      if i < |s| && '-' !in s[i + 1..] {
        DashSplits(s, i);
      }
    }
  }

  // ---- The year a date falls in ------------------------------------------

  function MonthAfter(m: int): (next: int)
    requires 1 <= m <= 12
    ensures 1 <= next <= 12 && (next + 10) % 12 + 1 == m
  {
    m % 12 + 1
  }

  /** The year opens the month after it closes. */
  function StartMonth(fye: Option<string>): (m: int)
    ensures 1 <= m <= 12
  {
    MonthAfter(ParseFye(fye).0)
  }

  /** The first day of the fiscal year; None where there is no such date (before year 1). */
  function FiscalYearStart(d: Date, fye: Option<string>): Option<Date> {
    YearStart(d, StartMonth(fye))
  }

  function YearStart(d: Date, m: int): Option<Date> {
    var hasOpened := d.month > m || (d.month == m && d.day >= 1);
    var year := if hasOpened then d.year else d.year - 1;
    if year < 1 then None else Some(Date(year, m, 1))
  }

  function SameFiscalYear(a: Date, b: Date, fye: Option<string>): Option<bool> {
    var s, t := FiscalYearStart(a, fye), FiscalYearStart(b, fye);
    if s.None? || t.None? then None else Some(s == t)
  }

  function IsFirstMonth(d: Date, fye: Option<string>): Option<bool> {
    var s := FiscalYearStart(d, fye);
    if s.None? then None else Some(d.year == s.value.year && d.month == s.value.month)
  }

  /** Months counted from the beginning of the calendar. */
  function MonthIndex(d: Date): int {
    d.year * 12 + d.month - 1
  }

  /** Fiscal years cut the calendar into windows of twelve whole months: the dates that share a
      year start are exactly those in the twelve months from it. */
  lemma YearIsTwelveMonths(x: Date, y: Date, fye: Option<string>)
    requires IsDate(x) && IsDate(y) && FiscalYearStart(x, fye).Some?
    ensures var s := FiscalYearStart(x, fye).value;
            && IsDate(s) && s.day == 1 && DateLe(s, x)
            && (FiscalYearStart(y, fye) == Some(s) <==> MonthIndex(s) <= MonthIndex(y) < MonthIndex(s) + 12)
  {
    TwelveMonths(x, y, StartMonth(fye));
  }

  lemma TwelveMonths(x: Date, y: Date, m: int)
    requires IsDate(x) && IsDate(y) && 1 <= m <= 12 && YearStart(x, m).Some?
    ensures var s := YearStart(x, m).value;
            && IsDate(s) && s.day == 1 && DateLe(s, x)
            && (YearStart(y, m) == Some(s) <==> MonthIndex(s) <= MonthIndex(y) < MonthIndex(s) + 12)
  {
  }

  /** The twelfth month of the year, the one it closes in, is the month of the setting. */
  lemma YearClosesInItsMonth(x: Date, fye: Option<string>)
    requires IsDate(x) && FiscalYearStart(x, fye).Some?
    ensures (MonthIndex(FiscalYearStart(x, fye).value) + 11) % 12 + 1 == ParseFye(fye).0
  {
    StartsInMonth(x, StartMonth(fye));
  }

  lemma StartsInMonth(x: Date, m: int)
    requires 1 <= m <= 12 && YearStart(x, m).Some?
    ensures (MonthIndex(YearStart(x, m).value) + 11) % 12 == (m + 10) % 12
  {
    var y := YearStart(x, m).value.year;
    assert MonthIndex(YearStart(x, m).value) + 11 == y * 12 + (m + 10);
  }

  /** The day after. */
  function NextDay(d: Date): Date {
    if d.day < DaysIn(d.year, d.month) then Date(d.year, d.month, d.day + 1)
    else if d.month < 12 then Date(d.year, d.month + 1, 1)
    else Date(d.year + 1, 1, 1)
  }

  /** No date lies between a day and the next. */
  lemma NextDayIsNext(d: Date, e: Date)
    requires IsDate(d) && IsDate(e)
    ensures DateLe(e, d) <==> !DateLe(NextDay(d), e)
  {
  }

  /** From one day to the next the fiscal year changes exactly on the last day of the year-end
      month, and then the next day is the new year's first. */
  lemma NextYearOpensExactly(d: Date, fye: Option<string>)
    requires IsDate(d) && FiscalYearStart(d, fye).Some?
    ensures FiscalYearStart(NextDay(d), fye) != FiscalYearStart(d, fye) <==>
              d.month == ParseFye(fye).0 && d.day == DaysIn(d.year, d.month)
    ensures d.month == ParseFye(fye).0 && d.day == DaysIn(d.year, d.month) ==>
              FiscalYearStart(NextDay(d), fye) == Some(NextDay(d))
  {
    YearTurns(d, StartMonth(fye));
  }

  lemma YearTurns(d: Date, m: int)
    requires IsDate(d) && 1 <= m <= 12 && YearStart(d, m).Some?
    ensures var closes := d.month == (m + 10) % 12 + 1 && d.day == DaysIn(d.year, d.month);
            && (YearStart(NextDay(d), m) != YearStart(d, m) <==> closes)
            && (closes ==> YearStart(NextDay(d), m) == Some(NextDay(d)))
  {
  }

  /** The start is missing only for the opening months of year 1. */
  lemma StartExists(x: Date, fye: Option<string>)
    requires IsDate(x)
    ensures FiscalYearStart(x, fye).None? <==> x.year == 1 && x.month < StartMonth(fye)
  {
  }

  /** A December year end is the calendar year. */
  lemma DecemberIsCalendar(x: Date, fye: Option<string>)
    requires IsDate(x) && ParseFye(fye).0 == 12
    ensures FiscalYearStart(x, fye) == Some(Date(x.year, 1, 1))
  {
  }

  // ---- Year-to-date ------------------------------------------------------

  datatype Posting = Posting(date: Date, amount: int)

  /** Dates as numbers, in date order. */
  function Key(d: Date): int {
    (d.year * 12 + d.month) * 32 + d.day
  }

  lemma KeyOrders(a: Date, b: Date)
    requires IsDate(a) && IsDate(b)
    ensures DateLe(a, b) <==> Key(a) <= Key(b)
    ensures Key(a) == Key(b) <==> a == b
  {
  }

  /** The activity dated from `since` up to but not including `until`. */
  function Activity(postings: seq<Posting>, since: int, until: int): int {
    if postings == [] then 0
    else
      Activity(postings[..|postings| - 1], since, until)
      + (if since <= Key(Last(postings).date) < until then Last(postings).amount else 0)
  }

  lemma {:induction false} ActivityJoins(postings: seq<Posting>, a: int, b: int, c: int)
    requires a <= b <= c
    ensures Activity(postings, a, c) == Activity(postings, a, b) + Activity(postings, b, c)
  {
    if postings != [] {
      ActivityJoins(postings[..|postings| - 1], a, b, c);
    }
  }

  /** From the start of the date's fiscal year through the date. */
  function Ytd(postings: seq<Posting>, d: Date, fye: Option<string>): int
    requires FiscalYearStart(d, fye).Some?
  {
    Activity(postings, Key(FiscalYearStart(d, fye).value), Key(d) + 1)
  }

  /** What subtracting two year-to-date figures gives, whatever years they belong to: the
      activity after a through b, less what was booked from a's year start up to b's. */
  lemma YtdDifference(postings: seq<Posting>, a: Date, b: Date, fye: Option<string>)
    requires IsDate(a) && IsDate(b) && DateLe(a, b)
    requires FiscalYearStart(a, fye).Some? && FiscalYearStart(b, fye).Some?
    ensures Ytd(postings, b, fye) - Ytd(postings, a, fye) ==
              Activity(postings, Key(a) + 1, Key(b) + 1)
              - Activity(postings, Key(FiscalYearStart(a, fye).value), Key(FiscalYearStart(b, fye).value))
  {
    var s, t := Key(FiscalYearStart(a, fye).value), Key(FiscalYearStart(b, fye).value);
    KeyOrders(a, b);
    ActivityJoins(postings, s, Key(a) + 1, Key(b) + 1);
    ActivityJoins(postings, s, t, Key(b) + 1);
  }

  lemma {:induction false} NoActivity(postings: seq<Posting>, since: int)
    ensures Activity(postings, since, since) == 0
  {
    if postings != [] {
      NoActivity(postings[..|postings| - 1], since);
    }
  }

  lemma OnePosting(p: Posting, since: int, until: int)
    ensures Activity([p], since, until) == if since <= Key(p.date) < until then p.amount else 0
  {
    assert [p][..0] == [];
  }

  /** Differencing is right on every ledger exactly when both dates share a fiscal year. */
  lemma DifferenceIsActivityExactly(a: Date, b: Date, fye: Option<string>)
    requires IsDate(a) && IsDate(b) && DateLe(a, b)
    requires FiscalYearStart(a, fye).Some? && FiscalYearStart(b, fye).Some?
    ensures SameFiscalYear(a, b, fye) == Some(true) <==>
              forall postings ::
                  Ytd(postings, b, fye) - Ytd(postings, a, fye) == Activity(postings, Key(a) + 1, Key(b) + 1)
  {
    var s, t := FiscalYearStart(a, fye).value, FiscalYearStart(b, fye).value;
    if s == t {
      forall postings
          ensures Ytd(postings, b, fye) - Ytd(postings, a, fye) == Activity(postings, Key(a) + 1, Key(b) + 1)
      {
        YtdDifference(postings, a, b, fye);
        NoActivity(postings, Key(s));
      }
    } else {
      var opening := Posting(s, 1);
      YtdDifference([opening], a, b, fye);
      OnePosting(opening, Key(s), Key(t));
    }
  }

  function FirstOfMonth(d: Date): Date {
    Date(d.year, d.month, 1)
  }

  /** Year-to-date is the month's own activity on every ledger exactly in the opening month. */
  lemma OpeningMonthExactly(d: Date, fye: Option<string>)
    requires IsDate(d) && FiscalYearStart(d, fye).Some?
    ensures IsFirstMonth(d, fye) == Some(true) <==>
              forall postings :: Ytd(postings, d, fye) == Activity(postings, Key(FirstOfMonth(d)), Key(d) + 1)
  {
    var s := FiscalYearStart(d, fye).value;
    if s != FirstOfMonth(d) {
      var opening := Posting(s, 1);
      OnePosting(opening, Key(s), Key(d) + 1);
      OnePosting(opening, Key(FirstOfMonth(d)), Key(d) + 1);
      assert Ytd([opening], d, fye) != Activity([opening], Key(FirstOfMonth(d)), Key(d) + 1);
    }
  }
}
