/**
 * Calendar dates as the application handles them: proleptic Gregorian
 * (year, month, day) triples, the month arithmetic of JavaScript's `Date`
 * (a day that does not exist in the target month spills into the next one),
 * and the "YYYY-MM" / "YYYY-MM-DD" tokens the pages exchange.
 */
module Calendar {
  import opened Common

  datatype Date = Date(year: int, month: int, day: int)

  datatype YearMonth = YearMonth(year: int, month: int)

  predicate IsLeap(y: int)
  {
    (y % 4 == 0 && y % 100 != 0) || y % 400 == 0
  }

  function DaysInMonth(y: int, m: int): (n: int)
    requires 1 <= m <= 12
    ensures 28 <= n <= 31
    ensures m == 2 ==> (n == 29 <==> IsLeap(y))
  {
    if m == 2 then (if IsLeap(y) then 29 else 28)
    else if m == 4 || m == 6 || m == 9 || m == 11 then 30
    else 31
  }

  predicate ValidMonth(ym: YearMonth)
  {
    1 <= ym.month <= 12
  }

  predicate ValidDate(d: Date)
  {
    1 <= d.month <= 12 && 1 <= d.day <= DaysInMonth(d.year, d.month)
  }

  /** A key whose integer order is the chronological order of valid dates. */
  function Ord(d: Date): int
  {
    d.year * 416 + d.month * 32 + d.day
  }

  /** `a <= b` on two dates. */
  predicate AtOrBefore(a: Date, b: Date)
  {
    Ord(a) <= Ord(b)
  }

  lemma OrdIsChronological(a: Date, b: Date)
    requires ValidDate(a) && ValidDate(b)
    ensures Ord(a) < Ord(b) <==>
      a.year < b.year ||
      (a.year == b.year && a.month < b.month) ||
      (a.year == b.year && a.month == b.month && a.day < b.day)
    ensures Ord(a) == Ord(b) <==> a == b
  {
  }

  function MonthOf(d: Date): YearMonth
  {
    YearMonth(d.year, d.month)
  }

  function FirstOf(ym: YearMonth): Date
  {
    Date(ym.year, ym.month, 1)
  }

  function LastOf(ym: YearMonth): (d: Date)
    requires ValidMonth(ym)
    ensures ValidDate(d) && MonthOf(d) == ym
  {
    Date(ym.year, ym.month, DaysInMonth(ym.year, ym.month))
  }

  /** Months counted from year 0: consecutive months differ by one. */
  function MonthIndex(ym: YearMonth): int
  {
    ym.year * 12 + ym.month - 1
  }

  function MonthAt(n: int): (ym: YearMonth)
    ensures ValidMonth(ym) && MonthIndex(ym) == n
  {
    YearMonth(n / 12, n % 12 + 1)
  }

  lemma MonthIndexInjective(a: YearMonth, b: YearMonth)
    requires ValidMonth(a) && ValidMonth(b)
    ensures MonthIndex(a) == MonthIndex(b) <==> a == b
    ensures MonthIndex(a) < MonthIndex(b) <==> a.year < b.year || (a.year == b.year && a.month < b.month)
  {
  }

  /** The month `k` months after `ym` (`new Date(y, m + k, 1)`). */
  function AddMonthsToMonth(ym: YearMonth, k: int): (r: YearMonth)
    ensures ValidMonth(r) && MonthIndex(r) == MonthIndex(ym) + k
  {
    MonthAt(MonthIndex(ym) + k)
  }

  function NextMonth(ym: YearMonth): (r: YearMonth)
    requires ValidMonth(ym)
    ensures ValidMonth(r) && MonthIndex(r) == MonthIndex(ym) + 1
    ensures r == AddMonthsToMonth(ym, 1)
  {
    if ym.month < 12 then YearMonth(ym.year, ym.month + 1) else YearMonth(ym.year + 1, 1)
  }

  /** A later month starts after every day of an earlier one. */
  lemma LaterMonthLaterDay(a: Date, b: Date)
    requires ValidDate(a) && ValidDate(b)
    requires MonthIndex(MonthOf(a)) < MonthIndex(MonthOf(b))
    ensures Ord(a) < Ord(b)
  {
    assert a.year <= b.year;
    if a.year < b.year {
      assert Ord(a) <= a.year * 416 + 415;
      assert (a.year + 1) * 416 <= b.year * 416;
    }
  }

  lemma EarlierDayEarlierMonth(a: Date, b: Date)
    requires ValidDate(a) && ValidDate(b)
    requires Ord(a) <= Ord(b)
    ensures MonthIndex(MonthOf(a)) <= MonthIndex(MonthOf(b))
  {
    if MonthIndex(MonthOf(b)) < MonthIndex(MonthOf(a)) {
      LaterMonthLaterDay(b, a);
    }
  }

  /**
   * Day `day` of month `ym`, settled the way `Date` settles it: a day past
   * the end of the month lands in the following month.
   */
  function Settle(ym: YearMonth, day: int): (d: Date)
    requires ValidMonth(ym) && 1 <= day <= 31
    ensures ValidDate(d)
    ensures day <= DaysInMonth(ym.year, ym.month) ==> d == Date(ym.year, ym.month, day)
    ensures day > DaysInMonth(ym.year, ym.month) ==>
      MonthOf(d) == NextMonth(ym) && d.day == day - DaysInMonth(ym.year, ym.month)
  {
    var n := DaysInMonth(ym.year, ym.month);
    if day <= n then Date(ym.year, ym.month, day)
    else
      var next := NextMonth(ym);
      Date(next.year, next.month, day - n)
  }

  /** `d.setMonth(d.getMonth() + k)`. */
  function AddMonths(d: Date, k: int): (r: Date)
    requires ValidDate(d)
    ensures ValidDate(r)
  {
    Settle(AddMonthsToMonth(MonthOf(d), k), d.day)
  }

  /** `d.setFullYear(d.getFullYear() + k)`. */
  function AddYears(d: Date, k: int): (r: Date)
    requires ValidDate(d)
    ensures ValidDate(r)
  {
    Settle(YearMonth(d.year + k, d.month), d.day)
  }

  /** The calendar day after `d`. */
  function NextDay(d: Date): (r: Date)
    requires ValidDate(d)
    ensures ValidDate(r) && Ord(d) < Ord(r)
  {
    if d.day < DaysInMonth(d.year, d.month) then Date(d.year, d.month, d.day + 1)
    else FirstOf(NextMonth(MonthOf(d)))
  }

  /** No valid date lies strictly between a date and the next day. */
  lemma NextDayIsSuccessor(d: Date, e: Date)
    requires ValidDate(d) && ValidDate(e)
    requires Ord(d) < Ord(e)
    ensures Ord(NextDay(d)) <= Ord(e)
  {
    if d.day == DaysInMonth(d.year, d.month) {
      var r := NextDay(d);
      if MonthIndex(MonthOf(e)) < MonthIndex(MonthOf(d)) {
        LaterMonthLaterDay(e, d);
      } else if MonthIndex(MonthOf(e)) == MonthIndex(MonthOf(d)) {
        MonthIndexInjective(MonthOf(e), MonthOf(d));
      } else if MonthIndex(MonthOf(e)) > MonthIndex(MonthOf(r)) {
        LaterMonthLaterDay(r, e);
      } else {
        MonthIndexInjective(MonthOf(e), MonthOf(r));
      }
    }
  }

  /** `d.setDate(d.getDate() + n)` for a non-negative `n`. */
  function AddDays(d: Date, n: nat): (r: Date)
    requires ValidDate(d)
    ensures ValidDate(r)
    ensures Ord(d) + n <= Ord(r)
    decreases n
  {
    if n == 0 then d else AddDays(NextDay(d), n - 1)
  }

  lemma AddMonthsLater(d: Date, k: int)
    requires ValidDate(d) && k >= 1
    ensures Ord(d) < Ord(AddMonths(d, k))
  {
    var ym := AddMonthsToMonth(MonthOf(d), k);
    var r := AddMonths(d, k);
    LaterMonthLaterDay(d, r);
  }

  lemma AddYearsLater(d: Date, k: int)
    requires ValidDate(d) && k >= 1
    ensures Ord(d) < Ord(AddYears(d, k))
  {
    var r := AddYears(d, k);
    LaterMonthLaterDay(d, r);
  }

  lemma AddMonthsOfFirst(ym: YearMonth, k: int)
    requires ValidMonth(ym)
    ensures AddMonths(FirstOf(ym), k) == FirstOf(AddMonthsToMonth(ym, k))
  {
  }

  lemma FebruaryAfterJanuary(y: int)
    ensures AddMonthsToMonth(YearMonth(y, 1), 1) == YearMonth(y, 2)
  {
    MonthIndexInjective(AddMonthsToMonth(YearMonth(y, 1), 1), YearMonth(y, 2));
  }

  lemma DaysInFebruary(y: int)
    ensures DaysInMonth(y, 2) == if IsLeap(y) then 29 else 28
  {
  }

  /** Day 31 of February spills into March, by two days in a leap year and three otherwise. */
  lemma SettleFebruary31(y: int)
    ensures Settle(YearMonth(y, 2), 31) == Date(y, 3, if IsLeap(y) then 2 else 3)
  {
    DaysInFebruary(y);
  }

  /** Squashing a date's day past the month's end: 31 January plus one month is 2 March in a leap year. */
  lemma MonthOverflowLeapYear()
    ensures AddMonths(Date(2024, 1, 31), 1) == Date(2024, 3, 2)
  {
    FebruaryAfterJanuary(2024);
    SettleFebruary31(2024);
    assert IsLeap(2024);
  }

  /** … and 3 March in a common year. */
  lemma MonthOverflowCommonYear()
    ensures AddMonths(Date(2023, 1, 31), 1) == Date(2023, 3, 3)
  {
    FebruaryAfterJanuary(2023);
    SettleFebruary31(2023);
    assert !IsLeap(2023);
  }

  /** A year after 29 February is 1 March. */
  lemma LeapDayPlusYear()
    ensures AddYears(Date(2024, 2, 29), 1) == Date(2025, 3, 1)
  {
    assert DaysInMonth(2025, 2) == 28 by { assert !IsLeap(2025); }
    assert Settle(YearMonth(2025, 2), 29) == Date(2025, 3, 1);
  }

  // ---------------------------------------------------------------------
  // Tokens

  function DigitChar(n: int): char
    requires 0 <= n < 10
  {
    ('0' as int + n) as char
  }

  predicate IsDigit(c: char)
  {
    '0' <= c <= '9'
  }

  predicate AllDigits(s: string)
  {
    forall i :: 0 <= i < |s| ==> IsDigit(s[i])
  }

  /** `String(n)` for a non-negative integer. */
  function NatToString(n: nat): (s: string)
    ensures |s| >= 1 && AllDigits(s)
  {
    if n < 10 then [DigitChar(n)] else NatToString(n / 10) + [DigitChar(n % 10)]
  }

  /** `String(n)` for any integer. */
  function IntToString(n: int): (s: string)
    ensures n >= 0 ==> s == NatToString(n)
    ensures n < 0 ==> s == "-" + NatToString(-n)
  {
    if n < 0 then "-" + NatToString(-n) else NatToString(n)
  }

  function ParseNat(s: string): nat
    requires AllDigits(s)
  {
    if s == [] then 0
    else ParseNat(s[..|s| - 1]) * 10 + (s[|s| - 1] as int - '0' as int)
  }

  lemma {:induction false} ParseNatToString(n: nat)
    ensures ParseNat(NatToString(n)) == n
  {
    if n >= 10 {
      var s := NatToString(n);
      assert s[..|s| - 1] == NatToString(n / 10);
      ParseNatToString(n / 10);
    }
  }

  /** `String(n).padStart(2, "0")`. */
  function Pad2(n: nat): (s: string)
    ensures AllDigits(s) && |s| >= 2
    ensures n < 100 ==> |s| == 2
  {
    if n < 10 then ['0', DigitChar(n)]
    else if n < 100 then [DigitChar(n / 10), DigitChar(n % 10)]
    else NatToString(n)
  }

  lemma ParsePad2(n: nat)
    requires n < 100
    ensures ParseNat(Pad2(n)) == n
  {
    var s := Pad2(n);
    assert s[..1][..0] == [];
    assert ParseNat(s[..1]) == s[0] as int - '0' as int;
  }

  /** Characters of a date token: digits and dashes (the dash also signs a negative year). */
  predicate TokenChars(s: string)
  {
    forall i :: 0 <= i < |s| ==> s[i] == '-' || IsDigit(s[i])
  }

  /** `${year}`. */
  function YearToken(y: int): (s: string)
    ensures |s| >= 1 && TokenChars(s)
    ensures y >= 0 ==> AllDigits(s)
  {
    IntToString(y)
  }

  /** "YYYY-MM". */
  function MonthToken(ym: YearMonth): (s: string)
    requires ValidMonth(ym)
    ensures |s| >= 4
  {
    YearToken(ym.year) + "-" + Pad2(ym.month)
  }

  /** A month token is the year, a dash at the third place from the end, and the two-digit month. */
  lemma MonthTokenParts(ym: YearMonth)
    requires ValidMonth(ym)
    ensures var s := MonthToken(ym);
      s[|s| - 3] == '-' && TokenChars(s) && s[..|s| - 3] == YearToken(ym.year) && s[|s| - 2..] == Pad2(ym.month)
  {
  }

  /** "YYYY-MM-DD". */
  function DateToken(d: Date): (s: string)
    requires ValidDate(d)
    ensures |s| >= 7
  {
    MonthToken(MonthOf(d)) + "-" + Pad2(d.day)
  }

  /** A date token is its month's token, a dash, and the two-digit day. */
  lemma DateTokenParts(d: Date)
    requires ValidDate(d)
    ensures var s := DateToken(d);
      s[|s| - 3] == '-' && TokenChars(s) && s[..|s| - 3] == MonthToken(MonthOf(d)) && s[|s| - 2..] == Pad2(d.day)
  {
    MonthTokenParts(MonthOf(d));
  }

  /** Reads a "YYYY-MM" token back; `None` for anything else. */
  function ParseMonthToken(s: string): (r: Option<YearMonth>)
    ensures r.Some? ==> ValidMonth(r.value) && r.value.year >= 0
  {
    if |s| >= 4 && s[|s| - 3] == '-' && AllDigits(s[..|s| - 3]) && AllDigits(s[|s| - 2..]) then
      var m := ParseNat(s[|s| - 2..]);
      if 1 <= m <= 12 then Some(YearMonth(ParseNat(s[..|s| - 3]), m)) else None
    else None
  }

  lemma MonthTokenRoundTrip(ym: YearMonth)
    requires ym.year >= 0 && ValidMonth(ym)
    ensures ParseMonthToken(MonthToken(ym)) == Some(ym)
  {
    var s := MonthToken(ym);
    MonthTokenParts(ym);
    ParseNatToString(ym.year);
    ParsePad2(ym.month);
  }

  /** Distinct months have distinct tokens. */
  lemma MonthTokenInjective(a: YearMonth, b: YearMonth)
    requires a.year >= 0 && ValidMonth(a) && b.year >= 0 && ValidMonth(b)
    ensures MonthToken(a) == MonthToken(b) <==> a == b
  {
    if MonthToken(a) == MonthToken(b) {
      MonthTokenRoundTrip(a);
      MonthTokenRoundTrip(b);
    }
  }

  /** Reads a "YYYY-MM-DD" token back; `None` unless it names a valid date. */
  function ParseDateToken(s: string): (r: Option<Date>)
    ensures r.Some? ==> ValidDate(r.value) && r.value.year >= 0
  {
    if |s| >= 7 && s[|s| - 3] == '-' && AllDigits(s[|s| - 2..]) then
      match ParseMonthToken(s[..|s| - 3])
      case None => None
      case Some(ym) =>
        var day := ParseNat(s[|s| - 2..]);
        if 1 <= day <= DaysInMonth(ym.year, ym.month) then Some(Date(ym.year, ym.month, day)) else None
    else None
  }

  lemma DateTokenRoundTrip(d: Date)
    requires d.year >= 0 && ValidDate(d)
    ensures ParseDateToken(DateToken(d)) == Some(d)
  {
    DateTokenParts(d);
    MonthTokenRoundTrip(MonthOf(d));
    ParsePad2(d.day);
  }

  /** A month token never reads as a plain year: it always holds a dash. */
  lemma MonthTokenHasDash(ym: YearMonth)
    requires ValidMonth(ym)
    ensures Contains(MonthToken(ym), '-')
  {
    var s := MonthToken(ym);
    MonthTokenParts(ym);
    assert s[|s| - 3] == '-';
  }

  lemma YearTokenHasNoDash(y: int)
    requires y >= 0
    ensures !Contains(YearToken(y), '-')
  {
  }
}
