/**
 * Budget periods: a "YYYY-MM", "YYYY" or "S_E" token resolved to a half-open
 * date range and the ordered list of months it covers, the current period
 * of each kind, and the option lists of the period and month selectors.
 */
module Periods {
  import opened Common
  import opened Calendar

  datatype PeriodType = MonthlyPeriod | AnnualPeriod | CustomPeriod

  /** What `getPeriodRange` returns: the range [startDate, endDate) and its months. */
  datatype Range = Range(startDate: string, endDate: string, months: seq<string>)

  // ---------------------------------------------------------------------
  // Month windows

  /** `n` consecutive months from `first`. */
  function MonthWindow(first: YearMonth, n: nat): (r: seq<YearMonth>)
    ensures |r| == n
    ensures forall i :: 0 <= i < n ==> ValidMonth(r[i]) && MonthIndex(r[i]) == MonthIndex(first) + i
  {
    seq(n, i => AddMonthsToMonth(first, i))
  }

  function MonthTokens(ms: seq<YearMonth>): (r: seq<string>)
    requires forall i :: 0 <= i < |ms| ==> ValidMonth(ms[i])
    ensures |r| == |ms|
    ensures forall i :: 0 <= i < |ms| ==> r[i] == MonthToken(ms[i])
  {
    seq(|ms|, i requires 0 <= i < |ms| => MonthToken(ms[i]))
  }

  /** A window one month longer lists one more token. */
  lemma MonthTokensStep(first: YearMonth, n: nat)
    ensures MonthTokens(MonthWindow(first, n + 1)) == MonthTokens(MonthWindow(first, n)) + [MonthToken(AddMonthsToMonth(first, n))]
  {
    var a := MonthTokens(MonthWindow(first, n + 1));
    var b := MonthTokens(MonthWindow(first, n)) + [MonthToken(AddMonthsToMonth(first, n))];
    assert MonthWindow(first, n + 1)[n] == AddMonthsToMonth(first, n);
    forall i | 0 <= i < n + 1 ensures a[i] == b[i] {
      if i < n {
        assert MonthWindow(first, n + 1)[i] == MonthWindow(first, n)[i];
      }
    }
  }

  /** Appending the month that follows a window extends the window by one. */
  lemma WindowAppend(first: YearMonth, n: nat, ym: YearMonth)
    requires ValidMonth(ym) && MonthIndex(ym) == MonthIndex(first) + n
    ensures MonthTokens(MonthWindow(first, n)) + [MonthToken(ym)] == MonthTokens(MonthWindow(first, n + 1))
  {
    MonthIndexInjective(AddMonthsToMonth(first, n), ym);
    MonthTokensStep(first, n);
  }

  /** A valid month is the month at its own index. */
  lemma MonthAtIndex(ym: YearMonth)
    requires ValidMonth(ym)
    ensures MonthAt(MonthIndex(ym)) == ym
  {
    MonthIndexInjective(MonthAt(MonthIndex(ym)), ym);
  }

  /**
   * A month is in the window exactly when its index lies in the window's
   * span; the window ascends strictly, so no month is listed twice.
   */
  lemma MonthWindowSpan(first: YearMonth, n: nat, ym: YearMonth)
    requires ValidMonth(ym)
    ensures ym in MonthWindow(first, n) <==> MonthIndex(first) <= MonthIndex(ym) < MonthIndex(first) + n
    ensures forall i, j :: 0 <= i < j < n ==> MonthIndex(MonthWindow(first, n)[i]) < MonthIndex(MonthWindow(first, n)[j])
  {
    var w := MonthWindow(first, n);
    if MonthIndex(first) <= MonthIndex(ym) < MonthIndex(first) + n {
      var k := MonthIndex(ym) - MonthIndex(first);
      MonthIndexInjective(w[k], ym);
    }
  }

  /** The tokens of a window of months of the common era are pairwise distinct. */
  lemma MonthWindowTokensDistinct(first: YearMonth, n: nat)
    requires ValidMonth(first) && first.year >= 0
    ensures forall i, j :: 0 <= i < j < n ==> MonthTokens(MonthWindow(first, n))[i] != MonthTokens(MonthWindow(first, n))[j]
  {
    var w := MonthWindow(first, n);
    forall i, j | 0 <= i < j < n
      ensures MonthTokens(w)[i] != MonthTokens(w)[j]
    {
      assert w[i].year >= 0 && w[j].year >= 0;
      MonthTokenInjective(w[i], w[j]);
    }
  }

  /** The first day of a month is on or before `d` exactly when the month is not after `d`'s. */
  lemma FirstAtOrBefore(ym: YearMonth, d: Date)
    requires ValidMonth(ym) && ValidDate(d)
    ensures AtOrBefore(FirstOf(ym), d) <==> MonthIndex(ym) <= MonthIndex(MonthOf(d))
  {
    if MonthIndex(ym) < MonthIndex(MonthOf(d)) {
      LaterMonthLaterDay(FirstOf(ym), d);
    } else if MonthIndex(ym) == MonthIndex(MonthOf(d)) {
      MonthIndexInjective(ym, MonthOf(d));
    } else {
      LaterMonthLaterDay(d, FirstOf(ym));
    }
  }

  // ---------------------------------------------------------------------
  // Token splitting

  /**
   * `period.split("_")` read as `[startDate, endDate]`: the text before the
   * first underscore, and the text between it and the next one (`None`
   * when there is no underscore, so `endDate` is undefined).
   */
  function SplitPeriod(s: string): (string, Option<string>)
  {
    var k := FirstIndex(s, '_');
    if k == |s| then (s, None)
    else
      var rest := s[k + 1..];
      (s[..k], Some(rest[..FirstIndex(rest, '_')]))
  }

  lemma FirstIndexAt(s: string, c: char, k: nat)
    requires k <= |s|
    requires k < |s| ==> s[k] == c
    requires forall i :: 0 <= i < k ==> s[i] != c
    ensures FirstIndex(s, c) == k
  {
  }

  lemma TokenCharsNoUnderscore(s: string)
    requires TokenChars(s)
    ensures forall i :: 0 <= i < |s| ==> s[i] != '_'
  {
  }

  /** Joining two underscore-free tokens with "_" and splitting gives them back. */
  lemma SplitJoined(a: string, b: string)
    requires TokenChars(a) && TokenChars(b)
    ensures SplitPeriod(a + "_" + b) == (a, Some(b))
  {
    var s := a + "_" + b;
    TokenCharsNoUnderscore(a);
    TokenCharsNoUnderscore(b);
    assert forall i :: 0 <= i < |a| ==> s[i] == a[i];
    FirstIndexAt(s, '_', |a|);
    assert s[|a| + 1..] == b;
    FirstIndexAt(b, '_', |b|);
    assert b[..|b|] == b;
    assert s[..|a|] == a;
  }

  // ---------------------------------------------------------------------
  // Period ranges

  /** The number of months from `first` through the month of `end`; none when `end` is earlier. */
  function MonthCount(first: YearMonth, end: Date): nat
  {
    if MonthIndex(MonthOf(end)) >= MonthIndex(first) then MonthIndex(MonthOf(end)) - MonthIndex(first) + 1 else 0
  }

  /** The months a custom period lists: every month from the start's through the end's. */
  function CustomMonthList(start: Date, end: Date): (r: seq<string>)
    requires ValidDate(start) && ValidDate(end)
  {
    MonthTokens(MonthWindow(MonthOf(start), MonthCount(MonthOf(start), end)))
  }

  /**
   * The loop of the custom branch: a cursor on the first of the start's
   * month, advanced a month at a time while it is on or before the end.
   */
  method CustomMonths(start: Date, end: Date) returns (months: seq<string>)
    requires ValidDate(start) && ValidDate(end)
    ensures months == CustomMonthList(start, end)
  {
    var first := MonthOf(start);
    var current := FirstOf(first);
    months := [];
    MonthAtIndex(first);
    FirstAtOrBefore(MonthOf(current), end);
    while AtOrBefore(current, end)
      invariant ValidDate(current) && current == FirstOf(MonthOf(current))
      invariant MonthOf(current) == AddMonthsToMonth(first, |months|)
      invariant |months| <= MonthCount(first, end)
      invariant AtOrBefore(current, end) <==> MonthIndex(MonthOf(current)) <= MonthIndex(MonthOf(end))
      invariant months == MonthTokens(MonthWindow(first, |months|))
      decreases MonthIndex(MonthOf(end)) + 1 - MonthIndex(MonthOf(current))
    {
      MonthTokensStep(first, |months|);
      months := months + [MonthToken(MonthOf(current))];
      AddMonthsOfFirst(MonthOf(current), 1);
      current := AddMonths(current, 1);
      FirstAtOrBefore(MonthOf(current), end);
    }
  }

  /** `getNextMonth`: the first day of the month after a "YYYY-MM" token; `None` where `Date` throws. */
  function NextMonthStart(month: string): (r: Option<string>)
  {
    match ParseMonthToken(month)
    case None => None
    case Some(ym) => Some(DateToken(FirstOf(NextMonth(ym))))
  }

  /** `${Number.parseInt(year) + 1}-01-01`, where a year that does not parse renders as "NaN". */
  function NextYearStart(year: string, parseInt: string -> Option<int>): string
  {
    (if parseInt(year).Some? then IntToString(parseInt(year).value + 1) else "NaN") + "-01-01"
  }

  /** The twelve month tokens the annual branch builds from the year text. */
  function YearMonthList(year: string): (r: seq<string>)
    ensures |r| == 12
  {
    seq(12, i requires 0 <= i < 12 => year + "-" + Pad2(i + 1))
  }

  /**
   * `getPeriodRange`. A custom token whose end does not name a date makes
   * `toISOString` throw (`None`); one whose start does not lists no months.
   */
  function RangeOf(t: PeriodType, period: string, parseInt: string -> Option<int>): (r: Option<Range>)
  {
    match t
    case CustomPeriod => CustomRangeOf(period)
    case MonthlyPeriod => MonthlyRangeOf(period)
    case AnnualPeriod => Some(AnnualRangeOf(period, parseInt))
  }

  function CustomRangeOf(period: string): (r: Option<Range>)
  {
    var (s, e) := SplitPeriod(period);
    if e.None? || ParseDateToken(e.value).None? then None
    else
      var end := ParseDateToken(e.value).value;
      var start := ParseDateToken(s);
      Some(Range(s, DateToken(NextDay(end)), if start.Some? then CustomMonthList(start.value, end) else []))
  }

  function MonthlyRangeOf(period: string): (r: Option<Range>)
  {
    var endDate := NextMonthStart(period);
    if endDate.None? then None else Some(Range(period + "-01", endDate.value, [period]))
  }

  function AnnualRangeOf(period: string, parseInt: string -> Option<int>): Range
  {
    Range(period + "-01-01", NextYearStart(period, parseInt), YearMonthList(period))
  }

  /** The annual branch's loop over the months 1 … 12. */
  method AnnualMonths(year: string) returns (months: seq<string>)
    ensures months == YearMonthList(year)
  {
    months := [];
    for month := 1 to 13
      invariant |months| == month - 1
      invariant forall i :: 0 <= i < |months| ==> months[i] == year + "-" + Pad2(i + 1)
    {
      months := months + [year + "-" + Pad2(month)];
    }
  }

  /** `getPeriodRange` as the page runs it, with its two loops. */
  method PeriodRange(t: PeriodType, period: string, parseInt: string -> Option<int>) returns (r: Option<Range>)
    ensures r == RangeOf(t, period, parseInt)
  {
    match t
    case CustomPeriod =>
      var (s, e) := SplitPeriod(period);
      if e.None? || ParseDateToken(e.value).None? {
        return None;
      }
      var end := ParseDateToken(e.value).value;
      var start := ParseDateToken(s);
      var months: seq<string> := [];
      if start.Some? {
        months := CustomMonths(start.value, end);
      }
      return Some(Range(s, DateToken(NextDay(end)), months));
    case MonthlyPeriod =>
      var endDate := NextMonthStart(period);
      if endDate.None? {
        return None;
      }
      return Some(Range(period + "-01", endDate.value, [period]));
    case AnnualPeriod =>
      var months := AnnualMonths(period);
      return Some(Range(period + "-01-01", NextYearStart(period, parseInt), months));
  }

  lemma FirstOfToken(ym: YearMonth)
    requires ValidMonth(ym)
    ensures MonthToken(ym) + "-01" == DateToken(FirstOf(ym))
  {
    assert Pad2(1) == "01";
  }

  /** A monthly token covers its month: from its first day to the first day of the next month. */
  lemma MonthlyRange(ym: YearMonth, parseInt: string -> Option<int>)
    requires ValidMonth(ym) && ym.year >= 0
    ensures RangeOf(MonthlyPeriod, MonthToken(ym), parseInt) ==
      Some(Range(DateToken(FirstOf(ym)), DateToken(FirstOf(NextMonth(ym))), [MonthToken(ym)]))
  {
    MonthTokenRoundTrip(ym);
    FirstOfToken(ym);
  }

  /** December rolls over into January of the next year. */
  lemma DecemberRollsOver(y: nat, parseInt: string -> Option<int>)
    ensures RangeOf(MonthlyPeriod, MonthToken(YearMonth(y, 12)), parseInt).Some?
    ensures RangeOf(MonthlyPeriod, MonthToken(YearMonth(y, 12)), parseInt).value.endDate == DateToken(Date(y + 1, 1, 1))
  {
    MonthlyRange(YearMonth(y, 12), parseInt);
  }

  /** The annual branch's twelve tokens are the year's months in order. */
  lemma YearMonthListOfYear(y: int)
    ensures YearMonthList(YearToken(y)) == MonthTokens(MonthWindow(YearMonth(y, 1), 12))
  {
    var w := MonthWindow(YearMonth(y, 1), 12);
    var listed := YearMonthList(YearToken(y));
    forall i | 0 <= i < 12
      ensures listed[i] == MonthTokens(w)[i]
    {
      MonthAtIndex(YearMonth(y, i + 1));
      assert w[i] == YearMonth(y, i + 1);
    }
  }

  /**
   * A year token covers its year: from 1 January to 1 January of the next
   * year, listing its twelve months in order.
   */
  lemma AnnualRange(y: int, parseInt: string -> Option<int>)
    requires parseInt(YearToken(y)) == Some(y)
    ensures RangeOf(AnnualPeriod, YearToken(y), parseInt) ==
      Some(Range(DateToken(Date(y, 1, 1)), DateToken(Date(y + 1, 1, 1)), MonthTokens(MonthWindow(YearMonth(y, 1), 12))))
  {
    assert YearMonthList(YearToken(y)) == MonthTokens(MonthWindow(YearMonth(y, 1), 12)) by { YearMonthListOfYear(y); }
    assert YearToken(y) + "-01-01" == DateToken(Date(y, 1, 1)) by { NewYearToken(y); }
    assert NextYearStart(YearToken(y), parseInt) == DateToken(Date(y + 1, 1, 1)) by { NewYearToken(y + 1); }
  }

  lemma NewYearToken(y: int)
    ensures YearToken(y) + "-01-01" == DateToken(Date(y, 1, 1))
  {
    assert Pad2(1) == "01";
    assert MonthToken(YearMonth(y, 1)) == YearToken(y) + "-01";
  }

  /**
   * A custom token of two dates covers every month from the start's
   * through the end's, and its exclusive end is the day after the end.
   */
  lemma CustomRange(start: Date, end: Date, parseInt: string -> Option<int>)
    requires ValidDate(start) && ValidDate(end) && start.year >= 0 && end.year >= 0
    ensures RangeOf(CustomPeriod, DateToken(start) + "_" + DateToken(end), parseInt) ==
      Some(Range(DateToken(start), DateToken(NextDay(end)), CustomMonthList(start, end)))
  {
    var a, b := DateToken(start), DateToken(end);
    assert SplitPeriod(a + "_" + b) == (a, Some(b)) by {
      DateTokenParts(start);
      DateTokenParts(end);
      SplitJoined(a, b);
    }
    assert ParseDateToken(a) == Some(start) by { DateTokenRoundTrip(start); }
    assert ParseDateToken(b) == Some(end) by { DateTokenRoundTrip(end); }
    CustomRangeOfSplit(a + "_" + b, a, b, start, end);
  }

  /** `getPeriodRange` on a token that splits into two dates. */
  lemma CustomRangeOfSplit(p: string, a: string, b: string, start: Date, end: Date)
    requires SplitPeriod(p) == (a, Some(b)) && ParseDateToken(a) == Some(start) && ParseDateToken(b) == Some(end)
    ensures CustomRangeOf(p) == Some(Range(a, DateToken(NextDay(end)), CustomMonthList(start, end)))
  {
  }

  /** A month is listed by a custom period exactly when it lies between the start's and the end's months. */
  lemma CustomMonthsCover(start: Date, end: Date, ym: YearMonth)
    requires ValidDate(start) && ValidDate(end) && ValidMonth(ym) && start.year >= 0 && ym.year >= 0
    ensures MonthToken(ym) in CustomMonthList(start, end) <==>
      MonthIndex(MonthOf(start)) <= MonthIndex(ym) <= MonthIndex(MonthOf(end))
  {
    var first := MonthOf(start);
    var n := MonthCount(first, end);
    TokenInWindow(first, n, ym);
    MonthWindowSpan(first, n, ym);
  }

  /** In a window of the common era a month's token is listed exactly when the month is. */
  lemma TokenInWindow(first: YearMonth, n: nat, ym: YearMonth)
    requires ValidMonth(first) && first.year >= 0 && ValidMonth(ym) && ym.year >= 0
    ensures MonthToken(ym) in MonthTokens(MonthWindow(first, n)) <==> ym in MonthWindow(first, n)
  {
    var w := MonthWindow(first, n);
    var ts := MonthTokens(w);
    assert MonthToken(ym) in ts ==> ym in w by {
      if MonthToken(ym) in ts {
        var k :| 0 <= k < |w| && ts[k] == MonthToken(ym);
        assert MonthIndex(w[k]) >= MonthIndex(first) >= 0;
        MonthTokenInjective(w[k], ym);
      }
    }
    assert ym in w ==> MonthToken(ym) in ts by {
      if ym in w {
        var k :| 0 <= k < |w| && w[k] == ym;
        assert ts[k] == MonthToken(ym);
      }
    }
  }

  /** A day lies in [start, day after end) exactly when it lies between start and end inclusive. */
  lemma ExclusiveEndIsInclusiveEnd(end: Date, d: Date)
    requires ValidDate(end) && ValidDate(d)
    ensures Ord(d) < Ord(NextDay(end)) <==> AtOrBefore(d, end)
  {
    if Ord(end) < Ord(d) {
      NextDayIsSuccessor(end, d);
    }
  }

  lemma Year2024()
    ensures YearToken(2024) == "2024"
  {
    assert NatToString(2) == "2";
    assert NatToString(20) == "20";
    assert NatToString(202) == "202";
  }

  lemma ExampleTokens()
    ensures DateToken(Date(2024, 1, 15)) == "2024-01-15"
    ensures DateToken(Date(2024, 3, 10)) == "2024-03-10"
    ensures DateToken(Date(2024, 3, 11)) == "2024-03-11"
    ensures MonthToken(YearMonth(2024, 1)) == "2024-01"
    ensures MonthToken(YearMonth(2024, 2)) == "2024-02"
    ensures MonthToken(YearMonth(2024, 3)) == "2024-03"
  {
    Year2024();
    assert MonthToken(YearMonth(2024, 1)) == "2024-01" by { assert Pad2(1) == "01"; }
    assert MonthToken(YearMonth(2024, 2)) == "2024-02" by { assert Pad2(2) == "02"; }
    assert MonthToken(YearMonth(2024, 3)) == "2024-03" by { assert Pad2(3) == "03"; }
    assert DateToken(Date(2024, 1, 15)) == "2024-01-15" by { assert Pad2(15) == "15"; }
    assert DateToken(Date(2024, 3, 10)) == "2024-03-10" by { assert Pad2(10) == "10"; }
    assert DateToken(Date(2024, 3, 11)) == "2024-03-11" by { assert Pad2(11) == "11"; }
  }

  /** A custom period inside one quarter lists its three months. */
  lemma ThreeMonthList(start: Date, end: Date)
    requires ValidDate(start) && ValidDate(end)
    requires MonthIndex(MonthOf(end)) == MonthIndex(MonthOf(start)) + 2
    ensures var m := MonthOf(start);
      CustomMonthList(start, end) == [MonthToken(m), MonthToken(NextMonth(m)), MonthToken(NextMonth(NextMonth(m)))]
  {
    var m := MonthOf(start);
    var w := MonthWindow(m, 3);
    MonthIndexInjective(w[0], m);
    MonthIndexInjective(w[1], NextMonth(m));
    MonthIndexInjective(w[2], NextMonth(NextMonth(m)));
  }

  /** "2024-01-15_2024-03-10" lists January to March 2024 and ends before 11 March. */
  lemma CustomExample(parseInt: string -> Option<int>)
    ensures RangeOf(CustomPeriod, "2024-01-15_2024-03-10", parseInt) ==
      Some(Range("2024-01-15", "2024-03-11", ["2024-01", "2024-02", "2024-03"]))
  {
    var s := Date(2024, 1, 15);
    var e := Date(2024, 3, 10);
    ExampleTokens();
    ThreeMonthList(s, e);
    assert NextMonth(YearMonth(2024, 1)) == YearMonth(2024, 2);
    assert NextMonth(YearMonth(2024, 2)) == YearMonth(2024, 3);
    assert NextDay(e) == Date(2024, 3, 11);
    assert "2024-01-15_2024-03-10" == DateToken(s) + "_" + DateToken(e);
    CustomRange(s, e, parseInt);
  }

  // ---------------------------------------------------------------------
  // Current periods

  /** `getCurrentPeriod` of the budget page: the custom end is the local last day of the month. */
  function PageCurrentPeriod(t: PeriodType, today: Date): string
    requires ValidDate(today)
  {
    var m := MonthOf(today);
    match t
    case MonthlyPeriod => MonthToken(m)
    case CustomPeriod => MonthToken(m) + "-01" + "_" + MonthToken(m) + "-" + Pad2(DaysInMonth(m.year, m.month))
    case AnnualPeriod => YearToken(today.year)
  }

  /**
   * `getCurrentPeriod` of the period selector: the custom end goes through
   * `toISOString`, which east of UTC names the day before the last.
   */
  function SelectorCurrentPeriod(t: PeriodType, today: Date, eastOfUtc: bool): string
    requires ValidDate(today)
  {
    var m := MonthOf(today);
    var last := DaysInMonth(m.year, m.month);
    match t
    case MonthlyPeriod => MonthToken(m)
    case CustomPeriod => MonthToken(m) + "-01" + "_" + DateToken(Date(m.year, m.month, if eastOfUtc then last - 1 else last))
    case AnnualPeriod => YearToken(today.year)
  }

  /** A custom period inside one month lists that month alone. */
  lemma OneMonthList(start: Date, end: Date)
    requires ValidDate(start) && ValidDate(end) && MonthOf(end) == MonthOf(start)
    ensures CustomMonthList(start, end) == [MonthToken(MonthOf(start))]
  {
    var w := MonthWindow(MonthOf(start), 1);
    MonthIndexInjective(w[0], MonthOf(start));
  }

  /**
   * The budget page's current custom period resolves to the current month:
   * it lists just this month and ends on the first of the next.
   */
  lemma PageCurrentCustomIsThisMonth(today: Date, parseInt: string -> Option<int>)
    requires ValidDate(today) && today.year >= 0
    ensures var m := MonthOf(today);
      RangeOf(CustomPeriod, PageCurrentPeriod(CustomPeriod, today), parseInt) ==
        Some(Range(DateToken(FirstOf(m)), DateToken(FirstOf(NextMonth(m))), [MonthToken(m)]))
  {
    var m := MonthOf(today);
    FirstOfToken(m);
    var last := LastOf(m);
    assert PageCurrentPeriod(CustomPeriod, today) == DateToken(FirstOf(m)) + "_" + DateToken(last);
    CustomRange(FirstOf(m), last, parseInt);
    OneMonthList(FirstOf(m), last);
  }

  /** The current monthly and annual periods resolve to the current month and year. */
  lemma PageCurrentPeriodIsThisMonth(today: Date, parseInt: string -> Option<int>)
    requires ValidDate(today) && today.year >= 0
    requires parseInt(YearToken(today.year)) == Some(today.year)
    ensures var m := MonthOf(today);
      RangeOf(MonthlyPeriod, PageCurrentPeriod(MonthlyPeriod, today), parseInt) ==
        Some(Range(DateToken(FirstOf(m)), DateToken(FirstOf(NextMonth(m))), [MonthToken(m)]))
    ensures RangeOf(AnnualPeriod, PageCurrentPeriod(AnnualPeriod, today), parseInt) ==
      Some(Range(DateToken(Date(today.year, 1, 1)), DateToken(Date(today.year + 1, 1, 1)),
                 MonthTokens(MonthWindow(YearMonth(today.year, 1), 12))))
  {
    MonthlyRange(MonthOf(today), parseInt);
    AnnualRange(today.year, parseInt);
  }

  /** The day before the last of a month: where `toISOString` lands east of UTC. */
  function DayBeforeLast(m: YearMonth): (d: Date)
    requires ValidMonth(m)
    ensures ValidDate(d) && MonthOf(d) == m && NextDay(d) == LastOf(m)
  {
    Date(m.year, m.month, DaysInMonth(m.year, m.month) - 1)
  }

  lemma SelectorCustomToken(today: Date)
    requires ValidDate(today)
    ensures SelectorCurrentPeriod(CustomPeriod, today, true) ==
      DateToken(FirstOf(MonthOf(today))) + "_" + DateToken(DayBeforeLast(MonthOf(today)))
    ensures SelectorCurrentPeriod(CustomPeriod, today, false) == PageCurrentPeriod(CustomPeriod, today)
  {
    var m := MonthOf(today);
    FirstOfToken(m);
    assert DateToken(LastOf(m)) == MonthToken(m) + "-" + Pad2(DaysInMonth(m.year, m.month));
  }

  /** East of UTC the selector's custom period stops a day early: the last day of the month is left out. */
  lemma SelectorCustomEastOfUtc(today: Date, parseInt: string -> Option<int>)
    requires ValidDate(today) && today.year >= 0
    ensures RangeOf(CustomPeriod, SelectorCurrentPeriod(CustomPeriod, today, true), parseInt) ==
      Some(Range(DateToken(FirstOf(MonthOf(today))), DateToken(LastOf(MonthOf(today))),
                 CustomMonthList(FirstOf(MonthOf(today)), DayBeforeLast(MonthOf(today)))))
    ensures SelectorCurrentPeriod(CustomPeriod, today, false) == PageCurrentPeriod(CustomPeriod, today)
  {
    var m := MonthOf(today);
    SelectorCustomToken(today);
    CustomRange(FirstOf(m), DayBeforeLast(m), parseInt);
  }

  // ---------------------------------------------------------------------
  // Selector state

  /** `handlePeriodTypeChange`: the new type with that type's current period. */
  function PeriodTypeChange(newType: PeriodType, today: Date, eastOfUtc: bool): (r: (PeriodType, string))
    requires ValidDate(today)
    ensures r.0 == newType && r.1 == SelectorCurrentPeriod(newType, today, eastOfUtc)
  {
    (newType, SelectorCurrentPeriod(newType, today, eastOfUtc))
  }

  /** `handleCustomDateRangeApply`: a custom token only when both dates are picked. */
  function CustomApply(start: Option<Date>, end: Option<Date>): (r: Option<string>)
    requires start.Some? ==> ValidDate(start.value)
    requires end.Some? ==> ValidDate(end.value)
    ensures r.Some? <==> start.Some? && end.Some?
    ensures r.Some? ==> r.value == DateToken(start.value) + "_" + DateToken(end.value)
  {
    if start.Some? && end.Some? then Some(DateToken(start.value) + "_" + DateToken(end.value)) else None
  }

  /** The applied custom token resolves to the picked dates' months. */
  lemma CustomApplyResolves(start: Date, end: Date, parseInt: string -> Option<int>)
    requires ValidDate(start) && ValidDate(end) && start.year >= 0 && end.year >= 0
    ensures RangeOf(CustomPeriod, CustomApply(Some(start), Some(end)).value, parseInt).Some?
    ensures RangeOf(CustomPeriod, CustomApply(Some(start), Some(end)).value, parseInt).value.months == CustomMonthList(start, end)
  {
    CustomRange(start, end, parseInt);
  }

  /** `getMonthOptions`: January of last year through December of next year. */
  method MonthOptions(year: int) returns (options: seq<string>)
    ensures options == MonthTokens(MonthWindow(YearMonth(year - 1, 1), 36))
  {
    options := [];
    var first := YearMonth(year - 1, 1);
    for y := year - 1 to year + 2
      invariant |options| == (y - year + 1) * 12
      invariant options == MonthTokens(MonthWindow(first, |options|))
    {
      for month := 1 to 13
        invariant |options| == (y - year + 1) * 12 + month - 1
        invariant options == MonthTokens(MonthWindow(first, |options|))
      {
        WindowAppend(first, |options|, YearMonth(y, month));
        options := options + [MonthToken(YearMonth(y, month))];
      }
    }
  }

  /** The 36 month options start and end where the selector says and ascend month by month. */
  lemma MonthOptionsSpan(year: int)
    ensures var w := MonthWindow(YearMonth(year - 1, 1), 36);
      w[0] == YearMonth(year - 1, 1) && w[35] == YearMonth(year + 1, 12) &&
      forall i :: 0 <= i < 35 ==> MonthIndex(w[i + 1]) == MonthIndex(w[i]) + 1
  {
    MonthAtIndex(YearMonth(year - 1, 1));
    MonthAtIndex(YearMonth(year + 1, 12));
  }

  /** `getYearOptions`: the five years around the current one. */
  method YearOptions(year: int) returns (options: seq<string>)
    ensures |options| == 5
    ensures forall i :: 0 <= i < 5 ==> options[i] == YearToken(year - 2 + i)
  {
    options := [];
    for y := year - 2 to year + 3
      invariant |options| == y - year + 2
      invariant forall i :: 0 <= i < |options| ==> options[i] == YearToken(year - 2 + i)
    {
      options := options + [YearToken(y)];
    }
  }

  /** The month selector's window: six months either side of the current month. */
  method MonthSelectorOptions(today: Date) returns (months: seq<string>)
    requires ValidDate(today)
    ensures months == MonthTokens(MonthWindow(AddMonthsToMonth(MonthOf(today), -6), 13))
  {
    months := [];
    var first := AddMonthsToMonth(MonthOf(today), -6);
    for i := -6 to 7
      invariant |months| == i + 6
      invariant months == MonthTokens(MonthWindow(first, |months|))
    {
      WindowAppend(first, |months|, AddMonthsToMonth(MonthOf(today), i));
      months := months + [MonthToken(AddMonthsToMonth(MonthOf(today), i))];
    }
  }

  /** The month selector's thirteen options are consecutive, with the current month in the middle. */
  lemma MonthSelectorCentred(today: Date)
    requires ValidDate(today)
    ensures var w := MonthWindow(AddMonthsToMonth(MonthOf(today), -6), 13);
      w[6] == MonthOf(today) &&
      forall i :: 0 <= i < 12 ==> w[i + 1] == NextMonth(w[i])
  {
    var w := MonthWindow(AddMonthsToMonth(MonthOf(today), -6), 13);
    MonthAtIndex(MonthOf(today));
    forall i | 0 <= i < 12
      ensures w[i + 1] == NextMonth(w[i])
    {
      MonthIndexInjective(w[i + 1], NextMonth(w[i]));
    }
  }
}
