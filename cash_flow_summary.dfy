/**
 * The monthly cash-flow summary: schedules grouped by the month they are
 * planned for, each month's income, expenses and net flow, and the
 * balance the plan leaves at the end of each month.
 */
module CashFlowSummary {
  import opened Common
  import opened Calendar
  import opened Rows
  import TransactionForm

  // ---------------------------------------------------------------------
  // Months

  /** The key `scheduled_month.slice(0, 7)`: the year and month of the planned date. */
  function MonthKey(s: Schedule): YearMonth
  {
    MonthOf(s.scheduledMonth)
  }

  /** The schedules filed under a month, in list order. */
  function SchedulesIn(ss: seq<Schedule>, ym: YearMonth): (r: seq<Schedule>)
    ensures forall s :: s in r <==> s in ss && MonthKey(s) == ym
  {
    if ss == [] then []
    else
      var s := ss[|ss| - 1];
      assert forall x :: x in ss <==> x in ss[..|ss| - 1] || x == s by {
        assert ss == ss[..|ss| - 1] + [s];
      }
      SchedulesIn(ss[..|ss| - 1], ym) + (if MonthKey(s) == ym then [s] else [])
  }

  /** One more schedule extends exactly the list of its own month. */
  lemma SchedulesInSnoc(ss: seq<Schedule>, s: Schedule, ym: YearMonth)
    ensures SchedulesIn(ss + [s], ym) == SchedulesIn(ss, ym) + (if MonthKey(s) == ym then [s] else [])
  {
    assert (ss + [s])[..|ss|] == ss;
  }

  /** The dictionary files each schedule under its month, and has a key for exactly the months with schedules. */
  ghost predicate Grouped(m: map<YearMonth, seq<Schedule>>, ss: seq<Schedule>)
  {
    (forall ym :: ym in m <==> SchedulesIn(ss, ym) != []) &&
    (forall ym :: ym in m ==> m[ym] == SchedulesIn(ss, ym))
  }

  /** Filing one more schedule under its month keeps the dictionary grouped. */
  lemma GroupStep(m: map<YearMonth, seq<Schedule>>, ss: seq<Schedule>, s: Schedule)
    requires Grouped(m, ss)
    ensures var key := MonthKey(s);
      Grouped(m[key := (if key in m then m[key] else []) + [s]], ss + [s])
  {
    var key := MonthKey(s);
    var m' := m[key := (if key in m then m[key] else []) + [s]];
    forall ym
      ensures ym in m' <==> SchedulesIn(ss + [s], ym) != []
      ensures ym in m' ==> m'[ym] == SchedulesIn(ss + [s], ym)
    {
      SchedulesInSnoc(ss, s, ym);
    }
  }

  /** The `forEach` that fills `schedulesByMonth`. */
  method GroupByMonth(ss: seq<Schedule>) returns (m: map<YearMonth, seq<Schedule>>)
    ensures Grouped(m, ss)
  {
    m := map[];
    for i := 0 to |ss|
      invariant Grouped(m, ss[..i])
    {
      var s := ss[i];
      var key := MonthKey(s);
      var existing := if key in m then m[key] else [];
      assert Grouped(m[key := existing + [s]], ss[..i + 1]) by {
        GroupStep(m, ss[..i], s);
        assert ss[..i + 1] == ss[..i] + [s];
      }
      m := m[key := existing + [s]];
    }
    assert ss[..|ss|] == ss;
  }

  /** Chronological order of months, which is the order `sort()` gives the keys `YYYY-MM`. */
  predicate Before(a: YearMonth, b: YearMonth)
  {
    a.year < b.year || (a.year == b.year && a.month < b.month)
  }

  predicate Ascending(ms: seq<YearMonth>)
  {
    forall i, j :: 0 <= i < j < |ms| ==> Before(ms[i], ms[j])
  }

  /** Insertion of a month into an ascending list of months, keeping one copy of each. */
  function Insert(ms: seq<YearMonth>, x: YearMonth): (r: seq<YearMonth>)
    requires Ascending(ms)
    ensures Ascending(r)
    ensures forall y :: y in r <==> y in ms || y == x
    ensures x in ms ==> r == ms
  {
    if ms == [] then [x]
    else if Before(x, ms[0]) then [x] + ms
    else if x == ms[0] then ms
    else
      assert Ascending(ms[1..]);
      var rest := Insert(ms[1..], x);
      assert forall y :: y in rest ==> Before(ms[0], y);
      [ms[0]] + rest
  }

  /** `Array.from(schedulesByMonth.keys()).sort()`: the months that have schedules, once each, ascending. */
  function MonthsOf(ss: seq<Schedule>): (r: seq<YearMonth>)
    ensures Ascending(r)
    ensures forall ym :: ym in r <==> SchedulesIn(ss, ym) != []
  {
    if ss == [] then []
    else
      var prefix := ss[..|ss| - 1];
      var s := ss[|ss| - 1];
      assert prefix + [s] == ss;
      forall ym
        ensures SchedulesIn(ss, ym) == SchedulesIn(prefix, ym) + (if MonthKey(s) == ym then [s] else [])
      {
        SchedulesInSnoc(prefix, s, ym);
      }
      Insert(MonthsOf(prefix), MonthKey(s))
  }

  /** No two entries of an ascending list are the same month. */
  lemma AscendingDistinct(ms: seq<YearMonth>)
    requires Ascending(ms)
    ensures forall i, j :: 0 <= i < |ms| && 0 <= j < |ms| && i != j ==> ms[i] != ms[j]
  {
    forall i, j | 0 <= i < |ms| && 0 <= j < |ms| && i != j
      ensures ms[i] != ms[j]
    {
      if i < j {
        assert Before(ms[i], ms[j]);
      } else {
        assert Before(ms[j], ms[i]);
      }
    }
  }

  /** Exactly when there are no schedules, there are no months to show. */
  lemma NoSchedulesNoMonths(ss: seq<Schedule>)
    ensures MonthsOf(ss) == [] <==> ss == []
  {
    if ss != [] {
      var s := ss[0];
      assert s in SchedulesIn(ss, MonthKey(s));
      assert MonthKey(s) in MonthsOf(ss);
    }
  }

  // ---------------------------------------------------------------------
  // Income and expenses

  /**
   * The type that decides a schedule's side: its category's parent's type
   * when the category has a parent, else the category's own; `None` when
   * the category or the parent is not found.
   */
  function TypeOf(cs: seq<Category>, s: Schedule): (r: Option<CategoryType>)
    ensures r.Some? ==> exists c :: c in cs && c.categoryType == r
  {
    match TransactionForm.FindCategory(cs, s.categoryId)
    case None => None
    case Some(c) =>
      if c.parentId.Some? then
        match TransactionForm.FindCategory(cs, c.parentId.value)
        case None => None
        case Some(p) => p.categoryType
      else c.categoryType
  }

  /** What one schedule adds to income: its signed amount when its side is income. */
  function IncomePart(cs: seq<Category>, s: Schedule): real
  {
    if TypeOf(cs, s) == Some(IncomeType) then s.scheduledAmount else 0.0
  }

  /** What one schedule adds to expenses: its absolute amount when its side is expense. */
  function ExpensePart(cs: seq<Category>, s: Schedule): (r: real)
    ensures r >= 0.0
  {
    if TypeOf(cs, s) == Some(ExpenseType) then Abs(s.scheduledAmount) else 0.0
  }

  function Income(cs: seq<Category>, ss: seq<Schedule>): real
  {
    if ss == [] then 0.0 else Income(cs, ss[..|ss| - 1]) + IncomePart(cs, ss[|ss| - 1])
  }

  function Expenses(cs: seq<Category>, ss: seq<Schedule>): (r: real)
    ensures r >= 0.0
  {
    if ss == [] then 0.0 else Expenses(cs, ss[..|ss| - 1]) + ExpensePart(cs, ss[|ss| - 1])
  }

  function Net(cs: seq<Category>, ss: seq<Schedule>): real
  {
    Income(cs, ss) - Expenses(cs, ss)
  }

  lemma NetSnoc(cs: seq<Category>, ss: seq<Schedule>, s: Schedule)
    ensures Net(cs, ss + [s]) == Net(cs, ss) + IncomePart(cs, s) - ExpensePart(cs, s)
  {
    assert (ss + [s])[..|ss|] == ss;
  }

  /** Schedules whose side is neither income nor expense leave both totals as they are. */
  lemma {:induction false} UntypedAddNothing(cs: seq<Category>, ss: seq<Schedule>, extra: seq<Schedule>)
    requires forall i :: 0 <= i < |extra| ==> TypeOf(cs, extra[i]).None?
    ensures Income(cs, ss + extra) == Income(cs, ss) && Expenses(cs, ss + extra) == Expenses(cs, ss)
    decreases |extra|
  {
    if extra == [] {
      assert ss + extra == ss;
    } else {
      var init := extra[..|extra| - 1];
      assert (ss + extra)[..|ss + extra| - 1] == ss + init;
      UntypedAddNothing(cs, ss, init);
    }
  }

  /** The `forEach` that totals one month's schedules. */
  method MonthTotals(cs: seq<Category>, ms: seq<Schedule>) returns (income: real, expenses: real)
    ensures income == Income(cs, ms) && expenses == Expenses(cs, ms)
  {
    income, expenses := 0.0, 0.0;
    for i := 0 to |ms|
      invariant income == Income(cs, ms[..i]) && expenses == Expenses(cs, ms[..i])
    {
      var s := ms[i];
      assert ms[..i + 1][..i] == ms[..i];
      var t := TypeOf(cs, s);
      if t == Some(IncomeType) {
        income := income + s.scheduledAmount;
      } else if t == Some(ExpenseType) {
        expenses := expenses + Abs(s.scheduledAmount);
      }
    }
    assert ms[..|ms|] == ms;
  }

  // ---------------------------------------------------------------------
  // The table

  datatype MonthData = MonthData(month: YearMonth, income: real, expenses: real, netFlow: real, schedules: seq<Schedule>)

  function DataFor(cs: seq<Category>, ss: seq<Schedule>, ym: YearMonth): (d: MonthData)
    ensures d.month == ym && d.schedules == SchedulesIn(ss, ym) && d.expenses >= 0.0
    ensures d.netFlow == d.income - d.expenses && d.netFlow == Net(cs, SchedulesIn(ss, ym))
  {
    var group := SchedulesIn(ss, ym);
    MonthData(ym, Income(cs, group), Expenses(cs, group), Income(cs, group) - Expenses(cs, group), group)
  }

  /** `monthlyData`: one entry per month that has schedules, in ascending order. */
  function MonthlyData(cs: seq<Category>, ss: seq<Schedule>): (r: seq<MonthData>)
    ensures |r| == |MonthsOf(ss)| && forall i :: 0 <= i < |r| ==> r[i] == DataFor(cs, ss, MonthsOf(ss)[i])
  {
    var ms := MonthsOf(ss);
    seq(|ms|, i requires 0 <= i < |ms| => DataFor(cs, ss, ms[i]))
  }

  method MonthlyDataOf(cs: seq<Category>, ss: seq<Schedule>) returns (r: seq<MonthData>)
    ensures r == MonthlyData(cs, ss)
  {
    var byMonth := GroupByMonth(ss);
    var ms := MonthsOf(ss);
    r := [];
    for i := 0 to |ms|
      invariant |r| == i && forall j :: 0 <= j < i ==> r[j] == DataFor(cs, ss, ms[j])
    {
      var group := if ms[i] in byMonth then byMonth[ms[i]] else [];
      var income, expenses := MonthTotals(cs, group);
      r := r + [MonthData(ms[i], income, expenses, income - expenses, group)];
    }
  }

  function NetFlows(data: seq<MonthData>): (r: seq<real>)
    ensures |r| == |data| && forall i :: 0 <= i < |data| ==> r[i] == data[i].netFlow
  {
    seq(|data|, i requires 0 <= i < |data| => data[i].netFlow)
  }

  datatype Row = Row(data: MonthData, endingBalance: real)

  /** The running balance: each month ends at the current balance plus every net flow up to and including it. */
  method WithBalances(currentBalance: real, data: seq<MonthData>) returns (rows: seq<Row>)
    ensures |rows| == |data|
    ensures forall k :: 0 <= k < |data| ==>
      rows[k].data == data[k] && rows[k].endingBalance == currentBalance + Sum(NetFlows(data[..k + 1]))
  {
    var running := currentBalance;
    rows := [];
    for i := 0 to |data|
      invariant |rows| == i && running == currentBalance + Sum(NetFlows(data[..i]))
      invariant forall k :: 0 <= k < i ==>
        rows[k].data == data[k] && rows[k].endingBalance == currentBalance + Sum(NetFlows(data[..k + 1]))
    {
      assert NetFlows(data[..i + 1])[..i] == NetFlows(data[..i]);
      running := running + data[i].netFlow;
      rows := rows + [Row(data[i], running)];
    }
  }

  // ---------------------------------------------------------------------
  // The plan's total

  /** The net flows of a list of months, added up. */
  function NetOver(ms: seq<YearMonth>, cs: seq<Category>, ss: seq<Schedule>): real
  {
    if ms == [] then 0.0 else Net(cs, SchedulesIn(ss, ms[0])) + NetOver(ms[1..], cs, ss)
  }

  lemma {:induction false} NetOverInsert(ms: seq<YearMonth>, x: YearMonth, cs: seq<Category>, ss: seq<Schedule>)
    requires Ascending(ms) && x !in ms
    ensures NetOver(Insert(ms, x), cs, ss) == NetOver(ms, cs, ss) + Net(cs, SchedulesIn(ss, x))
  {
    if ms != [] && !Before(x, ms[0]) {
      assert Ascending(ms[1..]);
      NetOverInsert(ms[1..], x, cs, ss);
    }
  }

  /** Two schedule lists whose months in the list have the same net add up to the same amount. */
  lemma {:induction false} NetOverAgree(ms: seq<YearMonth>, cs: seq<Category>, a: seq<Schedule>, b: seq<Schedule>)
    requires forall i :: 0 <= i < |ms| ==> Net(cs, SchedulesIn(a, ms[i])) == Net(cs, SchedulesIn(b, ms[i]))
    ensures NetOver(ms, cs, a) == NetOver(ms, cs, b)
  {
    if ms != [] {
      NetOverAgree(ms[1..], cs, a, b);
    }
  }

  /** Raising the net of one month that occurs once raises the total by as much. */
  lemma {:induction false} NetOverBump(ms: seq<YearMonth>, k: YearMonth, d: real, cs: seq<Category>, a: seq<Schedule>, b: seq<Schedule>)
    requires Ascending(ms) && k in ms
    requires forall i :: 0 <= i < |ms| ==>
      Net(cs, SchedulesIn(b, ms[i])) == Net(cs, SchedulesIn(a, ms[i])) + (if ms[i] == k then d else 0.0)
    ensures NetOver(ms, cs, b) == NetOver(ms, cs, a) + d
  {
    assert Ascending(ms[1..]);
    if ms[0] == k {
      forall i | 0 <= i < |ms[1..]|
        ensures Net(cs, SchedulesIn(a, ms[1..][i])) == Net(cs, SchedulesIn(b, ms[1..][i]))
      {
        assert Before(ms[0], ms[i + 1]);
      }
      NetOverAgree(ms[1..], cs, a, b);
    } else {
      NetOverBump(ms[1..], k, d, cs, a, b);
    }
  }

  /** One more schedule raises the net of its own month by its contribution and leaves the others. */
  lemma MonthNetSnoc(cs: seq<Category>, ss: seq<Schedule>, s: Schedule, ym: YearMonth)
    ensures Net(cs, SchedulesIn(ss + [s], ym)) ==
      Net(cs, SchedulesIn(ss, ym)) + (if ym == MonthKey(s) then IncomePart(cs, s) - ExpensePart(cs, s) else 0.0)
  {
    SchedulesInSnoc(ss, s, ym);
    if ym == MonthKey(s) {
      NetSnoc(cs, SchedulesIn(ss, ym), s);
    } else {
      assert SchedulesIn(ss, ym) + [] == SchedulesIn(ss, ym);
    }
  }

  /** The months' net flows add up to the net flow of all schedules: each schedule is counted in exactly one month. */
  lemma {:induction false} NetByMonth(cs: seq<Category>, ss: seq<Schedule>)
    ensures NetOver(MonthsOf(ss), cs, ss) == Net(cs, ss)
  {
    if ss != [] {
      var prefix := ss[..|ss| - 1];
      var s := ss[|ss| - 1];
      assert prefix + [s] == ss;
      NetSnoc(cs, prefix, s);
      NetByMonth(cs, prefix);
      NetByMonthStep(cs, prefix, s);
    }
  }

  lemma NetByMonthStep(cs: seq<Category>, prefix: seq<Schedule>, s: Schedule)
    ensures NetOver(MonthsOf(prefix + [s]), cs, prefix + [s]) ==
      NetOver(MonthsOf(prefix), cs, prefix) + IncomePart(cs, s) - ExpensePart(cs, s)
  {
    var ss := prefix + [s];
    assert ss[..|ss| - 1] == prefix;
    assert MonthsOf(ss) == Insert(MonthsOf(prefix), MonthKey(s));
    if MonthKey(s) in MonthsOf(prefix) {
      SeenMonthStep(cs, prefix, s);
    } else {
      NewMonthStep(cs, prefix, s);
    }
  }

  lemma SeenMonthStep(cs: seq<Category>, prefix: seq<Schedule>, s: Schedule)
    requires MonthKey(s) in MonthsOf(prefix)
    ensures NetOver(MonthsOf(prefix), cs, prefix + [s]) ==
      NetOver(MonthsOf(prefix), cs, prefix) + IncomePart(cs, s) - ExpensePart(cs, s)
  {
    var ms := MonthsOf(prefix);
    forall i | 0 <= i < |ms|
      ensures Net(cs, SchedulesIn(prefix + [s], ms[i])) ==
        Net(cs, SchedulesIn(prefix, ms[i])) + (if ms[i] == MonthKey(s) then IncomePart(cs, s) - ExpensePart(cs, s) else 0.0)
    {
      MonthNetSnoc(cs, prefix, s, ms[i]);
    }
    NetOverBump(ms, MonthKey(s), IncomePart(cs, s) - ExpensePart(cs, s), cs, prefix, prefix + [s]);
  }

  lemma NewMonthStep(cs: seq<Category>, prefix: seq<Schedule>, s: Schedule)
    requires MonthKey(s) !in MonthsOf(prefix)
    ensures NetOver(Insert(MonthsOf(prefix), MonthKey(s)), cs, prefix + [s]) ==
      NetOver(MonthsOf(prefix), cs, prefix) + IncomePart(cs, s) - ExpensePart(cs, s)
  {
    var ms := MonthsOf(prefix);
    var k := MonthKey(s);
    forall i | 0 <= i < |ms|
      ensures Net(cs, SchedulesIn(prefix, ms[i])) == Net(cs, SchedulesIn(prefix + [s], ms[i]))
    {
      MonthNetSnoc(cs, prefix, s, ms[i]);
    }
    NetOverAgree(ms, cs, prefix, prefix + [s]);
    NetOverInsert(ms, k, cs, prefix + [s]);
    MonthNetSnoc(cs, prefix, s, k);
    assert SchedulesIn(prefix, k) == [];
  }

  /** `Sum` taken front first. */
  lemma SumFront(xs: seq<real>)
    requires xs != []
    ensures Sum(xs) == xs[0] + Sum(xs[1..])
  {
    assert xs == [xs[0]] + xs[1..];
    SumAppend([xs[0]], xs[1..]);
    assert [xs[0]][..0] == [];
  }

  lemma {:induction false} NetOverIsSum(ms: seq<YearMonth>, cs: seq<Category>, ss: seq<Schedule>, xs: seq<real>)
    requires |xs| == |ms| && forall i :: 0 <= i < |ms| ==> xs[i] == Net(cs, SchedulesIn(ss, ms[i]))
    ensures NetOver(ms, cs, ss) == Sum(xs)
  {
    if ms != [] {
      SumFront(xs);
      NetOverIsSum(ms[1..], cs, ss, xs[1..]);
    }
  }

  /** The last month ends at the current balance plus the net flow of every schedule. */
  lemma FinalBalance(cs: seq<Category>, ss: seq<Schedule>, currentBalance: real)
    requires ss != []
    ensures var data := MonthlyData(cs, ss);
      |data| > 0 && currentBalance + Sum(NetFlows(data[..|data|])) == currentBalance + Net(cs, ss)
  {
    NoSchedulesNoMonths(ss);
    var data := MonthlyData(cs, ss);
    var ms := MonthsOf(ss);
    assert data[..|data|] == data;
    forall i | 0 <= i < |ms|
      ensures NetFlows(data)[i] == Net(cs, SchedulesIn(ss, ms[i]))
    {
      assert data[i] == DataFor(cs, ss, ms[i]);
    }
    NetOverIsSum(ms, cs, ss, NetFlows(data));
    NetByMonth(cs, ss);
  }

  /** The table for a balance, the fetched categories and the fetched schedules. */
  method SummaryTable(currentBalance: real, ss: seq<Schedule>, cs: seq<Category>) returns (rows: seq<Row>)
    ensures |rows| == |MonthsOf(ss)| && (rows == [] <==> ss == [])
    ensures forall k :: 0 <= k < |rows| ==> rows[k].data == MonthlyData(cs, ss)[k]
    ensures ss != [] ==> rows[|rows| - 1].endingBalance == currentBalance + Net(cs, ss)
  {
    NoSchedulesNoMonths(ss);
    var data := MonthlyDataOf(cs, ss);
    rows := WithBalances(currentBalance, data);
    if ss != [] {
      FinalBalance(cs, ss, currentBalance);
    }
  }

  // ---------------------------------------------------------------------
  // The page

  /** The parsed schedule response: a list, or anything else (an error object). */
  datatype Response = List(items: seq<Schedule>) | NotAList

  /** `Array.isArray(schedulesRes) ? schedulesRes : []`. */
  function SchedulesFrom(res: Response): (r: seq<Schedule>)
    ensures res.List? ==> r == res.items
    ensures res.NotAList? ==> r == []
  {
    match res
    case List(items) => items
    case NotAList => []
  }
}
