/**
 * The cash-flow forecast: from the current total balance, one point per
 * month ahead, each adding the income and expense the recurring templates
 * are expected to produce by then. Counts are cumulative estimates, not a
 * calendar expansion: a template's own date is never looked at.
 */
module Forecast {
  import opened Common
  import opened Calendar
  import opened Rows
  import Recurrence
  import Balances

  /** `Math.floor(a / b)` on integers, for either sign of the divisor. */
  function FloorDiv(a: int, b: int): (q: int)
    requires b != 0
    ensures b > 0 ==> q * b <= a < q * b + b
    ensures b < 0 ==> q * b >= a > q * b + b
  {
    if b > 0 then a / b else (-a) / (-b)
  }

  /**
   * The cumulative occurrence estimate at `i` months ahead: weekly
   * ⌊30·i / (7·interval)⌋, monthly ⌊i / interval⌋, yearly one once
   * `i` reaches twelve intervals, any other frequency none.
   */
  function Occurrences(t: Transaction, i: int): int
  {
    var k := Recurrence.IntervalOf(t);
    if t.frequency == Some(Weekly) then FloorDiv(30 * i, 7 * k)
    else if t.frequency == Some(Monthly) then FloorDiv(i, k)
    else if t.frequency == Some(Yearly) then (if i >= 12 * k then 1 else 0)
    else 0
  }

  /** What each count is, as the floor it takes. */
  lemma OccurrencesMeaning(t: Transaction, i: int)
    ensures var n, k := Occurrences(t, i), Recurrence.IntervalOf(t);
      (t.frequency.None? || t.frequency == Some(OtherFrequency) ==> n == 0) &&
      (t.frequency == Some(Yearly) ==> (n == 1 <==> i >= 12 * k) && (n == 0 || n == 1)) &&
      (t.frequency == Some(Monthly) && k > 0 ==> n * k <= i < n * k + k) &&
      (t.frequency == Some(Weekly) && k > 0 ==> n * (7 * k) <= 30 * i < n * (7 * k) + 7 * k)
  {
  }

  /** A missing or zero interval counts a monthly template once a month. */
  lemma MonthlyCountsMonths(t: Transaction, i: int)
    requires t.frequency == Some(Monthly) && (t.interval.None? || t.interval == Some(0))
    ensures Occurrences(t, i) == i
  {
    var n := Occurrences(t, i);
    OccurrencesMeaning(t, i);
    assert n <= i < n + 1;
  }

  /** With a negative interval no weekly or monthly count is positive: such a template never contributes. */
  lemma NegativeIntervalNeverCounts(t: Transaction, i: int)
    requires t.frequency == Some(Weekly) || t.frequency == Some(Monthly)
    requires t.interval.Some? && t.interval.value < 0 && i >= 0
    ensures Occurrences(t, i) <= 0
  {
    var k := t.interval.value;
    assert Recurrence.IntervalOf(t) == k;
    if t.frequency == Some(Weekly) {
      var q := FloorDiv(30 * i, 7 * k);
      assert Occurrences(t, i) == q;
      NonPositiveFactor(q, 7 * k);
    } else if t.frequency == Some(Monthly) {
      var q := FloorDiv(i, k);
      assert Occurrences(t, i) == q;
      NonPositiveFactor(q, k);
    }
  }

  /** … while a yearly one counts once from the very first month. */
  lemma NegativeYearlyCountsAtOnce(t: Transaction, i: int)
    requires t.frequency == Some(Yearly) && t.interval.Some? && t.interval.value < 0 && i >= 0
    ensures Occurrences(t, i) == 1
  {
  }

  lemma NonPositiveFactor(q: int, k: int)
    requires k < 0 && q * k >= 0
    ensures q <= 0
  {
  }

  /** `a / c` grows with `a` for a positive `c`. */
  lemma DivMonotone(a: int, b: int, c: int)
    requires a <= b && c > 0
    ensures a / c <= b / c
  {
    var p, q := a / c, b / c;
    assert c * p <= a && b < c * q + c;
    assert c * (p - q - 1) < 0;
  }

  /** Counts are cumulative: with a positive interval they never decrease as the horizon grows. */
  lemma OccurrencesGrow(t: Transaction, i: int, j: int)
    requires i <= j && Recurrence.IntervalOf(t) > 0
    ensures Occurrences(t, i) <= Occurrences(t, j)
  {
    var k := Recurrence.IntervalOf(t);
    if t.frequency == Some(Weekly) {
      DivMonotone(30 * i, 30 * j, 7 * k);
    } else if t.frequency == Some(Monthly) {
      DivMonotone(i, j, k);
    }
  }

  /** The template has ended: it has an end date and the forecast date is past it. */
  predicate Ended(t: Transaction, forecastDate: Date)
  {
    t.recurrenceEnd.Some? && Ord(forecastDate) > Ord(t.recurrenceEnd.value)
  }

  /** A month's expected income and expense. */
  datatype Flow = Flow(income: real, expense: real)

  /**
   * One template's part of month `i`: nothing once ended or with no
   * occurrence; otherwise the absolute total times the count, as income
   * or expense by its type, and nothing for a transfer.
   */
  function TemplateFlow(t: Transaction, i: int, forecastDate: Date): (f: Flow)
    ensures f.income >= 0.0 && f.expense >= 0.0
    ensures t.txType != Income ==> f.income == 0.0
    ensures t.txType != Expense ==> f.expense == 0.0
    ensures Ended(t, forecastDate) || Occurrences(t, i) <= 0 ==> f == Flow(0.0, 0.0)
    ensures !Ended(t, forecastDate) && Occurrences(t, i) > 0 && t.txType == Income ==>
      f.income == Times(Abs(SignedTotal(t)), Occurrences(t, i))
    ensures !Ended(t, forecastDate) && Occurrences(t, i) > 0 && t.txType == Expense ==>
      f.expense == Times(Abs(SignedTotal(t)), Occurrences(t, i))
  {
    var n := Occurrences(t, i);
    if Ended(t, forecastDate) || n <= 0 then Flow(0.0, 0.0)
    else
      var amount := Times(Abs(SignedTotal(t)), n);
      if t.txType == Income then Flow(amount, 0.0)
      else if t.txType == Expense then Flow(0.0, amount)
      else Flow(0.0, 0.0)
  }

  /** `amount * occurrences`. */
  function Times(x: real, n: int): (r: real)
    ensures x >= 0.0 && n >= 0 ==> r >= 0.0
  {
    x * n as real
  }

  /** All templates' part of month `i`, in list order. */
  function MonthFlow(ts: seq<Transaction>, i: int, forecastDate: Date): (f: Flow)
    ensures f.income >= 0.0 && f.expense >= 0.0
  {
    if ts == [] then Flow(0.0, 0.0)
    else
      var f := MonthFlow(ts[..|ts| - 1], i, forecastDate);
      var g := TemplateFlow(ts[|ts| - 1], i, forecastDate);
      Flow(f.income + g.income, f.expense + g.expense)
  }

  /** A point of the chart; the label is presentation. */
  datatype Point = Point(date: Date, balance: real, income: real, expense: real)

  /** The first `n` months ahead after the starting point. */
  function Points(currentBalance: real, ts: seq<Transaction>, today: Date, n: nat): (p: seq<Point>)
    requires ValidDate(today)
    ensures |p| == n + 1 && p[0] == Point(today, currentBalance, 0.0, 0.0)
  {
    if n == 0 then [Point(today, currentBalance, 0.0, 0.0)]
    else
      var prev := Points(currentBalance, ts, today, n - 1);
      var d := AddMonths(today, n);
      var f := MonthFlow(ts, n, d);
      prev + [Point(d, prev[n - 1].balance + f.income - f.expense, f.income, f.expense)]
  }

  /** The chart for `months` months; a count below one yields the starting point only. */
  function Projection(currentBalance: real, ts: seq<Transaction>, today: Date, months: int): seq<Point>
    requires ValidDate(today)
  {
    Points(currentBalance, ts, today, if months < 0 then 0 else months)
  }

  /** Every later point is dated `i` months ahead, carries that month's flow and moves the balance by it. */
  lemma {:induction false} PointsShape(currentBalance: real, ts: seq<Transaction>, today: Date, n: nat, i: nat)
    requires ValidDate(today) && 1 <= i <= n
    ensures var p := Points(currentBalance, ts, today, n);
      var f := MonthFlow(ts, i, AddMonths(today, i));
      p[i] == Point(AddMonths(today, i), p[i - 1].balance + f.income - f.expense, f.income, f.expense)
  {
    var p := Points(currentBalance, ts, today, n);
    var q := Points(currentBalance, ts, today, n - 1);
    assert p == q + [p[n]];
    if i < n {
      PointsShape(currentBalance, ts, today, n - 1, i);
      assert p[i] == q[i] && p[i - 1] == q[i - 1];
    }
  }

  /** A longer chart extends a shorter one. */
  lemma PointsPrefix(currentBalance: real, ts: seq<Transaction>, today: Date, n: nat)
    requires ValidDate(today) && n >= 1
    ensures Points(currentBalance, ts, today, n)[..n] == Points(currentBalance, ts, today, n - 1)
  {
  }

  /** The incomes, the expenses and the balances of the points. */
  function Incomes(p: seq<Point>): seq<real>
  {
    seq(|p|, i requires 0 <= i < |p| => p[i].income)
  }

  function Expenses(p: seq<Point>): seq<real>
  {
    seq(|p|, i requires 0 <= i < |p| => p[i].expense)
  }

  /** The last balance is the current balance plus every month's income less its expense. */
  lemma FinalBalance(currentBalance: real, ts: seq<Transaction>, today: Date, n: nat)
    requires ValidDate(today)
    ensures var p := Points(currentBalance, ts, today, n);
      p[n].balance == currentBalance + Sum(Incomes(p)) - Sum(Expenses(p))
  {
    var p := Points(currentBalance, ts, today, n);
    forall i | 1 <= i < |p|
      ensures p[i].balance == p[i - 1].balance + p[i].income - p[i].expense
    {
      PointsShape(currentBalance, ts, today, n, i);
    }
    ChainedFinal(p);
  }

  /** Balances that move by each point's income less its expense end at the start plus the totals. */
  lemma {:induction false} ChainedFinal(p: seq<Point>)
    requires p != [] && p[0].income == 0.0 && p[0].expense == 0.0
    requires forall i :: 1 <= i < |p| ==> p[i].balance == p[i - 1].balance + p[i].income - p[i].expense
    ensures p[|p| - 1].balance == p[0].balance + Sum(Incomes(p)) - Sum(Expenses(p))
  {
    var k := |p| - 1;
    if k == 0 {
      assert Incomes(p)[..0] == [] && Expenses(p)[..0] == [];
    } else {
      var q := p[..k];
      ChainedFinal(q);
      assert Incomes(p)[..k] == Incomes(q);
      assert Expenses(p)[..k] == Expenses(q);
    }
  }

  /** No templates: every point keeps the current balance. */
  lemma {:induction false} NoTemplatesFlat(currentBalance: real, today: Date, n: nat)
    requires ValidDate(today)
    ensures forall i :: 0 <= i <= n ==> Points(currentBalance, [], today, n)[i].balance == currentBalance
  {
    if n > 0 {
      NoTemplatesFlat(currentBalance, today, n - 1);
      PointsPrefix(currentBalance, [], today, n);
      var p := Points(currentBalance, [], today, n);
      forall i | 0 <= i <= n
        ensures p[i].balance == currentBalance
      {
        if i < n {
          assert p[i] == p[..n][i];
        }
      }
    }
  }

  /** Two template lists that differ only in the templates' own dates. */
  predicate SameButDates(ts: seq<Transaction>, us: seq<Transaction>)
  {
    |ts| == |us| && forall i :: 0 <= i < |ts| ==> us[i] == ts[i].(transactionDate := us[i].transactionDate)
  }

  lemma TemplateFlowIgnoresDate(t: Transaction, x: Date, i: int, d: Date)
    ensures TemplateFlow(t.(transactionDate := x), i, d) == TemplateFlow(t, i, d)
  {
    var u := t.(transactionDate := x);
    assert Occurrences(u, i) == Occurrences(t, i) by {
      assert u.frequency == t.frequency && Recurrence.IntervalOf(u) == Recurrence.IntervalOf(t);
    }
    assert SignedTotal(u) == SignedTotal(t);
  }

  lemma {:induction false} MonthFlowIgnoresDates(ts: seq<Transaction>, us: seq<Transaction>, i: int, d: Date)
    requires SameButDates(ts, us)
    ensures MonthFlow(ts, i, d) == MonthFlow(us, i, d)
  {
    if ts != [] {
      var t, u := ts[|ts| - 1], us[|us| - 1];
      TemplateFlowIgnoresDate(t, u.transactionDate, i, d);
      var ts', us' := ts[..|ts| - 1], us[..|us| - 1];
      assert SameButDates(ts', us') by {
        forall j | 0 <= j < |ts'|
          ensures us'[j] == ts'[j].(transactionDate := us'[j].transactionDate)
        {
          assert us'[j] == us[j] && ts'[j] == ts[j];
        }
      }
      MonthFlowIgnoresDates(ts', us', i, d);
    }
  }

  /** The templates' start dates have no effect on the chart. */
  lemma {:induction false} ProjectionIgnoresDates(currentBalance: real, ts: seq<Transaction>, us: seq<Transaction>, today: Date, n: nat)
    requires ValidDate(today) && SameButDates(ts, us)
    ensures Points(currentBalance, ts, today, n) == Points(currentBalance, us, today, n)
  {
    if n > 0 {
      ProjectionIgnoresDates(currentBalance, ts, us, today, n - 1);
      MonthFlowIgnoresDates(ts, us, n, AddMonths(today, n));
    }
  }

  /** The inner loop over the templates for month `i`. */
  method MonthTotals(ts: seq<Transaction>, i: int, forecastDate: Date) returns (income: real, expense: real)
    ensures Flow(income, expense) == MonthFlow(ts, i, forecastDate)
  {
    income, expense := 0.0, 0.0;
    for j := 0 to |ts|
      invariant Flow(income, expense) == MonthFlow(ts[..j], i, forecastDate)
    {
      assert ts[..j + 1][..j] == ts[..j];
      var f := TemplateFlow(ts[j], i, forecastDate);
      income := income + f.income;
      expense := expense + f.expense;
    }
    assert ts[..|ts|] == ts;
  }

  /** `forecastData`: the starting point, then one point per month with the running balance. */
  method ForecastData(currentBalance: real, ts: seq<Transaction>, today: Date, months: int) returns (data: seq<Point>)
    requires ValidDate(today)
    ensures data == Projection(currentBalance, ts, today, months)
  {
    var runningBalance := currentBalance;
    data := [Point(today, runningBalance, 0.0, 0.0)];
    var i := 1;
    while i <= months
      invariant 1 <= i && (months >= 0 ==> i <= months + 1) && (months < 0 ==> i == 1)
      invariant Charted(currentBalance, ts, today, i - 1, data, runningBalance)
    {
      var forecastDate := AddMonths(today, i);
      var income, expense := MonthTotals(ts, i, forecastDate);
      ghost var balance' := runningBalance + income - expense;
      ghost var data' := data + [Point(forecastDate, balance', income, expense)];
      assert Charted(currentBalance, ts, today, i, data', balance') by {
        PointsStep(currentBalance, ts, today, i, data, runningBalance, Flow(income, expense), data', balance');
      }
      runningBalance := runningBalance + income - expense;
      data := data + [Point(forecastDate, runningBalance, income, expense)];
      i := i + 1;
    }
    assert i - 1 == (if months < 0 then 0 else months);
  }

  /** The loop's state after `n` months: the points so far and the balance of the last one. */
  predicate Charted(currentBalance: real, ts: seq<Transaction>, today: Date, n: nat, data: seq<Point>, runningBalance: real)
    requires ValidDate(today)
  {
    data == Points(currentBalance, ts, today, n) && runningBalance == data[n].balance
  }

  /** One more month of the loop: the next point carries the month's flow and moves the balance by it. */
  lemma PointsStep(currentBalance: real, ts: seq<Transaction>, today: Date, n: nat, data: seq<Point>, runningBalance: real, f: Flow,
                   data': seq<Point>, balance': real)
    requires ValidDate(today) && n >= 1
    requires Charted(currentBalance, ts, today, n - 1, data, runningBalance) && f == MonthFlow(ts, n, AddMonths(today, n))
    requires balance' == runningBalance + f.income - f.expense && data' == data + [Point(AddMonths(today, n), balance', f.income, f.expense)]
    ensures Charted(currentBalance, ts, today, n, data', balance')
  {
  }

  /** The figures under the chart. */
  datatype Summary = Summary(finalBalance: real, totalIncome: real, totalExpense: real, netChange: real)

  /** `?.balance || currentBalance`: a last balance of exactly 0, or no point, falls back to the current balance. */
  function SummaryOf(data: seq<Point>, currentBalance: real): (s: Summary)
    ensures s.netChange == s.finalBalance - currentBalance
    ensures s.totalIncome == Sum(Incomes(data)) && s.totalExpense == Sum(Expenses(data))
    ensures |data| > 0 && data[|data| - 1].balance != 0.0 ==> s.finalBalance == data[|data| - 1].balance
    ensures |data| == 0 || data[|data| - 1].balance == 0.0 ==> s.finalBalance == currentBalance
  {
    var last := if |data| > 0 then data[|data| - 1].balance else 0.0;
    var final := if last != 0.0 then last else currentBalance;
    Summary(final, Sum(Incomes(data)), Sum(Expenses(data)), final - currentBalance)
  }

  /**
   * The net change of a chart is its total income less its total expense,
   * except that a projection ending at exactly 0 shows no change.
   */
  lemma NetChangeIsTotalFlow(currentBalance: real, ts: seq<Transaction>, today: Date, months: int)
    requires ValidDate(today)
    ensures var p := Projection(currentBalance, ts, today, months);
      var s := SummaryOf(p, currentBalance);
      s.netChange == (if p[|p| - 1].balance == 0.0 then 0.0 else s.totalIncome - s.totalExpense)
  {
    FinalBalance(currentBalance, ts, today, if months < 0 then 0 else months);
  }

  /**
   * The forecast page: the current balance is the total of the computed
   * account balances, and the chart is fed the recurring templates.
   */
  function PageForecast(accounts: seq<Account>, txs: seq<Transaction>, today: Date, months: int): (p: seq<Point>)
    requires ValidDate(today)
    ensures |p| == (if months < 0 then 0 else months) + 1
    ensures p[0].balance == Balances.TotalBalance(accounts, txs) && p[0].income == 0.0 && p[0].expense == 0.0
  {
    Projection(Balances.TotalBalance(accounts, txs), Recurrence.Templates(txs), today, months)
  }

  /** A generated child is not a template: the chart's income and expense ignore it. */
  lemma {:induction false} ChildNotProjected(txs: seq<Transaction>, c: Transaction)
    requires c.parentTransactionId.Some?
    ensures Recurrence.Templates(txs + [c]) == Recurrence.Templates(txs)
  {
    FilterAppend(txs, [c], Recurrence.IsTemplate);
    assert [c][..0] == [];
  }
}
