/**
 * The budget page: the projects relevant to the period, the budget and
 * transaction windows they select, the per-category aggregation of the
 * budget rows, and the three summary cards.
 */
module BudgetPage {
  import opened Common
  import opened Calendar
  import opened Rows
  import opened BudgetRows
  import opened Periods
  import Balances
  import BudgetTable
  import AddExistingCategory

  // ---------------------------------------------------------------------
  // The windows

  /**
   * The project filter: a project missing a date is relevant; otherwise it
   * is relevant when it starts no later than the exclusive period end and
   * ends no earlier than the period start. A bound that is not a date is
   * an invalid `Date`, and every comparison with it is false.
   */
  predicate Relevant(p: Project, r: Range)
  {
    if p.startDate.None? || p.endDate.None? then true
    else
      var s := ParseDateToken(r.startDate);
      var e := ParseDateToken(r.endDate);
      s.Some? && e.Some? && Ord(p.startDate.value) <= Ord(e.value) && Ord(p.endDate.value) >= Ord(s.value)
  }

  /** The overlap test of a dated project, in calendar terms. */
  lemma RelevantIffOverlap(p: Project, r: Range, start: Date, end: Date)
    requires p.startDate.Some? && p.endDate.Some?
    requires ParseDateToken(r.startDate) == Some(start) && ParseDateToken(r.endDate) == Some(end)
    requires ValidDate(start) && ValidDate(end) && ValidDate(p.startDate.value) && ValidDate(p.endDate.value)
    ensures Relevant(p, r) <==> AtOrBefore(p.startDate.value, end) && AtOrBefore(start, p.endDate.value)
  {
    OrdIsChronological(p.startDate.value, end);
    OrdIsChronological(start, p.endDate.value);
  }

  /** A project that starts on the exclusive end of the period, the day after it, still counts. */
  lemma StartOnExclusiveEndIsRelevant()
    ensures Relevant(Project("p", "Fit-out", Some(Date(2024, 2, 1)), Some(Date(2024, 3, 31))),
                     Range("2024-01-01", "2024-02-01", ["2024-01"]))
  {
    FirstOf2024Token(1);
    assert DateToken(Date(2024, 1, 1)) == "2024-01-01" by {
      assert "2024-0" + [DigitChar(1)] + "-01" == "2024-01-01";
    }
    FirstOf2024Token(2);
    assert DateToken(Date(2024, 2, 1)) == "2024-02-01" by {
      assert "2024-0" + [DigitChar(2)] + "-01" == "2024-02-01";
    }
    DateTokenRoundTrip(Date(2024, 1, 1));
    DateTokenRoundTrip(Date(2024, 2, 1));
  }

  /** The token of the first of a single-digit month of 2024. */
  lemma FirstOf2024Token(m: int)
    requires 1 <= m <= 9
    ensures DateToken(Date(2024, m, 1)) == "2024-0" + [DigitChar(m)] + "-01"
  {
    assert YearToken(2024) == "2024" by {
      assert NatToString(2024) == NatToString(202) + ['4'];
      assert NatToString(202) == NatToString(20) + ['2'];
      assert NatToString(20) == NatToString(2) + ['0'];
    }
  }

  /** `relevantProjects.map((p) => p.id)`. */
  function RelevantIds(ps: seq<Project>, r: Range): (ids: seq<Id>)
    ensures forall id :: id in ids <==> exists p :: p in ps && Relevant(p, r) && p.id == id
  {
    if ps == [] then []
    else
      var init := RelevantIds(ps[..|ps| - 1], r);
      var p := ps[|ps| - 1];
      assert forall q :: q in ps <==> q in ps[..|ps| - 1] || q == p by {
        assert ps == ps[..|ps| - 1] + [p];
      }
      if Relevant(p, r) then init + [p.id] else init
  }

  /**
   * The project condition of both queries: `in("project_id", ids)`, or,
   * with no relevant project, `eq` on the nil id. A null project id never
   * matches either.
   */
  predicate InProjects(projectId: Option<Id>, ids: seq<Id>)
  {
    if ids != [] then projectId.Some? && projectId.value in ids else projectId == Some(NilProjectId)
  }

  /** The all-zero UUID the page filters on when no project is relevant; no project carries it. */
  const NilProjectId: Id := "00000000-0000-0000-0000-000000000000"

  /** `months.map((m) => m + "-01")`. */
  function MonthDays(months: seq<string>): (r: seq<string>)
    ensures |r| == |months| && forall i :: 0 <= i < |months| ==> r[i] == months[i] + "-01"
  {
    seq(|months|, i requires 0 <= i < |months| => months[i] + "-01")
  }

  /** The budget rows the page loads. */
  function WindowBudgets(bs: seq<Budget>, r: Range, ids: seq<Id>): (w: seq<Budget>)
    ensures forall b :: b in w <==> b in bs && b.month in MonthDays(r.months) && InProjects(b.projectId, ids)
  {
    Filter(bs, (b: Budget) => b.month in MonthDays(r.months) && InProjects(b.projectId, ids))
  }

  /**
   * The transactions the page loads: `pl_date` in [startDate, endDate). A
   * bound that is not a date makes the query fail, and the page uses `[]`.
   */
  function WindowTransactions(txs: seq<Transaction>, r: Range, ids: seq<Id>): (w: seq<Transaction>)
    ensures ParseDateToken(r.startDate).None? || ParseDateToken(r.endDate).None? ==> w == []
    ensures ParseDateToken(r.startDate).Some? && ParseDateToken(r.endDate).Some? ==>
      forall t :: t in w <==> (t in txs && InProjects(t.projectId, ids) &&
        Ord(ParseDateToken(r.startDate).value) <= Ord(t.plDate) < Ord(ParseDateToken(r.endDate).value))
  {
    var s := ParseDateToken(r.startDate);
    var e := ParseDateToken(r.endDate);
    if s.None? || e.None? then []
    else Filter(txs, (t: Transaction) => InProjects(t.projectId, ids) && Ord(s.value) <= Ord(t.plDate) < Ord(e.value))
  }

  /** A monthly period loads exactly the transactions booked in that month. */
  lemma MonthlyWindowIsTheMonth(txs: seq<Transaction>, ym: YearMonth, parseInt: string -> Option<int>, ids: seq<Id>, t: Transaction)
    requires ValidMonth(ym) && ym.year >= 0 && ValidDate(t.plDate) && t in txs && InProjects(t.projectId, ids)
    ensures RangeOf(MonthlyPeriod, MonthToken(ym), parseInt).Some?
    ensures t in WindowTransactions(txs, RangeOf(MonthlyPeriod, MonthToken(ym), parseInt).value, ids) <==> MonthOf(t.plDate) == ym
  {
    MonthlyRange(ym, parseInt);
    var r := RangeOf(MonthlyPeriod, MonthToken(ym), parseInt).value;
    var next := NextMonth(ym);
    assert ValidMonth(next);
    DateTokenRoundTrip(FirstOf(ym));
    DateTokenRoundTrip(FirstOf(next));
    WindowOfDates(txs, r, ids, t, FirstOf(ym), FirstOf(next));
    InMonthIff(ym, t.plDate);
  }

  /** Between two parsed bounds, a transaction of the projects is loaded exactly when its P&L date is in [start, end). */
  lemma WindowOfDates(txs: seq<Transaction>, r: Range, ids: seq<Id>, t: Transaction, start: Date, end: Date)
    requires ParseDateToken(r.startDate) == Some(start) && ParseDateToken(r.endDate) == Some(end)
    requires t in txs && InProjects(t.projectId, ids)
    ensures t in WindowTransactions(txs, r, ids) <==> Ord(start) <= Ord(t.plDate) < Ord(end)
  {
  }

  /** A day lies in [first of the month, first of the next month) exactly when it is in the month. */
  lemma InMonthIff(ym: YearMonth, d: Date)
    requires ValidMonth(ym) && ValidDate(d)
    ensures Ord(FirstOf(ym)) <= Ord(d) < Ord(FirstOf(NextMonth(ym))) <==> MonthOf(d) == ym
  {
    if MonthOf(d) == ym {
      FirstAtOrBefore(ym, d);
      OrdIsChronological(FirstOf(ym), d);
      EarlierThanNextMonth(ym, d);
    } else {
      OutsideMonth(ym, d);
    }
  }

  lemma EarlierThanNextMonth(ym: YearMonth, d: Date)
    requires ValidMonth(ym) && ValidDate(d) && MonthOf(d) == ym
    ensures Ord(d) < Ord(FirstOf(NextMonth(ym)))
  {
    var n := FirstOf(NextMonth(ym));
    LaterMonthLaterDay(d, n);
  }

  lemma OutsideMonth(ym: YearMonth, d: Date)
    requires ValidMonth(ym) && ValidDate(d) && MonthOf(d) != ym
    ensures !(Ord(FirstOf(ym)) <= Ord(d) < Ord(FirstOf(NextMonth(ym))))
  {
    var f := FirstOf(ym);
    var n := FirstOf(NextMonth(ym));
    if MonthIndex(MonthOf(d)) < MonthIndex(ym) {
      LaterMonthLaterDay(d, f);
    } else {
      if MonthIndex(MonthOf(d)) == MonthIndex(ym) {
        MonthIndexInjective(MonthOf(d), ym);
      }
      if MonthIndex(MonthOf(d)) > MonthIndex(NextMonth(ym)) {
        LaterMonthLaterDay(n, d);
      } else {
        MonthIndexInjective(MonthOf(d), NextMonth(ym));
        FirstAtOrBefore(NextMonth(ym), d);
        OrdIsChronological(n, d);
      }
    }
  }

  // ---------------------------------------------------------------------
  // aggregateBudgetsByCategory

  /** One entry of the aggregation. */
  datatype Aggregate = Aggregate(id: Id, categoryId: Id, figures: Figures)

  /**
   * What one row adds to its entry: the six stored columns, null as 0.
   * A budget row has no actual columns, so both actuals add 0.
   */
  function Stored(b: Budget): Figures
  {
    Figures(OrZero(b.k1WithVat), OrZero(b.k1WithoutVat), OrZero(b.vat), OrZero(b.k2),
            OrZero(b.totalWithoutVat), OrZero(b.totalWithVat), 0.0, 0.0)
  }

  /** The entry of a category after the loop has run over `bs`; `None` before its first row. */
  function AggregateOf(bs: seq<Budget>, k: Id): Option<Aggregate>
  {
    if bs == [] then None
    else
      var prev := AggregateOf(bs[..|bs| - 1], k);
      var b := bs[|bs| - 1];
      if b.categoryId != k then prev
      else if prev.None? then Some(Aggregate(b.id, k, Plus(Zero, Stored(b))))
      else Some(prev.value.(figures := Plus(prev.value.figures, Stored(b))))
  }

  /** One more row changes its own category's entry only. */
  lemma AggregateOfStep(bs: seq<Budget>, i: nat, k: Id)
    requires i < |bs|
    ensures AggregateOf(bs[..i + 1], k) ==
      if bs[i].categoryId != k then AggregateOf(bs[..i], k)
      else if AggregateOf(bs[..i], k).None? then Some(Aggregate(bs[i].id, k, Plus(Zero, Stored(bs[i]))))
      else Some(AggregateOf(bs[..i], k).value.(figures := Plus(AggregateOf(bs[..i], k).value.figures, Stored(bs[i]))))
  {
    assert bs[..i + 1][..i] == bs[..i];
  }

  /** The first row of a category, scanning from the front. */
  function FirstRow(bs: seq<Budget>, k: Id): Option<Budget>
  {
    if bs == [] then None
    else if bs[0].categoryId == k then Some(bs[0])
    else FirstRow(bs[1..], k)
  }

  lemma {:induction false} FirstRowAppend(bs: seq<Budget>, b: Budget, k: Id)
    ensures FirstRow(bs + [b], k) == if FirstRow(bs, k).Some? then FirstRow(bs, k) else if b.categoryId == k then Some(b) else None
  {
    if bs != [] {
      assert (bs + [b])[1..] == bs[1..] + [b];
      FirstRowAppend(bs[1..], b, k);
    } else {
      assert [b][1..] == [];
    }
  }

  /**
   * An entry exists iff the category has a row; it carries the first
   * row's id, and every column is the sum of the category's rows.
   */
  lemma {:induction false} AggregateOfMeaning(bs: seq<Budget>, k: Id)
    ensures AggregateOf(bs, k).Some? <==> exists b :: b in bs && b.categoryId == k
    ensures AggregateOf(bs, k).None? <==> FirstRow(bs, k).None?
    ensures AggregateOf(bs, k).Some? ==>
      AggregateOf(bs, k).value.categoryId == k && AggregateOf(bs, k).value.id == FirstRow(bs, k).value.id
    ensures AggregateOf(bs, k).Some? ==> (var f := AggregateOf(bs, k).value.figures;
      f.k1WithVat == BudgetSum(bs, k, K1WithVatCol) && f.k1WithoutVat == BudgetSum(bs, k, K1WithoutVatCol) &&
      f.vat == BudgetSum(bs, k, VatCol) && f.k2 == BudgetSum(bs, k, K2Col) &&
      f.totalWithoutVat == BudgetSum(bs, k, TotalWithoutVatCol) && f.totalWithVat == BudgetSum(bs, k, TotalWithVatCol) &&
      f.actualWithoutVat == 0.0 && f.actualWithVat == 0.0)
  {
    if bs != [] {
      var init := bs[..|bs| - 1];
      var b := bs[|bs| - 1];
      assert bs == init + [b];
      AggregateOfMeaning(init, k);
      FirstRowAppend(init, b, k);
      assert forall x :: x in bs <==> x in init || x == b;
      if AggregateOf(init, k).None? {
        NoRowsNoSum(init, k);
      }
    }
  }

  /** A category without rows sums to 0 in every column. */
  lemma {:induction false} NoRowsNoSum(bs: seq<Budget>, k: Id)
    requires forall b :: b in bs ==> b.categoryId != k
    ensures forall col :: BudgetSum(bs, k, col) == 0.0
  {
    if bs != [] {
      assert forall b :: b in bs[..|bs| - 1] ==> b in bs;
      NoRowsNoSum(bs[..|bs| - 1], k);
    }
  }

  /** The category ids of the entries, in the order the loop first meets them. */
  function AggregateKeys(bs: seq<Budget>): (r: seq<Id>)
    ensures forall k :: k in r <==> exists b :: b in bs && b.categoryId == k
    ensures forall i, j :: 0 <= i < j < |r| ==> r[i] != r[j]
  {
    var ids := AddExistingCategory.BudgetCategoryIds(bs);
    assert forall k :: k in ids <==> exists b :: b in bs && b.categoryId == k by {
      forall k | k in ids ensures exists b :: b in bs && b.categoryId == k {
        var i :| 0 <= i < |ids| && ids[i] == k;
        assert bs[i] in bs;
      }
    }
    BudgetTable.FirstAppearance(ids)
  }

  lemma KeysStep(ids: seq<Id>, i: nat)
    requires i < |ids|
    ensures BudgetTable.FirstAppearance(ids[..i + 1]) ==
      if ids[i] in BudgetTable.FirstAppearance(ids[..i]) then BudgetTable.FirstAppearance(ids[..i])
      else BudgetTable.FirstAppearance(ids[..i]) + [ids[i]]
    ensures forall x :: x in ids[..i + 1] <==> x in ids[..i] || x == ids[i]
  {
    BudgetTable.FirstAppearanceStep(ids, i);
    assert ids[..i + 1] == ids[..i] + [ids[i]];
  }

  /** The dictionary holds exactly the entries of the rows folded so far. */
  ghost predicate Aggregates(done: seq<Budget>, m: map<Id, Aggregate>)
  {
    forall k :: AggregateOf(done, k) == Entry(m, k)
  }

  /** Folding row `i` into the dictionary updates its category's entry and no other. */
  lemma AggregatesStep(bs: seq<Budget>, i: nat, m: map<Id, Aggregate>, entry: Aggregate)
    requires i < |bs| && Aggregates(bs[..i], m)
    requires var k := bs[i].categoryId;
      entry == if k in m then m[k].(figures := Plus(m[k].figures, Stored(bs[i]))) else Aggregate(bs[i].id, k, Plus(Zero, Stored(bs[i])))
    ensures Aggregates(bs[..i + 1], m[bs[i].categoryId := entry])
  {
    var done := bs[..i + 1];
    var m' := m[bs[i].categoryId := entry];
    forall x
      ensures AggregateOf(done, x) == Entry(m', x)
    {
      AggregatePoint(bs, i, m, entry, x);
    }
  }

  /** The entry of one key of the dictionary, if any. */
  function Entry(m: map<Id, Aggregate>, x: Id): Option<Aggregate>
  {
    if x in m then Some(m[x]) else None
  }

  /** `AggregatesStep` at one key. */
  lemma AggregatePoint(bs: seq<Budget>, i: nat, m: map<Id, Aggregate>, entry: Aggregate, x: Id)
    requires i < |bs| && AggregateOf(bs[..i], x) == Entry(m, x)
    requires var k := bs[i].categoryId;
      entry == if k in m then m[k].(figures := Plus(m[k].figures, Stored(bs[i]))) else Aggregate(bs[i].id, k, Plus(Zero, Stored(bs[i])))
    ensures AggregateOf(bs[..i + 1], x) == Entry(m[bs[i].categoryId := entry], x)
  {
    AggregateOfStep(bs, i, x);
  }

  /** The state of the pass after `i` rows: the keys in first-appearance order, the dictionary over them. */
  ghost predicate Folded(bs: seq<Budget>, ids: seq<Id>, i: nat, keys: seq<Id>, m: map<Id, Aggregate>)
  {
    i <= |bs| && i <= |ids| &&
    keys == BudgetTable.FirstAppearance(ids[..i]) &&
    (forall k :: k in m <==> k in keys) &&
    Aggregates(bs[..i], m)
  }

  /** One row of the pass; `ids[i]` is the row's category, `keys'` and `m'` the keys and dictionary after it. */
  lemma FoldStep(bs: seq<Budget>, ids: seq<Id>, i: nat, keys: seq<Id>, m: map<Id, Aggregate>, entry: Aggregate,
                 keys': seq<Id>, m': map<Id, Aggregate>)
    requires i < |bs| && i < |ids| && ids[i] == bs[i].categoryId && Folded(bs, ids, i, keys, m)
    requires var k := bs[i].categoryId;
      entry == if k in m then m[k].(figures := Plus(m[k].figures, Stored(bs[i]))) else Aggregate(bs[i].id, k, Plus(Zero, Stored(bs[i])))
    requires keys' == (if bs[i].categoryId in m then keys else keys + [bs[i].categoryId]) && m' == m[bs[i].categoryId := entry]
    ensures Folded(bs, ids, i + 1, keys', m')
  {
    assert keys' == BudgetTable.FirstAppearance(ids[..i + 1]) by {
      KeysStep(ids, i);
    }
    assert forall x :: x in m' <==> x in keys';
    assert Aggregates(bs[..i + 1], m') by {
      AggregatesStep(bs, i, m, entry);
    }
  }

  /** `aggregateBudgetsByCategory`: a dictionary keyed by category filled in one pass, then its values. */
  method AggregateBudgets(bs: seq<Budget>) returns (r: seq<Aggregate>)
    ensures |r| == |AggregateKeys(bs)|
    ensures forall i :: 0 <= i < |r| ==> AggregateOf(bs, AggregateKeys(bs)[i]) == Some(r[i])
  {
    var m: map<Id, Aggregate> := map[];
    var keys: seq<Id> := [];
    var ids := AddExistingCategory.BudgetCategoryIds(bs);
    for i := 0 to |bs|
      invariant Folded(bs, ids, i, keys, m)
    {
      var b := bs[i];
      var k := b.categoryId;
      var entry := if k in m then m[k].(figures := Plus(m[k].figures, Stored(b))) else Aggregate(b.id, k, Plus(Zero, Stored(b)));
      ghost var keys' := if k in m then keys else keys + [k];
      assert Folded(bs, ids, i + 1, keys', m[k := entry]) by {
        FoldStep(bs, ids, i, keys, m, entry, keys', m[k := entry]);
      }
      if k !in m {
        keys := keys + [k];
      }
      m := m[k := entry];
    }
    assert ids[..|bs|] == ids;
    assert keys == AggregateKeys(bs);
    assert Aggregates(bs, m) by {
      assert bs[..|bs|] == bs;
    }
    r := seq(|keys|, j requires 0 <= j < |keys| => m[keys[j]]);
    forall j | 0 <= j < |r|
      ensures AggregateOf(bs, keys[j]) == Some(r[j])
    {
      assert keys[j] in keys && Entry(m, keys[j]) == Some(m[keys[j]]);
    }
  }

  // ---------------------------------------------------------------------
  // The summary cards

  /** `categories.filter((c) => c.type === ty).some((c) => c.id === id)`. */
  predicate OfType(cs: seq<Category>, ty: CategoryType, id: Option<Id>)
  {
    exists c :: c in cs && c.categoryType == Some(ty) && Some(c.id) == id
  }

  /** The summed column of the entries whose category has the type. */
  function EntriesTotal(es: seq<Aggregate>, cs: seq<Category>, ty: CategoryType, col: Column): real
  {
    if es == [] then 0.0
    else
      var e := es[|es| - 1];
      EntriesTotal(es[..|es| - 1], cs, ty, col) +
      (if OfType(cs, ty, Some(e.categoryId)) then FigureOf(e.figures, col) else 0.0)
  }

  function FigureOf(f: Figures, col: Column): real
  {
    match col
    case K1WithVatCol => f.k1WithVat
    case K1WithoutVatCol => f.k1WithoutVat
    case VatCol => f.vat
    case K2Col => f.k2
    case TotalWithoutVatCol => f.totalWithoutVat
    case TotalWithVatCol => f.totalWithVat
  }

  /** The actual of a type: `|amount_with_vat| + |k2|` of its transactions, VAT or not. */
  function TypeActual(txs: seq<Transaction>, cs: seq<Category>, ty: CategoryType): (r: real)
    ensures r >= 0.0
  {
    if txs == [] then 0.0
    else
      var t := txs[|txs| - 1];
      TypeActual(txs[..|txs| - 1], cs, ty) +
      (if OfType(cs, ty, t.categoryId) then Abs(OrZero(t.amountWithVat)) + Abs(OrZero(t.k2Amount)) else 0.0)
  }

  /** The column summed over the stored rows of the categories of a type. */
  function RowsTotal(bs: seq<Budget>, cs: seq<Category>, ty: CategoryType, col: Column): real
  {
    if bs == [] then 0.0
    else
      var b := bs[|bs| - 1];
      RowsTotal(bs[..|bs| - 1], cs, ty, col) +
      (if OfType(cs, ty, Some(b.categoryId)) then OrZero(ColumnOf(b, col)) else 0.0)
  }

  /** The same column summed over the given categories' rows, category by category. */
  function KeysTotal(bs: seq<Budget>, keys: seq<Id>, cs: seq<Category>, ty: CategoryType, col: Column): real
  {
    if keys == [] then 0.0
    else
      var k := keys[|keys| - 1];
      KeysTotal(bs, keys[..|keys| - 1], cs, ty, col) + (if OfType(cs, ty, Some(k)) then BudgetSum(bs, k, col) else 0.0)
  }

  /** One more row adds its value to the category totals once when its category is listed. */
  lemma {:induction false} KeysTotalAddRow(bs: seq<Budget>, keys: seq<Id>, cs: seq<Category>, ty: CategoryType, col: Column)
    requires bs != []
    requires forall i, j :: 0 <= i < j < |keys| ==> keys[i] != keys[j]
    ensures var b := bs[|bs| - 1];
      KeysTotal(bs, keys, cs, ty, col) ==
      KeysTotal(bs[..|bs| - 1], keys, cs, ty, col) + (if b.categoryId in keys && OfType(cs, ty, Some(b.categoryId)) then OrZero(ColumnOf(b, col)) else 0.0)
  {
    if keys != [] {
      var n := |keys| - 1;
      var init := keys[..n];
      var k := keys[n];
      var pre := bs[..|bs| - 1];
      var b := bs[|bs| - 1];
      assert forall i, j :: 0 <= i < j < |init| ==> init[i] != init[j] by {
        forall i, j | 0 <= i < j < |init| ensures init[i] != init[j] {
          assert init[i] == keys[i] && init[j] == keys[j];
        }
      }
      KeysTotalAddRow(bs, init, cs, ty, col);
      assert keys == init + [k];
      assert k !in init;
      assert b.categoryId in keys <==> b.categoryId in init || b.categoryId == k;
      assert KeysTotal(bs, keys, cs, ty, col) == KeysTotal(bs, init, cs, ty, col) + (if OfType(cs, ty, Some(k)) then BudgetSum(bs, k, col) else 0.0);
      assert KeysTotal(pre, keys, cs, ty, col) == KeysTotal(pre, init, cs, ty, col) + (if OfType(cs, ty, Some(k)) then BudgetSum(pre, k, col) else 0.0);
      if b.categoryId == k {
        assert BudgetSum(bs, k, col) == BudgetSum(pre, k, col) + OrZero(ColumnOf(b, col));
      } else {
        assert BudgetSum(bs, k, col) == BudgetSum(pre, k, col);
      }
    }
  }

  /** The keys after one more row: its category is appended when it is new. */
  lemma AggregateKeysStep(bs: seq<Budget>)
    requires bs != []
    ensures var init := bs[..|bs| - 1];
      var c := bs[|bs| - 1].categoryId;
      AggregateKeys(bs) == if c in AggregateKeys(init) then AggregateKeys(init) else AggregateKeys(init) + [c]
  {
    var ids := AddExistingCategory.BudgetCategoryIds(bs);
    assert AddExistingCategory.BudgetCategoryIds(bs[..|bs| - 1]) == ids[..|bs| - 1];
    BudgetTable.FirstAppearanceStep(ids, |bs| - 1);
    assert ids[..|bs|] == ids;
  }

  lemma KeysTotalAppendKey(bs: seq<Budget>, keys: seq<Id>, k: Id, cs: seq<Category>, ty: CategoryType, col: Column)
    ensures KeysTotal(bs, keys + [k], cs, ty, col) == KeysTotal(bs, keys, cs, ty, col) + (if OfType(cs, ty, Some(k)) then BudgetSum(bs, k, col) else 0.0)
  {
    assert (keys + [k])[..|keys|] == keys;
  }

  lemma NewCategorySum(bs: seq<Budget>, col: Column)
    requires bs != []
    requires bs[|bs| - 1].categoryId !in AggregateKeys(bs[..|bs| - 1])
    ensures BudgetSum(bs, bs[|bs| - 1].categoryId, col) == OrZero(ColumnOf(bs[|bs| - 1], col))
  {
    var init := bs[..|bs| - 1];
    NoRowsNoSum(init, bs[|bs| - 1].categoryId);
  }

  /** Summing per category, over the categories of the rows, is summing the rows. */
  lemma {:induction false} KeysTotalIsRowsTotal(bs: seq<Budget>, cs: seq<Category>, ty: CategoryType, col: Column)
    ensures KeysTotal(bs, AggregateKeys(bs), cs, ty, col) == RowsTotal(bs, cs, ty, col)
  {
    if bs != [] {
      var init := bs[..|bs| - 1];
      var c := bs[|bs| - 1].categoryId;
      var add := if OfType(cs, ty, Some(c)) then OrZero(ColumnOf(bs[|bs| - 1], col)) else 0.0;
      var ks := AggregateKeys(init);
      KeysTotalIsRowsTotal(init, cs, ty, col);
      assert RowsTotal(bs, cs, ty, col) == RowsTotal(init, cs, ty, col) + add;
      AggregateKeysStep(bs);
      KeysTotalAddRow(bs, ks, cs, ty, col);
      if c !in ks {
        assert KeysTotal(bs, ks, cs, ty, col) == KeysTotal(init, ks, cs, ty, col);
        KeysTotalAppendKey(bs, ks, c, cs, ty, col);
        NewCategorySum(bs, col);
      }
    }
  }

  /** The entries' column sum as a sum over entries keyed as the loop keys them. */
  lemma {:induction false} EntriesTotalOfKeys(es: seq<Aggregate>, bs: seq<Budget>, keys: seq<Id>, cs: seq<Category>, ty: CategoryType, col: Column)
    requires |es| == |keys|
    requires forall i :: 0 <= i < |es| ==> AggregateOf(bs, keys[i]) == Some(es[i])
    ensures EntriesTotal(es, cs, ty, col) == KeysTotal(bs, keys, cs, ty, col)
  {
    if es != [] {
      var n := |es| - 1;
      EntriesTotalOfKeys(es[..n], bs, keys[..n], cs, ty, col);
      AggregateOfMeaning(bs, keys[n]);
    }
  }

  /** The summary's budget and VAT sums are the stored rows' sums: aggregating first changes nothing. */
  lemma AggregationKeepsTotals(bs: seq<Budget>, es: seq<Aggregate>, cs: seq<Category>, ty: CategoryType, col: Column)
    requires |es| == |AggregateKeys(bs)|
    requires forall i :: 0 <= i < |es| ==> AggregateOf(bs, AggregateKeys(bs)[i]) == Some(es[i])
    ensures EntriesTotal(es, cs, ty, col) == RowsTotal(bs, cs, ty, col)
  {
    EntriesTotalOfKeys(es, bs, AggregateKeys(bs), cs, ty, col);
    KeysTotalIsRowsTotal(bs, cs, ty, col);
  }

  /** The three cards. */
  datatype Summary = Summary(
    availableToday: real,
    incomeBudget: real,
    expenseBudget: real,
    incomeActual: real,
    expenseActual: real,
    availableAtEnd: real,
    incomeVat: real,
    expenseVat: real,
    vatToPay: real)

  /** The cards computed from the loaded rows. */
  function SummaryOf(accounts: seq<Account>, cs: seq<Category>, es: seq<Aggregate>, txs: seq<Transaction>): (s: Summary)
    ensures s.availableToday == Balances.TotalBalance(accounts, txs)
    ensures s.incomeActual >= 0.0 && s.expenseActual >= 0.0
    ensures s.availableAtEnd - s.availableToday == (s.incomeBudget - s.incomeActual) - (s.expenseBudget - s.expenseActual)
    ensures s.vatToPay == s.incomeVat - s.expenseVat
  {
    var today := Balances.TotalBalance(accounts, txs);
    var incB := EntriesTotal(es, cs, IncomeType, TotalWithVatCol);
    var expB := EntriesTotal(es, cs, ExpenseType, TotalWithVatCol);
    var incA := TypeActual(txs, cs, IncomeType);
    var expA := TypeActual(txs, cs, ExpenseType);
    var incV := EntriesTotal(es, cs, IncomeType, VatCol);
    var expV := EntriesTotal(es, cs, ExpenseType, VatCol);
    Summary(today, incB, expB, incA, expA, today + (incB - incA) - (expB - expA), incV, expV, incV - expV)
  }

  /**
   * The page's cards in terms of the stored rows: the budgets are the
   * summed stored `total_with_vat` (not K1 plus K2), the VAT the summed
   * `vat`.
   */
  lemma SummaryOfRows(accounts: seq<Account>, cs: seq<Category>, bs: seq<Budget>, es: seq<Aggregate>, txs: seq<Transaction>)
    requires |es| == |AggregateKeys(bs)|
    requires forall i :: 0 <= i < |es| ==> AggregateOf(bs, AggregateKeys(bs)[i]) == Some(es[i])
    ensures SummaryOf(accounts, cs, es, txs).incomeBudget == RowsTotal(bs, cs, IncomeType, TotalWithVatCol)
    ensures SummaryOf(accounts, cs, es, txs).expenseBudget == RowsTotal(bs, cs, ExpenseType, TotalWithVatCol)
    ensures SummaryOf(accounts, cs, es, txs).vatToPay == RowsTotal(bs, cs, IncomeType, VatCol) - RowsTotal(bs, cs, ExpenseType, VatCol)
  {
    AggregationKeepsTotals(bs, es, cs, IncomeType, TotalWithVatCol);
    AggregationKeepsTotals(bs, es, cs, ExpenseType, TotalWithVatCol);
    AggregationKeepsTotals(bs, es, cs, IncomeType, VatCol);
    AggregationKeepsTotals(bs, es, cs, ExpenseType, VatCol);
  }

  /** A transaction without VAT counts towards the page's actual, unlike the budget table's VAT-gated actual. */
  lemma ActualHasNoVatGate(t: Transaction, c: Category)
    requires c.categoryType == Some(ExpenseType) && t.categoryId == Some(c.id)
    requires t.vatAmount == None && t.amountWithVat == Some(-100.0) && t.k2Amount == None
    ensures TypeActual([t], [c], ExpenseType) == 100.0
    ensures ActualWithVat([t], c.id) == 0.0
  {
    assert [t][..0] == [];
    assert c in [c];
  }
}
