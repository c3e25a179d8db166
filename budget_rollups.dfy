/**
 * The multi-month budget table and the roll-ups of both budget views: a
 * cell per (category, month), a parent's cell as the sum of its
 * children's, the income and expense rows, the TOTAL row as income minus
 * expense, the period totals over the months, and the single-month
 * subtotals. Also the multi-month edit, which upserts only the edited
 * columns.
 */
module BudgetRollups {
  import opened Common
  import opened Calendar
  import opened Rows
  import opened BudgetRows
  import opened BudgetTable
  import TransactionForm

  // ---------------------------------------------------------------------
  // Cells of the multi-month view

  /** `allBudgets.filter((b) => b.month.startsWith(month))`, in order. */
  function BudgetsIn(bs: seq<Budget>, month: string): (r: seq<Budget>)
    ensures forall b :: b in r <==> b in bs && StartsWith(b.month, month)
  {
    if bs == [] then []
    else
      var b := bs[|bs| - 1];
      assert forall x :: x in bs <==> x in bs[..|bs| - 1] || x == b by {
        assert bs == bs[..|bs| - 1] + [b];
      }
      BudgetsIn(bs[..|bs| - 1], month) + (if StartsWith(b.month, month) then [b] else [])
  }

  /**
   * The transactions whose month key starts with the month token. The key
   * is an input: the view reads a `date` column that the transaction rows
   * do not have (see `MonthTransactionsAsWritten`).
   */
  function TransactionsIn(txs: seq<Transaction>, key: Transaction -> string, month: string): (r: seq<Transaction>)
    ensures forall t :: t in r <==> t in txs && StartsWith(key(t), month)
  {
    if txs == [] then []
    else
      var t := txs[|txs| - 1];
      assert forall x :: x in txs <==> x in txs[..|txs| - 1] || x == t by {
        assert txs == txs[..|txs| - 1] + [t];
      }
      TransactionsIn(txs[..|txs| - 1], key, month) + (if StartsWith(key(t), month) then [t] else [])
  }

  /** What the multi-month view reads: all budget rows, the transactions and their month key. */
  datatype View = View(budgets: seq<Budget>, txs: seq<Transaction>, key: Transaction -> string)

  /**
   * `calculateValuesForMonth(categoryId, month)`: the single-month row of
   * the category computed over that month's budgets and transactions.
   */
  function Cell(v: View, categoryId: Id, month: string): (r: Figures)
    ensures r.actualWithVat >= 0.0 && r.actualWithoutVat >= 0.0
  {
    RowFor(BudgetsIn(v.budgets, month), TransactionsIn(v.txs, v.key, month), categoryId)
  }

  /** Every cell's totals are its K1 sums plus its K2 sum. */
  lemma CellConsistent(v: View, categoryId: Id, month: string)
    ensures Consistent(Cell(v, categoryId, month))
  {
    RowForConsistent(BudgetsIn(v.budgets, month), TransactionsIn(v.txs, v.key, month), categoryId);
  }

  /**
   * Keyed on the P&L date, a transaction counts in the cell of its own
   * month: it is among the transactions the cell of that month reads.
   */
  lemma CellReadsOwnMonth(v: View, t: Transaction)
    requires t in v.txs && ValidDate(t.plDate)
    requires forall x :: v.key(x) == (if ValidDate(x.plDate) then DateToken(x.plDate) else "")
    ensures t in TransactionsIn(v.txs, v.key, MonthToken(MonthOf(t.plDate)))
  {
    DateTokenParts(t.plDate);
    var s := DateToken(t.plDate);
    var p := MonthToken(MonthOf(t.plDate));
    assert |p| <= |s| && s[..|p|] == p;
  }

  /**
   * The code as written: `t.date.startsWith(month)` on a row without a
   * `date` column throws a TypeError. `&&` evaluates it only for the
   * category's own transactions, so the filter fails (`None`) as soon as one
   * is met and otherwise keeps nothing.
   */
  function MonthTransactionsAsWritten(txs: seq<Transaction>, categoryId: Id): Option<seq<Transaction>>
  {
    if txs == [] then Some([])
    else if txs[0].categoryId == Some(categoryId) then None
    else MonthTransactionsAsWritten(txs[1..], categoryId)
  }

  /** As written, a cell fails exactly when its category has a transaction, and is otherwise empty. */
  lemma {:induction false} AsWrittenFailsWithTransactions(txs: seq<Transaction>, categoryId: Id)
    ensures MonthTransactionsAsWritten(txs, categoryId).None? <==>
      exists i :: 0 <= i < |txs| && txs[i].categoryId == Some(categoryId)
    ensures MonthTransactionsAsWritten(txs, categoryId).Some? ==> MonthTransactionsAsWritten(txs, categoryId) == Some([])
  {
    if txs != [] && txs[0].categoryId != Some(categoryId) {
      AsWrittenFailsWithTransactions(txs[1..], categoryId);
      if exists i :: 0 <= i < |txs| && txs[i].categoryId == Some(categoryId) {
        var i :| 0 <= i < |txs| && txs[i].categoryId == Some(categoryId);
        assert txs[1..][i - 1] == txs[i];
      }
      if exists i :: 0 <= i < |txs[1..]| && txs[1..][i].categoryId == Some(categoryId) {
        var i :| 0 <= i < |txs[1..]| && txs[1..][i].categoryId == Some(categoryId);
        assert txs[i + 1] == txs[1..][i];
      }
    } else if txs != [] {
      assert txs[0].categoryId == Some(categoryId);
    }
  }

  /** A category with one expense: the view as written fails, the keyed cell counts it. */
  lemma AsWrittenExample(v: View, t: Transaction)
    requires v.txs == [t] && ValidDate(t.plDate) && t.categoryId.Some?
    requires forall x :: v.key(x) == (if ValidDate(x.plDate) then DateToken(x.plDate) else "")
    ensures MonthTransactionsAsWritten(v.txs, t.categoryId.value) == None
    ensures t in TransactionsIn(v.txs, v.key, MonthToken(MonthOf(t.plDate)))
  {
    CellReadsOwnMonth(v, t);
  }

  // ---------------------------------------------------------------------
  // Roll-ups over children and months

  /** A parent's cell: the sum of its children's cells (`children.reduce`). */
  function ChildrenCell(v: View, children: seq<Id>, month: string): Figures
  {
    if children == [] then Zero
    else Plus(ChildrenCell(v, children[..|children| - 1], month), Cell(v, children[|children| - 1], month))
  }

  /** A category's period total: the sum of its cells over the months. */
  function PeriodTotal(v: View, categoryId: Id, months: seq<string>): Figures
  {
    if months == [] then Zero
    else Plus(PeriodTotal(v, categoryId, months[..|months| - 1]), Cell(v, categoryId, months[|months| - 1]))
  }

  /** A parent's period total as the view computes it: the months' sums of the children's cells. */
  function ParentPeriodTotal(v: View, children: seq<Id>, months: seq<string>): Figures
  {
    if months == [] then Zero
    else Plus(ParentPeriodTotal(v, children, months[..|months| - 1]), ChildrenCell(v, children, months[|months| - 1]))
  }

  /** The sum of the children's own period totals. */
  function ChildrenPeriodTotals(v: View, children: seq<Id>, months: seq<string>): Figures
  {
    if children == [] then Zero
    else Plus(ChildrenPeriodTotals(v, children[..|children| - 1], months), PeriodTotal(v, children[|children| - 1], months))
  }

  lemma PlusInterchange(a: Figures, b: Figures, c: Figures, d: Figures)
    ensures Plus(Plus(a, b), Plus(c, d)) == Plus(Plus(a, c), Plus(b, d))
  {
  }

  /** Adding a month to every child's period total adds the parent's cell of that month. */
  lemma {:induction false} ChildrenPeriodTotalsStep(v: View, children: seq<Id>, months: seq<string>)
    requires months != []
    ensures var init := months[..|months| - 1];
      ChildrenPeriodTotals(v, children, months) ==
      Plus(ChildrenPeriodTotals(v, children, init), ChildrenCell(v, children, months[|months| - 1]))
    decreases |children|
  {
    if children != [] {
      var init := months[..|months| - 1];
      var m := months[|months| - 1];
      var cs := children[..|children| - 1];
      var c := children[|children| - 1];
      ChildrenPeriodTotalsStep(v, cs, months);
      assert PeriodTotal(v, c, months) == Plus(PeriodTotal(v, c, init), Cell(v, c, m));
      PlusInterchange(ChildrenPeriodTotals(v, cs, init), ChildrenCell(v, cs, m), PeriodTotal(v, c, init), Cell(v, c, m));
    }
  }

  /** A parent's period total equals the sum of its children's period totals. */
  lemma {:induction false} ParentPeriodIsSumOfChildren(v: View, children: seq<Id>, months: seq<string>)
    ensures ParentPeriodTotal(v, children, months) == ChildrenPeriodTotals(v, children, months)
    decreases |months|
  {
    if months == [] {
      ZeroTotals(v, children);
    } else {
      ParentPeriodIsSumOfChildren(v, children, months[..|months| - 1]);
      ChildrenPeriodTotalsStep(v, children, months);
    }
  }

  lemma {:induction false} ZeroTotals(v: View, children: seq<Id>)
    ensures ChildrenPeriodTotals(v, children, []) == Zero
    decreases |children|
  {
    if children != [] {
      ZeroTotals(v, children[..|children| - 1]);
    }
  }

  /** `categories.filter((c) => c.type === type && !c.parent_id)`: the top-level categories of a type. */
  function TopLevel(cats: seq<Category>, ty: CategoryType): (r: seq<Category>)
    ensures forall c :: c in r <==> c in cats && c.categoryType == Some(ty) && c.parentId.None?
  {
    if cats == [] then []
    else
      var c := cats[|cats| - 1];
      assert forall x :: x in cats <==> x in cats[..|cats| - 1] || x == c by {
        assert cats == cats[..|cats| - 1] + [c];
      }
      TopLevel(cats[..|cats| - 1], ty) + (if c.categoryType == Some(ty) && c.parentId.None? then [c] else [])
  }

  /** The sum over some parents of their children's cells. */
  function ParentsCell(v: View, cats: seq<Category>, parents: seq<Category>, month: string): Figures
  {
    if parents == [] then Zero
    else Plus(ParentsCell(v, cats, parents[..|parents| - 1], month),
              ChildrenCell(v, ChildIds(cats, parents[|parents| - 1].id), month))
  }

  /** The income or expense calculation of one month: every top-level parent of the type, through its children. */
  function TypeCell(v: View, cats: seq<Category>, ty: CategoryType, month: string): Figures
  {
    ParentsCell(v, cats, TopLevel(cats, ty), month)
  }

  /** The TOTAL row's cell: income minus expense. */
  function TotalCell(v: View, cats: seq<Category>, month: string): Figures
  {
    Minus(TypeCell(v, cats, IncomeType, month), TypeCell(v, cats, ExpenseType, month))
  }

  /** A type's period total: `months.reduce` of its cells. */
  function TypePeriodTotal(v: View, cats: seq<Category>, ty: CategoryType, months: seq<string>): Figures
  {
    if months == [] then Zero
    else Plus(TypePeriodTotal(v, cats, ty, months[..|months| - 1]), TypeCell(v, cats, ty, months[|months| - 1]))
  }

  /** The TOTAL row's period columns: total income minus total expense. */
  function GrandTotal(v: View, cats: seq<Category>, months: seq<string>): Figures
  {
    Minus(TypePeriodTotal(v, cats, IncomeType, months), TypePeriodTotal(v, cats, ExpenseType, months))
  }

  /** The sum of the TOTAL row's monthly cells. */
  function TotalCellsSum(v: View, cats: seq<Category>, months: seq<string>): Figures
  {
    if months == [] then Zero
    else Plus(TotalCellsSum(v, cats, months[..|months| - 1]), TotalCell(v, cats, months[|months| - 1]))
  }

  /** The TOTAL row's period total is the sum of its monthly cells: income minus expense in every column. */
  lemma {:induction false} GrandTotalIsSumOfTotalCells(v: View, cats: seq<Category>, months: seq<string>)
    ensures GrandTotal(v, cats, months) == TotalCellsSum(v, cats, months)
    decreases |months|
  {
    if months != [] {
      var init := months[..|months| - 1];
      var m := months[|months| - 1];
      GrandTotalIsSumOfTotalCells(v, cats, init);
      var i0, e0 := TypePeriodTotal(v, cats, IncomeType, init), TypePeriodTotal(v, cats, ExpenseType, init);
      var ic, ec := TypeCell(v, cats, IncomeType, m), TypeCell(v, cats, ExpenseType, m);
      assert TypePeriodTotal(v, cats, IncomeType, months) == Plus(i0, ic);
      assert TypePeriodTotal(v, cats, ExpenseType, months) == Plus(e0, ec);
      assert TotalCellsSum(v, cats, months) == Plus(TotalCellsSum(v, cats, init), Minus(ic, ec));
      MinusOfPlus(i0, ic, e0, ec);
    }
  }

  lemma MinusOfPlus(a: Figures, b: Figures, c: Figures, d: Figures)
    ensures Minus(Plus(a, b), Plus(c, d)) == Plus(Minus(a, c), Minus(b, d))
  {
  }

  /** Sums of consistent figures stay consistent: every roll-up's totals are its K1 plus K2. */
  lemma {:induction false} ChildrenCellConsistent(v: View, children: seq<Id>, month: string)
    ensures Consistent(ChildrenCell(v, children, month))
    decreases |children|
  {
    if children != [] {
      ChildrenCellConsistent(v, children[..|children| - 1], month);
      CellConsistent(v, children[|children| - 1], month);
    }
  }

  // ---------------------------------------------------------------------
  // The multi-month edit

  /** The field a multi-month cell edits. */
  datatype EditedField = K1WithVatField | K1WithoutVatField | K2Field

  /** The columns the multi-month edit writes: the K1 pair and VAT, or K2 alone; never a total. */
  function MultiMonthWrite(field: EditedField, x: real): (w: BudgetWrite)
    ensures !w.FullRow?
    ensures field == K1WithVatField ==>
      w.K1Part? && w.k1WithVat == x && w.k1WithoutVat * TransactionForm.GrossFactor == x && w.k1WithoutVat + w.vat == x
    ensures field == K1WithoutVatField ==> w.K1Part? && w.k1WithVat == 0.0 && w.vat == 0.0 && w.k1WithoutVat == x
    ensures field == K2Field ==> w.K2Part? && w.k2 == x
  {
    match field
    case K1WithVatField =>
      var net := x / TransactionForm.GrossFactor;
      K1Part(x, net, x - net)
    case K1WithoutVatField => K1Part(0.0, x, 0.0)
    case K2Field => K2Part(x)
  }

  /**
   * `handleMultiMonthBudgetChange` with the entry already read as a number:
   * nothing when read-only or when the upsert fails, otherwise an upsert of
   * the edited columns under `month + "-01"`.
   */
  method MultiMonthEdit(db: Store, readOnly: bool, categoryId: Id, month: string, projectId: Option<Id>,
                        field: EditedField, x: real, fails: bool)
    modifies db`budgets, db`nextId
    ensures readOnly || fails ==> db.budgets == old(db.budgets) && db.nextId == old(db.nextId)
    ensures !(readOnly || fails) ==>
      db.budgets == Upsert(old(db.budgets), categoryId, month + "-01", projectId, MultiMonthWrite(field, x), GeneratedId(old(db.nextId)))
    ensures !(readOnly || fails) ==> db.nextId == old(db.nextId) + 1
  {
    if readOnly || fails {
      return;
    }
    SaveRow(db, categoryId, month + "-01", projectId, MultiMonthWrite(field, x));
  }

  /** Whether a stored row's total with VAT agrees with its K1 with VAT plus K2. */
  predicate StoredTotalAgrees(b: Budget)
  {
    OrZero(b.totalWithVat) == OrZero(b.k1WithVat) + OrZero(b.k2)
  }

  /**
   * A multi-month edit keeps every stored total: the row the budget page
   * sums keeps its `total_with_vat`, so after a K2 change the stored total no
   * longer agrees with the row's K1 and K2.
   */
  lemma MultiMonthEditLeavesTotals(b: Budget, field: EditedField, x: real)
    ensures Written(b, MultiMonthWrite(field, x)).totalWithVat == b.totalWithVat
    ensures Written(b, MultiMonthWrite(field, x)).totalWithoutVat == b.totalWithoutVat
    ensures field == K2Field && StoredTotalAgrees(b) && OrZero(b.k2) != x ==>
      !StoredTotalAgrees(Written(b, MultiMonthWrite(field, x)))
  {
  }

  /** A new row created by a multi-month edit has no stored totals at all. */
  lemma MultiMonthEditNewRow(bs: seq<Budget>, categoryId: Id, month: string, projectId: Option<Id>, field: EditedField, x: real, newId: Id)
    requires !HasKey(bs, categoryId, month + "-01", projectId)
    ensures var r := Upsert(bs, categoryId, month + "-01", projectId, MultiMonthWrite(field, x), newId);
      |r| == |bs| + 1 && r[..|bs|] == bs && r[|bs|].totalWithVat.None? && r[|bs|].totalWithoutVat.None?
  {
    UpsertRows(bs, categoryId, month + "-01", projectId, MultiMonthWrite(field, x), newId);
  }

  // ---------------------------------------------------------------------
  // Roll-ups of the single-month view

  /** `ids.reduce` of `budgetData[id]`, skipping ids without a row. */
  function RowsSum(data: map<Id, Figures>, ids: seq<Id>): Figures
  {
    if ids == [] then Zero
    else
      var id := ids[|ids| - 1];
      var acc := RowsSum(data, ids[..|ids| - 1]);
      if id in data then Plus(acc, data[id]) else acc
  }

  /** A parent row: the sum of its children's rows, the children found by `parent_id`. */
  function ParentRow(data: map<Id, Figures>, cats: seq<Category>, parentId: Id): Figures
  {
    RowsSum(data, ChildIds(cats, parentId))
  }

  /** `categories.filter((c) => c.type === type)`, as ids. */
  function TypedIds(cats: seq<Category>, ty: CategoryType): (r: seq<Id>)
    ensures forall k :: k in r <==> exists c :: c in cats && c.categoryType == Some(ty) && c.id == k
  {
    if cats == [] then []
    else
      var c := cats[|cats| - 1];
      assert forall x :: x in cats <==> x in cats[..|cats| - 1] || x == c by {
        assert cats == cats[..|cats| - 1] + [c];
      }
      TypedIds(cats[..|cats| - 1], ty) + (if c.categoryType == Some(ty) then [c.id] else [])
  }

  /** `calculateSubtotal(type)`: the rows of the categories whose own type is `type`. */
  function Subtotal(data: map<Id, Figures>, cats: seq<Category>, ty: CategoryType): Figures
  {
    RowsSum(data, TypedIds(cats, ty))
  }

  /** The single-month TOTAL row: income subtotal minus expense subtotal. */
  function SingleMonthTotal(data: map<Id, Figures>, cats: seq<Category>): Figures
  {
    Minus(Subtotal(data, cats, IncomeType), Subtotal(data, cats, ExpenseType))
  }

  /** A sum of consistent rows is consistent. */
  lemma {:induction false} RowsSumConsistent(data: map<Id, Figures>, ids: seq<Id>)
    requires forall k :: k in data ==> Consistent(data[k])
    ensures Consistent(RowsSum(data, ids))
    decreases |ids|
  {
    if ids != [] {
      RowsSumConsistent(data, ids[..|ids| - 1]);
    }
  }

  /**
   * A child without a type is rolled into its parent's row but into no
   * subtotal; a typed child is in its type's subtotal.
   */
  lemma UntypedChildDropsOut(data: map<Id, Figures>, cats: seq<Category>, c: Category, p: Id)
    requires c.parentId == Some(p) && c.id in data
    ensures ParentRow(data, cats + [c], p) == Plus(ParentRow(data, cats, p), data[c.id])
    ensures c.categoryType.None? ==>
      Subtotal(data, cats + [c], IncomeType) == Subtotal(data, cats, IncomeType) &&
      Subtotal(data, cats + [c], ExpenseType) == Subtotal(data, cats, ExpenseType)
    ensures c.categoryType.Some? ==>
      Subtotal(data, cats + [c], c.categoryType.value) == Plus(Subtotal(data, cats, c.categoryType.value), data[c.id])
  {
    assert (cats + [c])[..|cats + [c]| - 1] == cats;
    assert ChildIds(cats + [c], p) == ChildIds(cats, p) + [c.id];
    var both := ChildIds(cats, p) + [c.id];
    assert both[..|both| - 1] == ChildIds(cats, p);
    if c.categoryType.Some? {
      var ty := c.categoryType.value;
      var ids := TypedIds(cats, ty) + [c.id];
      assert TypedIds(cats + [c], ty) == ids;
      assert ids[..|ids| - 1] == TypedIds(cats, ty);
    } else {
      assert TypedIds(cats + [c], IncomeType) == TypedIds(cats, IncomeType);
      assert TypedIds(cats + [c], ExpenseType) == TypedIds(cats, ExpenseType);
    }
  }
}
