/**
 * What the budget views share: the figures of a budget row, the sums over
 * budget and transaction rows they are built from, the month column a
 * budget is stored under, and the upsert keyed on (category, month, project).
 */
module BudgetRows {
  import opened Common
  import opened Calendar
  import opened Rows

  /** The eight figures of a budget row (a `BudgetRow` without its category id). */
  datatype Figures = Figures(
    k1WithVat: real,
    k1WithoutVat: real,
    vat: real,
    k2: real,
    totalWithoutVat: real,
    totalWithVat: real,
    actualWithoutVat: real,
    actualWithVat: real)

  const Zero: Figures := Figures(0.0, 0.0, 0.0, 0.0, 0.0, 0.0, 0.0, 0.0)

  /** The field-by-field sum the roll-up reducers compute. */
  function Plus(a: Figures, b: Figures): Figures
  {
    Figures(a.k1WithVat + b.k1WithVat, a.k1WithoutVat + b.k1WithoutVat, a.vat + b.vat, a.k2 + b.k2,
            a.totalWithoutVat + b.totalWithoutVat, a.totalWithVat + b.totalWithVat,
            a.actualWithoutVat + b.actualWithoutVat, a.actualWithVat + b.actualWithVat)
  }

  /** The field-by-field difference of the TOTAL row (income minus expense). */
  function Minus(a: Figures, b: Figures): Figures
  {
    Figures(a.k1WithVat - b.k1WithVat, a.k1WithoutVat - b.k1WithoutVat, a.vat - b.vat, a.k2 - b.k2,
            a.totalWithoutVat - b.totalWithoutVat, a.totalWithVat - b.totalWithVat,
            a.actualWithoutVat - b.actualWithoutVat, a.actualWithVat - b.actualWithVat)
  }

  /** `reduce` of a list of figures with `Plus` from `Zero`. */
  function SumFigures(fs: seq<Figures>): Figures
  {
    if fs == [] then Zero else Plus(SumFigures(fs[..|fs| - 1]), fs[|fs| - 1])
  }

  lemma {:induction false} SumFiguresAppend(xs: seq<Figures>, ys: seq<Figures>)
    ensures SumFigures(xs + ys) == Plus(SumFigures(xs), SumFigures(ys))
    decreases |ys|
  {
    if ys == [] {
      assert xs + ys == xs;
    } else {
      assert (xs + ys)[..|xs + ys| - 1] == xs + ys[..|ys| - 1];
      SumFiguresAppend(xs, ys[..|ys| - 1]);
    }
  }

  /** Both totals of a row include K2. */
  predicate Consistent(f: Figures)
  {
    f.totalWithoutVat == f.k1WithoutVat + f.k2 && f.totalWithVat == f.k1WithVat + f.k2
  }

  /** A sum of consistent rows is consistent: a roll-up's totals are its K1 and K2 sums. */
  lemma {:induction false} SumOfConsistent(fs: seq<Figures>)
    requires forall i :: 0 <= i < |fs| ==> Consistent(fs[i])
    ensures Consistent(SumFigures(fs))
  {
    if fs != [] {
      var init := fs[..|fs| - 1];
      assert forall i :: 0 <= i < |init| ==> Consistent(init[i]) by {
        forall i | 0 <= i < |init| ensures Consistent(init[i]) {
          assert init[i] == fs[i];
        }
      }
      SumOfConsistent(init);
    }
  }

  // ---------------------------------------------------------------------
  // Sums over stored rows

  /** The numeric columns of a budget row. */
  datatype Column = K1WithVatCol | K1WithoutVatCol | VatCol | K2Col | TotalWithoutVatCol | TotalWithVatCol

  function ColumnOf(b: Budget, col: Column): Option<real>
  {
    match col
    case K1WithVatCol => b.k1WithVat
    case K1WithoutVatCol => b.k1WithoutVat
    case VatCol => b.vat
    case K2Col => b.k2
    case TotalWithoutVatCol => b.totalWithoutVat
    case TotalWithVatCol => b.totalWithVat
  }

  /** `categoryBudgets.reduce((sum, b) => sum + (b.<col> || 0), 0)` over one category's budgets. */
  function BudgetSum(bs: seq<Budget>, categoryId: Id, col: Column): real
  {
    if bs == [] then 0.0
    else
      var b := bs[|bs| - 1];
      BudgetSum(bs[..|bs| - 1], categoryId, col) + (if b.categoryId == categoryId then OrZero(ColumnOf(b, col)) else 0.0)
  }

  /** Whether a transaction counts towards a VAT actual: `(vat_amount || 0) > 0`. */
  predicate HasVat(t: Transaction)
  {
    OrZero(t.vatAmount) > 0.0
  }

  /** The VAT-gated actual: gross plus K2 magnitudes of the category's transactions that carry VAT. */
  function ActualWithVat(txs: seq<Transaction>, categoryId: Id): (r: real)
    ensures r >= 0.0
  {
    if txs == [] then 0.0
    else
      var t := txs[|txs| - 1];
      ActualWithVat(txs[..|txs| - 1], categoryId) +
      (if t.categoryId == Some(categoryId) && HasVat(t) then Abs(OrZero(t.amountWithVat)) + Abs(OrZero(t.k2Amount)) else 0.0)
  }

  /** The net actual: the net magnitudes of all of the category's transactions. */
  function ActualWithoutVat(txs: seq<Transaction>, categoryId: Id): (r: real)
    ensures r >= 0.0
  {
    if txs == [] then 0.0
    else
      var t := txs[|txs| - 1];
      ActualWithoutVat(txs[..|txs| - 1], categoryId) +
      (if t.categoryId == Some(categoryId) then Abs(OrZero(t.amountWithoutVat)) else 0.0)
  }

  /** A transaction without VAT never moves the VAT-gated actual, whatever its amounts. */
  lemma {:induction false} NoVatNoActual(txs: seq<Transaction>, t: Transaction, categoryId: Id)
    requires !HasVat(t)
    ensures ActualWithVat(txs + [t], categoryId) == ActualWithVat(txs, categoryId)
    ensures ActualWithoutVat(txs + [t], categoryId) ==
      ActualWithoutVat(txs, categoryId) + (if t.categoryId == Some(categoryId) then Abs(OrZero(t.amountWithoutVat)) else 0.0)
  {
    assert (txs + [t])[..|txs + [t]| - 1] == txs;
  }

  // ---------------------------------------------------------------------
  // Storing budgets

  /** The month column: `month.includes("-") ? month + "-01" : month`. */
  function MonthColumn(month: string): (r: string)
    ensures Contains(month, '-') ==> r == month + "-01"
    ensures !Contains(month, '-') ==> r == month
  {
    if Contains(month, '-') then month + "-01" else month
  }

  /** A monthly token is stored under its first day; an annual token as it is. */
  lemma MonthColumnOfTokens(ym: YearMonth, y: int)
    requires ValidMonth(ym) && y >= 0
    ensures MonthColumn(MonthToken(ym)) == DateToken(FirstOf(ym))
    ensures MonthColumn(YearToken(y)) == YearToken(y)
  {
    MonthTokenHasDash(ym);
    YearTokenHasNoDash(y);
    assert Pad2(1) == "01";
  }

  /** The columns an upsert writes. */
  datatype BudgetWrite =
    | FullRow(k1WithVat: real, k1WithoutVat: real, vat: real, k2: real, totalWithoutVat: real, totalWithVat: real)
    | K1Part(k1WithVat: real, k1WithoutVat: real, vat: real)
    | K2Part(k2: real)

  /** A row with the written columns replaced. */
  function Written(b: Budget, w: BudgetWrite): (r: Budget)
    ensures r.id == b.id && r.categoryId == b.categoryId && r.month == b.month && r.projectId == b.projectId
    ensures w.K2Part? ==> r.k1WithVat == b.k1WithVat && r.k1WithoutVat == b.k1WithoutVat && r.vat == b.vat
    ensures !w.FullRow? ==> r.totalWithoutVat == b.totalWithoutVat && r.totalWithVat == b.totalWithVat
    ensures w.K1Part? ==> r.k2 == b.k2
  {
    match w
    case FullRow(a, n, v, k, tn, tv) => b.(k1WithVat := Some(a), k1WithoutVat := Some(n), vat := Some(v), k2 := Some(k),
                                        totalWithoutVat := Some(tn), totalWithVat := Some(tv))
    case K1Part(a, n, v) => b.(k1WithVat := Some(a), k1WithoutVat := Some(n), vat := Some(v))
    case K2Part(k) => b.(k2 := Some(k))
  }

  /**
   * Whether a stored row conflicts with the key on (category, month,
   * project). The unique key treats null project ids as distinct, so a
   * row without a project never conflicts.
   */
  predicate SameKey(b: Budget, categoryId: Id, month: string, projectId: Option<Id>)
  {
    b.categoryId == categoryId && b.month == month && projectId.Some? && b.projectId == projectId
  }

  predicate HasKey(bs: seq<Budget>, categoryId: Id, month: string, projectId: Option<Id>)
  {
    exists i :: 0 <= i < |bs| && SameKey(bs[i], categoryId, month, projectId)
  }

  /**
   * `upsert(..., { onConflict: "category_id,month,project_id" })`: the
   * conflicting row gets the written columns; without one, a new row with
   * id `newId` and only those columns set is appended.
   */
  function Upsert(bs: seq<Budget>, categoryId: Id, month: string, projectId: Option<Id>, w: BudgetWrite, newId: Id): seq<Budget>
  {
    if HasKey(bs, categoryId, month, projectId) then
      seq(|bs|, i requires 0 <= i < |bs| =>
        if SameKey(bs[i], categoryId, month, projectId) then Written(bs[i], w) else bs[i])
    else bs + [Written(Budget(newId, categoryId, projectId, month, None, None, None, None, None, None), w)]
  }

  /** The rows after an upsert: updated in place under a conflict, appended otherwise. */
  lemma UpsertRows(bs: seq<Budget>, categoryId: Id, month: string, projectId: Option<Id>, w: BudgetWrite, newId: Id)
    ensures HasKey(bs, categoryId, month, projectId) ==>
      |Upsert(bs, categoryId, month, projectId, w, newId)| == |bs|
    ensures HasKey(bs, categoryId, month, projectId) ==>
      forall i :: 0 <= i < |bs| ==>
        Upsert(bs, categoryId, month, projectId, w, newId)[i] ==
          (if SameKey(bs[i], categoryId, month, projectId) then Written(bs[i], w) else bs[i])
    ensures !HasKey(bs, categoryId, month, projectId) ==>
      Upsert(bs, categoryId, month, projectId, w, newId) ==
        bs + [Written(Budget(newId, categoryId, projectId, month, None, None, None, None, None, None), w)]
  {
  }

  /** At most one row per key: what the unique constraint guarantees. */
  predicate UniqueKeys(bs: seq<Budget>)
  {
    forall i, j :: 0 <= i < j < |bs| && bs[i].projectId.Some? ==>
      !SameKey(bs[j], bs[i].categoryId, bs[i].month, bs[i].projectId)
  }

  /** Upserting keeps the keys unique and leaves exactly one row under the written key. */
  lemma UpsertKeepsKeysUnique(bs: seq<Budget>, categoryId: Id, month: string, projectId: Option<Id>, w: BudgetWrite, newId: Id)
    requires UniqueKeys(bs)
    ensures UniqueKeys(Upsert(bs, categoryId, month, projectId, w, newId))
    ensures projectId.Some? ==> HasKey(Upsert(bs, categoryId, month, projectId, w, newId), categoryId, month, projectId)
  {
    var r := Upsert(bs, categoryId, month, projectId, w, newId);
    UpsertRows(bs, categoryId, month, projectId, w, newId);
    if !HasKey(bs, categoryId, month, projectId) {
      assert r[|bs|].categoryId == categoryId && r[|bs|].month == month && r[|bs|].projectId == projectId;
      if projectId.Some? {
        assert SameKey(r[|bs|], categoryId, month, projectId);
      }
      forall i, j | 0 <= i < j < |r| && r[i].projectId.Some?
        ensures !SameKey(r[j], r[i].categoryId, r[i].month, r[i].projectId)
      {
        if j < |bs| {
          assert r[i] == bs[i] && r[j] == bs[j];
        } else {
          assert r[i] == bs[i];
        }
      }
    } else {
      var k :| 0 <= k < |bs| && SameKey(bs[k], categoryId, month, projectId);
      assert SameKey(r[k], categoryId, month, projectId);
      forall i, j | 0 <= i < j < |r| && r[i].projectId.Some?
        ensures !SameKey(r[j], r[i].categoryId, r[i].month, r[i].projectId)
      {
        assert r[i].categoryId == bs[i].categoryId && r[i].month == bs[i].month && r[i].projectId == bs[i].projectId;
        assert r[j].categoryId == bs[j].categoryId && r[j].month == bs[j].month && r[j].projectId == bs[j].projectId;
      }
    }
  }

  // ---------------------------------------------------------------------
  // The deletes of a category

  /** `budgets.delete().eq("category_id", id)`. */
  function RemoveBudgetsOf(bs: seq<Budget>, categoryId: Id): (r: seq<Budget>)
    ensures forall b :: b in r <==> b in bs && b.categoryId != categoryId
    ensures |r| <= |bs|
  {
    if bs == [] then []
    else
      RemoveBudgetsOf(bs[..|bs| - 1], categoryId) + (if bs[|bs| - 1].categoryId == categoryId then [] else [bs[|bs| - 1]])
  }

  /** `transactions.update({ category_id: null }).eq("category_id", id)`: the rows are kept. */
  function ClearCategory(txs: seq<Transaction>, categoryId: Id): (r: seq<Transaction>)
    ensures |r| == |txs|
    ensures forall i :: 0 <= i < |txs| ==>
      r[i] == (if txs[i].categoryId == Some(categoryId) then txs[i].(categoryId := None) else txs[i])
  {
    seq(|txs|, i requires 0 <= i < |txs| =>
      if txs[i].categoryId == Some(categoryId) then txs[i].(categoryId := None) else txs[i])
  }

  /** `categories.delete().eq("id", id)`. */
  function RemoveCategory(cs: seq<Category>, id: Id): (r: seq<Category>)
    ensures forall c :: c in r <==> c in cs && c.id != id
    ensures |r| <= |cs|
  {
    if cs == [] then []
    else RemoveCategory(cs[..|cs| - 1], id) + (if cs[|cs| - 1].id == id then [] else [cs[|cs| - 1]])
  }

  /** The ids of the direct children: `categories.filter((c) => c.parent_id === id)`. */
  function ChildIds(cs: seq<Category>, parentId: Id): (r: seq<Id>)
    ensures forall k :: k in r <==> exists c :: c in cs && c.parentId == Some(parentId) && c.id == k
  {
    if cs == [] then []
    else
      var c := cs[|cs| - 1];
      var r0 := ChildIds(cs[..|cs| - 1], parentId);
      assert forall x :: x in cs[..|cs| - 1] ==> x in cs;
      assert forall x :: x in cs ==> x in cs[..|cs| - 1] || x == c;
      r0 + (if c.parentId == Some(parentId) then [c.id] else [])
  }
}
