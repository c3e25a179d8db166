/**
 * The budget table of a project page: one row per category taken from
 * the category's first budget row, a VAT-gated actual and a deviation,
 * the K1/K2 edit handlers, the TOTAL row and the save loop.
 */
module ProjectBudget {
  import opened Common
  import opened Calendar
  import opened Rows
  import opened BudgetRows
  import BudgetTable
  import TransactionForm

  /** A row of the project table. */
  datatype Row = Row(
    categoryId: Id,
    categoryName: string,
    k1WithVat: real,
    k1WithoutVat: real,
    vat: real,
    k2: real,
    totalWithoutVat: real,
    totalWithVat: real,
    actualWithVat: real,
    deviation: real)

  /** Both totals include K2, and the deviation is the total with VAT less the actual. */
  predicate RowValid(r: Row)
  {
    r.totalWithoutVat == r.k1WithoutVat + r.k2 && r.totalWithVat == r.k1WithVat + r.k2 &&
    r.deviation == r.totalWithVat - r.actualWithVat
  }

  /** `budgets.find((b) => b.category_id === id)`. */
  function FirstBudget(bs: seq<Budget>, categoryId: Id): (r: Option<Budget>)
    ensures r.Some? ==> r.value in bs && r.value.categoryId == categoryId
    ensures r.None? ==> forall b :: b in bs ==> b.categoryId != categoryId
  {
    if bs == [] then None
    else if bs[0].categoryId == categoryId then Some(bs[0])
    else FirstBudget(bs[1..], categoryId)
  }

  /** `budget?.<column> || 0`. */
  function FirstColumn(b: Option<Budget>, col: Column): real
  {
    if b.Some? then OrZero(ColumnOf(b.value, col)) else 0.0
  }

  /** The row the loading effect builds for a category with this id and name. */
  function RowOf(id: Id, name: string, bs: seq<Budget>, txs: seq<Transaction>): (r: Row)
    ensures RowValid(r)
    ensures r.categoryId == id && r.categoryName == name && r.actualWithVat == ActualWithVat(txs, id)
    ensures FirstBudget(bs, id).None? ==>
      r.k1WithVat == 0.0 && r.k1WithoutVat == 0.0 && r.vat == 0.0 && r.k2 == 0.0 &&
      r.totalWithVat == 0.0 && r.totalWithoutVat == 0.0 && r.deviation == -r.actualWithVat
    ensures FirstBudget(bs, id).Some? ==>
      var b := FirstBudget(bs, id).value;
      r.k1WithVat == OrZero(b.k1WithVat) && r.k1WithoutVat == OrZero(b.k1WithoutVat) && r.vat == OrZero(b.vat) && r.k2 == OrZero(b.k2)
  {
    var b := FirstBudget(bs, id);
    var k1 := FirstColumn(b, K1WithVatCol);
    var k1n := FirstColumn(b, K1WithoutVatCol);
    var k2 := FirstColumn(b, K2Col);
    var actual := ActualWithVat(txs, id);
    Row(id, name, k1, k1n, FirstColumn(b, VatCol), k2, k1n + k2, k1 + k2, actual, k1 + k2 - actual)
  }

  /** The name of the last category with the id: `data[category.id] = ...` keeps the last write. */
  function LastName(cs: seq<Category>, id: Id): string
  {
    if cs == [] then ""
    else if cs[|cs| - 1].id == id then cs[|cs| - 1].name
    else LastName(cs[..|cs| - 1], id)
  }

  /** With two budget rows for a category the project row shows the first, where the budget table shows their sum. */
  lemma FirstRowNotSum(c: Category, b1: Budget, b2: Budget, txs: seq<Transaction>)
    requires b1.categoryId == c.id && b2.categoryId == c.id
    ensures RowOf(c.id, c.name, [b1, b2], txs).k1WithVat == OrZero(b1.k1WithVat)
    ensures BudgetSum([b1, b2], c.id, K1WithVatCol) == OrZero(b1.k1WithVat) + OrZero(b2.k1WithVat)
  {
    assert [b1, b2][..1] == [b1];
    assert [b1][..0] == [];
    assert BudgetSum([b1], c.id, K1WithVatCol) == OrZero(b1.k1WithVat);
  }

  /** `handleK1WithVatChange`: the gross split at 20%, both totals and the deviation recomputed. */
  function WithGross(r: Row, w: real): (s: Row)
    ensures RowValid(s)
    ensures s.k1WithVat == w && s.k1WithoutVat * TransactionForm.GrossFactor == w && s.k1WithoutVat + s.vat == w
    ensures s.k2 == r.k2 && s.actualWithVat == r.actualWithVat && s.categoryId == r.categoryId
  {
    var net := w / TransactionForm.GrossFactor;
    r.(k1WithVat := w, k1WithoutVat := net, vat := w - net, totalWithoutVat := net + r.k2, totalWithVat := w + r.k2,
       deviation := w + r.k2 - r.actualWithVat)
  }

  /** `handleK2Change`: K1 untouched, both totals and the deviation recomputed. */
  function WithK2(r: Row, k: real): (s: Row)
    ensures RowValid(s)
    ensures s.k2 == k && s.k1WithVat == r.k1WithVat && s.k1WithoutVat == r.k1WithoutVat && s.vat == r.vat
    ensures s.actualWithVat == r.actualWithVat && s.categoryId == r.categoryId
  {
    r.(k2 := k, totalWithoutVat := r.k1WithoutVat + k, totalWithVat := r.k1WithVat + k,
       deviation := r.k1WithVat + k - r.actualWithVat)
  }

  /** The three columns of the TOTAL row. */
  datatype Totals = Totals(totalWithVat: real, actualWithVat: real, deviation: real)

  /** `Object.values(budgetData).reduce`, in key order. */
  function TotalsOf(data: map<Id, Row>, keys: seq<Id>): Totals
    requires forall i :: 0 <= i < |keys| ==> keys[i] in data
  {
    if keys == [] then Totals(0.0, 0.0, 0.0)
    else
      var t := TotalsOf(data, keys[..|keys| - 1]);
      var r := data[keys[|keys| - 1]];
      Totals(t.totalWithVat + r.totalWithVat, t.actualWithVat + r.actualWithVat, t.deviation + r.deviation)
  }

  /** The total deviation is the total budget less the total actual. */
  lemma {:induction false} TotalDeviation(data: map<Id, Row>, keys: seq<Id>)
    requires forall i :: 0 <= i < |keys| ==> keys[i] in data
    requires forall k :: k in data ==> RowValid(data[k])
    ensures TotalsOf(data, keys).deviation == TotalsOf(data, keys).totalWithVat - TotalsOf(data, keys).actualWithVat
  {
    if keys != [] {
      TotalDeviation(data, keys[..|keys| - 1]);
    }
  }

  /** A row as the eight figures the upsert writes from (the net actual is not shown here). */
  function FiguresOf(r: Row): Figures
  {
    Figures(r.k1WithVat, r.k1WithoutVat, r.vat, r.k2, r.totalWithoutVat, r.totalWithVat, 0.0, r.actualWithVat)
  }

  /** The month `handleSave` writes: `toISOString().slice(0, 7) + "-01"`. */
  function SaveMonth(today: Date): (s: string)
    requires ValidDate(today)
    ensures s == DateToken(FirstOf(MonthOf(today)))
  {
    assert Pad2(1) == "01";
    MonthToken(MonthOf(today)) + "-01"
  }

  /** What the loading loop has built after some categories: their ids in first-appearance order, and each id's row. */
  ghost predicate Loaded(d: map<Id, Row>, ks: seq<Id>, cs: seq<Category>, bs: seq<Budget>, txs: seq<Transaction>)
  {
    ks == BudgetTable.FirstAppearance(BudgetTable.CategoryIds(cs)) &&
    (forall k :: k in d <==> k in ks) &&
    (forall k :: k in d ==> d[k] == RowOf(k, LastName(cs, k), bs, txs))
  }

  /** Writing the row of one more category extends what the loop has built. */
  lemma LoadStep(d: map<Id, Row>, ks: seq<Id>, cs: seq<Category>, bs: seq<Budget>, txs: seq<Transaction>)
    requires cs != [] && Loaded(d, ks, cs[..|cs| - 1], bs, txs)
    ensures var c := cs[|cs| - 1];
      Loaded(d[c.id := RowOf(c.id, c.name, bs, txs)], if c.id in d then ks else ks + [c.id], cs, bs, txs)
  {
    var n := |cs| - 1;
    var c := cs[n];
    var d' := d[c.id := RowOf(c.id, c.name, bs, txs)];
    var ks' := if c.id in d then ks else ks + [c.id];
    assert ks' == BudgetTable.FirstAppearance(BudgetTable.CategoryIds(cs)) by {
      var ids := BudgetTable.CategoryIds(cs);
      assert BudgetTable.CategoryIds(cs[..n]) == ids[..n];
      BudgetTable.FirstAppearanceStep(ids, n);
      assert ids[..n + 1] == ids;
    }
    forall k | k in d'
      ensures d'[k] == RowOf(k, LastName(cs, k), bs, txs)
    {
      if k == c.id {
        assert LastName(cs, k) == c.name;
      } else {
        assert LastName(cs, k) == LastName(cs[..n], k);
      }
    }
  }

  /** The table's state: `budgetData` and its keys in insertion order. */
  class Table {
    var data: map<Id, Row>
    var keys: seq<Id>

    ghost predicate Valid()
      reads this
    {
      (forall k :: k in data <==> k in keys) &&
      (forall i, j :: 0 <= i < j < |keys| ==> keys[i] != keys[j]) &&
      (forall k :: k in data ==> RowValid(data[k]))
    }

    constructor ()
      ensures Valid() && data == map[] && keys == []
    {
      data := map[];
      keys := [];
    }

    /** The loading effect: `categories.forEach` writing `data[category.id]`. */
    method Load(categories: seq<Category>, bs: seq<Budget>, txs: seq<Transaction>)
      modifies this
      ensures Valid()
      ensures keys == BudgetTable.FirstAppearance(BudgetTable.CategoryIds(categories))
      ensures forall k :: k in data ==> data[k] == RowOf(k, LastName(categories, k), bs, txs)
    {
      var d: map<Id, Row> := map[];
      var ks: seq<Id> := [];
      ghost var ids := BudgetTable.CategoryIds(categories);
      for i := 0 to |categories|
        invariant Loaded(d, ks, categories[..i], bs, txs)
      {
        var c := categories[i];
        assert Loaded(d[c.id := RowOf(c.id, c.name, bs, txs)], if c.id in d then ks else ks + [c.id], categories[..i + 1], bs, txs) by {
          assert categories[..i + 1][..i] == categories[..i];
          LoadStep(d, ks, categories[..i + 1], bs, txs);
        }
        if c.id !in d {
          ks := ks + [c.id];
        }
        d := d[c.id := RowOf(c.id, c.name, bs, txs)];
      }
      assert categories[..|categories|] == categories;
      data, keys := d, ks;
    }

    /** The K1-with-VAT handler on one row; other rows are untouched. */
    method GrossChanged(categoryId: Id, value: string, parse: string -> Option<real>)
      requires Valid()
      modifies this`data
      ensures Valid()
      ensures categoryId in old(data) ==> data == old(data)[categoryId := WithGross(old(data)[categoryId], TransactionForm.NumberOrZero(value, parse))]
      ensures categoryId !in old(data) ==> data == old(data)
    {
      if categoryId in data {
        data := data[categoryId := WithGross(data[categoryId], TransactionForm.NumberOrZero(value, parse))];
      }
    }

    /** The K2 handler on one row; other rows are untouched. */
    method K2Changed(categoryId: Id, value: string, parse: string -> Option<real>)
      requires Valid()
      modifies this`data
      ensures Valid()
      ensures categoryId in old(data) ==> data == old(data)[categoryId := WithK2(old(data)[categoryId], TransactionForm.NumberOrZero(value, parse))]
      ensures categoryId !in old(data) ==> data == old(data)
    {
      if categoryId in data {
        data := data[categoryId := WithK2(data[categoryId], TransactionForm.NumberOrZero(value, parse))];
      }
    }

    /** The TOTAL row of the table; its deviation is the total budget less the total actual. */
    function TotalRow(): (t: Totals)
      requires Valid()
      reads this
      ensures t.deviation == t.totalWithVat - t.actualWithVat
    {
      TotalDeviation(data, keys);
      TotalsOf(data, keys)
    }

    /**
     * `handleSave`: every row in key order under the current month and
     * the project; the first failing upsert stops the loop.
     */
    method Save(db: Store, projectId: Id, today: Date, fails: nat -> bool) returns (saved: nat)
      requires Valid() && ValidDate(today)
      modifies db`budgets, db`nextId
      ensures saved <= |keys|
      ensures forall j :: 0 <= j < saved ==> !fails(j)
      ensures saved < |keys| ==> fails(saved)
      ensures db.budgets == BudgetTable.UpsertAll(old(db.budgets), map k | k in data :: FiguresOf(data[k]), keys[..saved],
                                                  SaveMonth(today), Some(projectId), old(db.nextId))
      ensures db.nextId == old(db.nextId) + saved
    {
      var figures := map k | k in data :: FiguresOf(data[k]);
      saved := BudgetTable.SaveKeys(db, figures, keys, SaveMonth(today), Some(projectId), fails);
    }
  }
}
