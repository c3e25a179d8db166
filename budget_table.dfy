/**
 * The single-month budget table: one row of figures per category, built
 * from the category's budget and transaction rows, edited in place by the
 * K1/K2 handlers, and saved back by upserts keyed on (category, month,
 * project).
 */
module BudgetTable {
  import opened Common
  import opened Rows
  import opened BudgetRows
  import TransactionForm

  /**
   * A category's row: the four budget sums (null read as 0), both totals
   * including K2, and the actuals of its transactions.
   */
  function RowFor(budgets: seq<Budget>, txs: seq<Transaction>, categoryId: Id): (r: Figures)
    ensures r.actualWithVat >= 0.0 && r.actualWithoutVat >= 0.0
  {
    var k1 := BudgetSum(budgets, categoryId, K1WithVatCol);
    var k1n := BudgetSum(budgets, categoryId, K1WithoutVatCol);
    var k2 := BudgetSum(budgets, categoryId, K2Col);
    Figures(k1, k1n, BudgetSum(budgets, categoryId, VatCol), k2, k1n + k2, k1 + k2,
            ActualWithoutVat(txs, categoryId), ActualWithVat(txs, categoryId))
  }

  /** Each row's totals are its K1 sums plus its K2 sum. */
  lemma RowForConsistent(budgets: seq<Budget>, txs: seq<Transaction>, categoryId: Id)
    ensures Consistent(RowFor(budgets, txs, categoryId))
  {
  }

  /** What one stored budget row adds to its category's row. */
  function Contribution(b: Budget): Figures
  {
    var k1 := OrZero(b.k1WithVat);
    var k1n := OrZero(b.k1WithoutVat);
    var k2 := OrZero(b.k2);
    Figures(k1, k1n, OrZero(b.vat), k2, k1n + k2, k1 + k2, 0.0, 0.0)
  }

  /** A new budget row adds its columns to its own category's row and to no other. */
  lemma RowForAddBudget(bs: seq<Budget>, b: Budget, txs: seq<Transaction>, categoryId: Id)
    ensures b.categoryId == categoryId ==> RowFor(bs + [b], txs, categoryId) == Plus(RowFor(bs, txs, categoryId), Contribution(b))
    ensures b.categoryId != categoryId ==> RowFor(bs + [b], txs, categoryId) == RowFor(bs, txs, categoryId)
  {
    assert (bs + [b])[..|bs + [b]| - 1] == bs;
  }

  /** A transaction moves the actuals of its own category's row only; the budget figures never. */
  lemma RowForAddTransaction(bs: seq<Budget>, txs: seq<Transaction>, t: Transaction, categoryId: Id)
    ensures t.categoryId != Some(categoryId) ==> RowFor(bs, txs + [t], categoryId) == RowFor(bs, txs, categoryId)
    ensures t.categoryId == Some(categoryId) ==>
      RowFor(bs, txs + [t], categoryId) == Plus(RowFor(bs, txs, categoryId),
        Figures(0.0, 0.0, 0.0, 0.0, 0.0, 0.0, Abs(OrZero(t.amountWithoutVat)),
                if HasVat(t) then Abs(OrZero(t.amountWithVat)) + Abs(OrZero(t.k2Amount)) else 0.0))
  {
    assert (txs + [t])[..|txs + [t]| - 1] == txs;
  }

  // ---------------------------------------------------------------------
  // The edit handlers

  /** `value === "" ? 0 : Number.parseFloat(value)`; `None` stands for NaN. */
  function EnteredValue(value: string, parse: string -> Option<real>): (r: Option<real>)
    ensures value == "" ==> r == Some(0.0)
    ensures value != "" ==> r == parse(value)
  {
    if value == "" then Some(0.0) else parse(value)
  }

  /** `handleK1WithVatChange`: the gross is split at 20% and both totals recomputed. */
  function WithGross(f: Figures, w: real): (r: Figures)
    ensures Consistent(r)
    ensures r.k1WithVat == w && r.k1WithoutVat * TransactionForm.GrossFactor == w && r.k1WithoutVat + r.vat == w
    ensures r.k2 == f.k2 && r.actualWithoutVat == f.actualWithoutVat && r.actualWithVat == f.actualWithVat
  {
    var net := w / TransactionForm.GrossFactor;
    f.(k1WithVat := w, k1WithoutVat := net, vat := w - net, totalWithoutVat := net + f.k2, totalWithVat := w + f.k2)
  }

  /** `handleK1WithoutVatChange`: gross and VAT are zeroed, so the total with VAT is K2 alone. */
  function WithNet(f: Figures, n: real): (r: Figures)
    ensures Consistent(r)
    ensures r.k1WithVat == 0.0 && r.vat == 0.0 && r.k1WithoutVat == n && r.totalWithVat == f.k2
    ensures r.k2 == f.k2 && r.actualWithoutVat == f.actualWithoutVat && r.actualWithVat == f.actualWithVat
  {
    f.(k1WithVat := 0.0, k1WithoutVat := n, vat := 0.0, totalWithoutVat := n + f.k2, totalWithVat := f.k2)
  }

  /** `handleK2Change`: only K2 and the two totals change. */
  function WithK2(f: Figures, k: real): (r: Figures)
    ensures Consistent(r)
    ensures r.k2 == k && r.k1WithVat == f.k1WithVat && r.k1WithoutVat == f.k1WithoutVat && r.vat == f.vat
    ensures r.actualWithoutVat == f.actualWithoutVat && r.actualWithVat == f.actualWithVat
  {
    f.(k2 := k, totalWithoutVat := f.k1WithoutVat + k, totalWithVat := f.k1WithVat + k)
  }

  /** A K2 edit and a K1 edit commute, and a net entry overrides an earlier gross entry. */
  lemma EditsCommute(f: Figures, w: real, n: real, k: real)
    ensures WithK2(WithGross(f, w), k) == WithGross(WithK2(f, k), w)
    ensures WithK2(WithNet(f, n), k) == WithNet(WithK2(f, k), n)
    ensures WithNet(WithGross(f, w), n) == WithNet(f, n)
  {
  }

  /** The columns a full-row save writes. */
  function FullWrite(f: Figures): (w: BudgetWrite)
    ensures w.FullRow?
  {
    FullRow(f.k1WithVat, f.k1WithoutVat, f.vat, f.k2, f.totalWithoutVat, f.totalWithVat)
  }

  /** A stored row holding exactly the six budget figures of `f`. */
  predicate Holds(b: Budget, f: Figures)
  {
    b.k1WithVat == Some(f.k1WithVat) && b.k1WithoutVat == Some(f.k1WithoutVat) && b.vat == Some(f.vat) &&
    b.k2 == Some(f.k2) && b.totalWithoutVat == Some(f.totalWithoutVat) && b.totalWithVat == Some(f.totalWithVat)
  }

  lemma WrittenHolds(b: Budget, f: Figures)
    ensures Holds(Written(b, FullWrite(f)), f)
  {
  }

  /** The first budget row of a category: the row's budget figures are that row's columns. */
  lemma RowForFirstBudget(bs: seq<Budget>, b: Budget, txs: seq<Transaction>)
    requires forall i :: 0 <= i < |bs| ==> bs[i].categoryId != b.categoryId
    ensures RowFor(bs + [b], txs, b.categoryId).k1WithVat == OrZero(b.k1WithVat)
    ensures RowFor(bs + [b], txs, b.categoryId).k1WithoutVat == OrZero(b.k1WithoutVat)
    ensures RowFor(bs + [b], txs, b.categoryId).vat == OrZero(b.vat)
    ensures RowFor(bs + [b], txs, b.categoryId).k2 == OrZero(b.k2)
  {
    assert (bs + [b])[..|bs + [b]| - 1] == bs;
    BudgetSumOfOthers(bs, b.categoryId, K1WithVatCol);
    BudgetSumOfOthers(bs, b.categoryId, K1WithoutVatCol);
    BudgetSumOfOthers(bs, b.categoryId, VatCol);
    BudgetSumOfOthers(bs, b.categoryId, K2Col);
  }

  /**
   * Saving a row then building the table again gives back its budget
   * figures, when the category had no earlier budget rows to add to them.
   */
  lemma SaveThenLoad(bs: seq<Budget>, txs: seq<Transaction>, categoryId: Id, month: string, projectId: Option<Id>, f: Figures, newId: Id)
    requires Consistent(f)
    requires forall i :: 0 <= i < |bs| ==> bs[i].categoryId != categoryId
    ensures var g := RowFor(Upsert(bs, categoryId, month, projectId, FullWrite(f), newId), txs, categoryId);
      g.k1WithVat == f.k1WithVat && g.k1WithoutVat == f.k1WithoutVat && g.vat == f.vat && g.k2 == f.k2 &&
      g.totalWithoutVat == f.totalWithoutVat && g.totalWithVat == f.totalWithVat
  {
    var b := Written(Budget(newId, categoryId, projectId, month, None, None, None, None, None, None), FullWrite(f));
    assert Upsert(bs, categoryId, month, projectId, FullWrite(f), newId) == bs + [b] by {
      assert !HasKey(bs, categoryId, month, projectId);
      UpsertRows(bs, categoryId, month, projectId, FullWrite(f), newId);
    }
    assert Holds(b, f);
    RowForFirstBudget(bs, b, txs);
  }

  lemma {:induction false} BudgetSumOfOthers(bs: seq<Budget>, categoryId: Id, col: Column)
    requires forall i :: 0 <= i < |bs| ==> bs[i].categoryId != categoryId
    ensures BudgetSum(bs, categoryId, col) == 0.0
  {
    if bs != [] {
      BudgetSumOfOthers(bs[..|bs| - 1], categoryId, col);
    }
  }

  /** The category ids in first-appearance order, each once: the key order of `budgetData`. */
  function FirstAppearance(ids: seq<Id>): (r: seq<Id>)
    ensures forall k :: k in r <==> k in ids
    ensures forall i, j :: 0 <= i < j < |r| ==> r[i] != r[j]
  {
    if ids == [] then []
    else
      var r0 := FirstAppearance(ids[..|ids| - 1]);
      assert forall x :: x in ids <==> x in ids[..|ids| - 1] || x == ids[|ids| - 1];
      if ids[|ids| - 1] in r0 then r0 else r0 + [ids[|ids| - 1]]
  }

  lemma FirstAppearanceStep(ids: seq<Id>, i: nat)
    requires i < |ids|
    ensures FirstAppearance(ids[..i + 1]) ==
      if ids[i] in FirstAppearance(ids[..i]) then FirstAppearance(ids[..i]) else FirstAppearance(ids[..i]) + [ids[i]]
  {
    assert ids[..i + 1][..i] == ids[..i];
  }

  function CategoryIds(cs: seq<Category>): (r: seq<Id>)
    ensures |r| == |cs| && forall i :: 0 <= i < |cs| ==> r[i] == cs[i].id
  {
    seq(|cs|, i requires 0 <= i < |cs| => cs[i].id)
  }

  /**
   * `upsert` of every row in key order, the i-th getting the i-th fresh id
   * (a key without a row, which the table never has, is skipped).
   */
  function UpsertAll(bs: seq<Budget>, data: map<Id, Figures>, ks: seq<Id>, month: string, projectId: Option<Id>, firstId: nat): seq<Budget>
  {
    if ks == [] then bs
    else
      var k := ks[|ks| - 1];
      var prev := UpsertAll(bs, data, ks[..|ks| - 1], month, projectId, firstId);
      if k in data then Upsert(prev, k, month, projectId, FullWrite(data[k]), GeneratedId(firstId + |ks| - 1)) else prev
  }

  lemma UpsertAllStep(bs: seq<Budget>, data: map<Id, Figures>, ks: seq<Id>, n: nat, month: string, projectId: Option<Id>, firstId: nat)
    requires n < |ks| && ks[n] in data
    ensures UpsertAll(bs, data, ks[..n + 1], month, projectId, firstId) ==
      Upsert(UpsertAll(bs, data, ks[..n], month, projectId, firstId), ks[n], month, projectId, FullWrite(data[ks[n]]), GeneratedId(firstId + n))
  {
    assert ks[..n + 1][..n] == ks[..n];
  }

  /** Without a project nothing conflicts: every save appends one new row per category. */
  lemma {:induction false} SaveWithoutProjectAppends(bs: seq<Budget>, data: map<Id, Figures>, ks: seq<Id>, month: string, firstId: nat)
    requires forall i :: 0 <= i < |ks| ==> ks[i] in data
    ensures |UpsertAll(bs, data, ks, month, None, firstId)| == |bs| + |ks|
    ensures UpsertAll(bs, data, ks, month, None, firstId)[..|bs|] == bs
  {
    if ks != [] {
      var prev := UpsertAll(bs, data, ks[..|ks| - 1], month, None, firstId);
      SaveWithoutProjectAppends(bs, data, ks[..|ks| - 1], month, firstId);
      assert !HasKey(prev, ks[|ks| - 1], month, None);
      var r := UpsertAll(bs, data, ks, month, None, firstId);
      assert r[..|bs|] == prev[..|bs|];
    }
  }

  /** With a project, saving keeps at most one row per key and leaves every saved key present. */
  lemma {:induction false} SaveKeepsKeysUnique(bs: seq<Budget>, data: map<Id, Figures>, ks: seq<Id>, month: string, projectId: Option<Id>, firstId: nat)
    requires forall i :: 0 <= i < |ks| ==> ks[i] in data
    requires UniqueKeys(bs)
    ensures UniqueKeys(UpsertAll(bs, data, ks, month, projectId, firstId))
  {
    if ks != [] {
      SaveKeepsKeysUnique(bs, data, ks[..|ks| - 1], month, projectId, firstId);
      var k := ks[|ks| - 1];
      UpsertKeepsKeysUnique(UpsertAll(bs, data, ks[..|ks| - 1], month, projectId, firstId), k, month, projectId,
                            FullWrite(data[k]), GeneratedId(firstId + |ks| - 1));
    }
  }

  /** Whether a row stored under the key holds the figures. */
  predicate StoredAs(bs: seq<Budget>, categoryId: Id, month: string, projectId: Option<Id>, f: Figures)
  {
    exists i :: 0 <= i < |bs| && SameKey(bs[i], categoryId, month, projectId) && Holds(bs[i], f)
  }

  /** An upsert under another key keeps what a key stores. */
  lemma UpsertKeepsOtherKey(bs: seq<Budget>, k: Id, c: Id, month: string, projectId: Option<Id>, w: BudgetWrite, newId: Id, f: Figures)
    requires k != c && StoredAs(bs, c, month, projectId, f)
    ensures StoredAs(Upsert(bs, k, month, projectId, w, newId), c, month, projectId, f)
  {
    var i :| 0 <= i < |bs| && SameKey(bs[i], c, month, projectId) && Holds(bs[i], f);
    var r := Upsert(bs, k, month, projectId, w, newId);
    assert !SameKey(bs[i], k, month, projectId);
    assert r[i] == bs[i];
  }

  /**
   * After saving distinct categories under a project, each key stores its
   * category's figures: later saves of other categories do not touch it.
   */
  lemma {:induction false} SavedRowsHoldFigures(bs: seq<Budget>, data: map<Id, Figures>, ks: seq<Id>, month: string, projectId: Option<Id>, firstId: nat)
    requires forall i :: 0 <= i < |ks| ==> ks[i] in data
    requires forall i, j :: 0 <= i < j < |ks| ==> ks[i] != ks[j]
    requires projectId.Some?
    ensures forall i :: 0 <= i < |ks| ==> StoredAs(UpsertAll(bs, data, ks, month, projectId, firstId), ks[i], month, projectId, data[ks[i]])
  {
    if ks != [] {
      var init := ks[..|ks| - 1];
      var k := ks[|ks| - 1];
      var prev := UpsertAll(bs, data, init, month, projectId, firstId);
      var r := UpsertAll(bs, data, ks, month, projectId, firstId);
      SavedRowsHoldFigures(bs, data, init, month, projectId, firstId);
      if HasKey(prev, k, month, projectId) {
        var j :| 0 <= j < |prev| && SameKey(prev[j], k, month, projectId);
        assert SameKey(r[j], k, month, projectId) && Holds(r[j], data[k]);
      } else {
        assert SameKey(r[|prev|], k, month, projectId) && Holds(r[|prev|], data[k]);
      }
      forall i | 0 <= i < |ks| ensures StoredAs(r, ks[i], month, projectId, data[ks[i]]) {
        if i < |init| {
          assert ks[i] == init[i];
          UpsertKeepsOtherKey(prev, k, ks[i], month, projectId, FullWrite(data[k]), GeneratedId(firstId + |ks| - 1), data[ks[i]]);
        }
      }
    }
  }

  /** One `upsert` call that succeeds; the storage gives a new row the next id. */
  method SaveRow(db: Store, categoryId: Id, month: string, projectId: Option<Id>, w: BudgetWrite)
    modifies db`budgets, db`nextId
    ensures db.budgets == Upsert(old(db.budgets), categoryId, month, projectId, w, GeneratedId(old(db.nextId)))
    ensures db.nextId == old(db.nextId) + 1
  {
    var id := db.NewId();
    db.budgets := Upsert(db.budgets, categoryId, month, projectId, w, id);
  }

  /** The loop of the loading effect: a row per category id, keys in first-appearance order. */
  method BuildRows(categories: seq<Category>, budgets: seq<Budget>, txs: seq<Transaction>)
    returns (data: map<Id, Figures>, keys: seq<Id>)
    ensures keys == FirstAppearance(CategoryIds(categories))
    ensures forall k :: k in data <==> k in keys
    ensures forall k :: k in data ==> data[k] == RowFor(budgets, txs, k)
  {
    data := map[];
    keys := [];
    var ids := CategoryIds(categories);
    for i := 0 to |ids|
      invariant keys == FirstAppearance(ids[..i])
      invariant forall k :: k in data <==> k in ids[..i]
      invariant forall k :: k in data ==> data[k] == RowFor(budgets, txs, k)
    {
      var id := ids[i];
      FirstAppearanceStep(ids, i);
      assert forall k :: k in ids[..i + 1] <==> k in ids[..i] || k == id by {
        assert ids[..i + 1] == ids[..i] + [id];
      }
      if id !in data {
        keys := keys + [id];
      }
      var row := RowFor(budgets, txs, id);
      data := data[id := row];
    }
    assert ids[..|ids|] == ids;
  }

  /** The loop of `handleSave`: one `upsert` per key, stopping at the first failure. */
  method SaveKeys(db: Store, data: map<Id, Figures>, ks: seq<Id>, month: string, projectId: Option<Id>, fails: nat -> bool)
    returns (saved: nat)
    requires forall i :: 0 <= i < |ks| ==> ks[i] in data
    modifies db`budgets, db`nextId
    ensures saved <= |ks|
    ensures forall j :: 0 <= j < saved ==> !fails(j)
    ensures saved < |ks| ==> fails(saved)
    ensures db.budgets == UpsertAll(old(db.budgets), data, ks[..saved], month, projectId, old(db.nextId))
    ensures db.nextId == old(db.nextId) + saved
  {
    saved := 0;
    ghost var b0 := db.budgets;
    ghost var n0 := db.nextId;
    while saved < |ks|
      invariant saved <= |ks|
      invariant forall j :: 0 <= j < saved ==> !fails(j)
      invariant db.budgets == UpsertAll(b0, data, ks[..saved], month, projectId, n0)
      invariant db.nextId == n0 + saved
      decreases |ks| - saved
    {
      if fails(saved) {
        return;
      }
      UpsertAllStep(b0, data, ks, saved, month, projectId, n0);
      SaveRow(db, ks[saved], month, projectId, FullWrite(data[ks[saved]]));
      saved := saved + 1;
    }
  }

  /** The table's state: `budgetData` and the order of its keys. */
  class Table {
    var data: map<Id, Figures>
    var keys: seq<Id>

    ghost predicate Valid()
      reads this
    {
      (forall k :: k in data <==> k in keys) &&
      (forall i, j :: 0 <= i < j < |keys| ==> keys[i] != keys[j]) &&
      (forall k :: k in data ==> Consistent(data[k]))
    }

    constructor ()
      ensures Valid() && data == map[] && keys == []
    {
      data := map[];
      keys := [];
    }

    /** The effect that builds `budgetData` with one row per category. */
    method Load(categories: seq<Category>, budgets: seq<Budget>, txs: seq<Transaction>)
      modifies this
      ensures Valid()
      ensures keys == FirstAppearance(CategoryIds(categories))
      ensures forall k :: k in data ==> data[k] == RowFor(budgets, txs, k)
    {
      data, keys := BuildRows(categories, budgets, txs);
      forall k | k in data
        ensures Consistent(data[k])
      {
        RowForConsistent(budgets, txs, k);
      }
    }

    /**
     * `handleK1WithVatChange` with the already-read value. A category
     * without a row makes the handler throw, which leaves the table as it was.
     */
    method GrossChanged(categoryId: Id, w: real)
      requires Valid()
      modifies this
      ensures Valid() && keys == old(keys)
      ensures categoryId in old(data) ==> data == old(data)[categoryId := WithGross(old(data)[categoryId], w)]
      ensures categoryId !in old(data) ==> data == old(data)
    {
      if categoryId in data {
        data := data[categoryId := WithGross(data[categoryId], w)];
      }
    }

    method NetChanged(categoryId: Id, n: real)
      requires Valid()
      modifies this
      ensures Valid() && keys == old(keys)
      ensures categoryId in old(data) ==> data == old(data)[categoryId := WithNet(old(data)[categoryId], n)]
      ensures categoryId !in old(data) ==> data == old(data)
    {
      if categoryId in data {
        data := data[categoryId := WithNet(data[categoryId], n)];
      }
    }

    method K2Changed(categoryId: Id, k: real)
      requires Valid()
      modifies this
      ensures Valid() && keys == old(keys)
      ensures categoryId in old(data) ==> data == old(data)[categoryId := WithK2(old(data)[categoryId], k)]
      ensures categoryId !in old(data) ==> data == old(data)
    {
      if categoryId in data {
        data := data[categoryId := WithK2(data[categoryId], k)];
      }
    }

    /**
     * `handleSaveSingleCategory`: nothing is written when the table is
     * read-only, has no project or has no row for the category, or when the
     * upsert fails.
     */
    method SaveCategory(db: Store, categoryId: Id, readOnly: bool, projectId: Option<Id>, month: string, fails: bool)
      modifies db
      ensures readOnly || projectId.None? || categoryId !in data || fails ==>
        db.budgets == old(db.budgets) && db.nextId == old(db.nextId)
      ensures !(readOnly || projectId.None? || categoryId !in data || fails) ==>
        db.budgets == Upsert(old(db.budgets), categoryId, MonthColumn(month), projectId, FullWrite(data[categoryId]), GeneratedId(old(db.nextId))) &&
        db.nextId == old(db.nextId) + 1
      ensures db.accounts == old(db.accounts) && db.categories == old(db.categories) && db.transactions == old(db.transactions)
      ensures db.debts == old(db.debts) && db.projects == old(db.projects) && db.schedules == old(db.schedules)
    {
      if readOnly || projectId.None? {
        return;
      }
      if categoryId !in data {
        return;
      }
      if !fails {
        var id := db.NewId();
        db.budgets := Upsert(db.budgets, categoryId, MonthColumn(month), projectId, FullWrite(data[categoryId]), id);
      }
    }

    /**
     * `handleSave`: every row in key order, under the table's project
     * (which may be none); the first failing upsert stops the loop.
     * `fails(i)` is the outcome of the i-th upsert.
     */
    method SaveAll(db: Store, projectId: Option<Id>, month: string, fails: nat -> bool) returns (saved: nat)
      requires Valid()
      modifies db`budgets, db`nextId
      ensures saved <= |keys|
      ensures forall j :: 0 <= j < saved ==> !fails(j)
      ensures saved < |keys| ==> fails(saved)
      ensures db.budgets == UpsertAll(old(db.budgets), data, keys[..saved], MonthColumn(month), projectId, old(db.nextId))
      ensures db.nextId == old(db.nextId) + saved
    {
      saved := SaveKeys(db, data, keys, MonthColumn(month), projectId, fails);
    }
  }
}
