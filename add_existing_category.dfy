/**
 * Adding existing categories to a budget: the categories still without a
 * budget row are offered, a checkbox list toggles the selection, and the
 * selection is inserted as zero budget rows in one statement.
 */
module AddExistingCategory {
  import opened Common
  import opened Rows
  import opened BudgetRows
  import BudgetTable

  /** The categories offered: those whose id has no budget yet, in their order. */
  function Available(cs: seq<Category>, existing: seq<Id>): (r: seq<Category>)
    ensures forall c :: c in r <==> c in cs && c.id !in existing
  {
    Filter(cs, (c: Category) => c.id !in existing)
  }

  /** The offer distributes over concatenation, so the offered categories keep the list order. */
  lemma AvailableKeepsOrder(xs: seq<Category>, ys: seq<Category>, existing: seq<Id>)
    ensures Available(xs + ys, existing) == Available(xs, existing) + Available(ys, existing)
  {
    FilterAppend(xs, ys, (c: Category) => c.id !in existing);
  }

  /** `budgets.map((b) => b.category_id)`: the ids the pages pass as already budgeted. */
  function BudgetCategoryIds(bs: seq<Budget>): (r: seq<Id>)
    ensures |r| == |bs| && forall i :: 0 <= i < |bs| ==> r[i] == bs[i].categoryId
  {
    seq(|bs|, i requires 0 <= i < |bs| => bs[i].categoryId)
  }

  /** `prev.filter((x) => x !== id)`. */
  function Removed(s: seq<Id>, id: Id): (r: seq<Id>)
    ensures forall x :: x in r <==> x in s && x != id
  {
    if s == [] then []
    else
      var last := s[|s| - 1];
      assert forall x :: x in s <==> x in s[..|s| - 1] || x == last by {
        assert s == s[..|s| - 1] + [last];
      }
      Removed(s[..|s| - 1], id) + (if last != id then [last] else [])
  }

  /** `prev.includes(id) ? prev.filter((x) => x !== id) : [...prev, id]`. */
  function Toggled(s: seq<Id>, id: Id): (r: seq<Id>)
    ensures forall x :: x in r <==> (if x == id then id !in s else x in s)
  {
    if id in s then Removed(s, id) else s + [id]
  }

  predicate NoDuplicates(s: seq<Id>)
  {
    forall i, j :: 0 <= i < j < |s| ==> s[i] != s[j]
  }

  /** Removing an id that is not there returns the sequence itself. */
  lemma {:induction false} RemoveAbsentKeepsAll(s: seq<Id>, id: Id)
    requires id !in s
    ensures Removed(s, id) == s
  {
    if s != [] {
      var init := s[..|s| - 1];
      assert s == init + [s[|s| - 1]];
      RemoveAbsentKeepsAll(init, id);
    }
  }

  /** Toggling an unselected id twice restores the selection exactly. */
  lemma ToggleTwiceRestores(s: seq<Id>, id: Id)
    requires id !in s
    ensures Toggled(Toggled(s, id), id) == s
  {
    assert id in s + [id];
    assert (s + [id])[..|s|] == s;
    RemoveAbsentKeepsAll(s, id);
  }

  /** Toggling a selected id twice moves it to the end: the same set of ids. */
  lemma ToggleTwiceSameSet(s: seq<Id>, id: Id)
    requires id in s
    ensures forall x :: x in Toggled(Toggled(s, id), id) <==> x in s
  {
  }

  /** Toggling keeps the selection free of duplicates. */
  lemma {:induction false} ToggleKeepsNoDuplicates(s: seq<Id>, id: Id)
    requires NoDuplicates(s)
    ensures NoDuplicates(Toggled(s, id))
  {
    if id in s {
      RemovedNoDuplicates(s, id);
    }
  }

  lemma {:induction false} RemovedNoDuplicates(s: seq<Id>, id: Id)
    requires NoDuplicates(s)
    ensures NoDuplicates(Removed(s, id))
  {
    if s != [] {
      var init := s[..|s| - 1];
      var last := s[|s| - 1];
      var r0 := Removed(init, id);
      assert NoDuplicates(init) by {
        forall i, j | 0 <= i < j < |init| ensures init[i] != init[j] {
          assert init[i] == s[i] && init[j] == s[j];
        }
      }
      RemovedNoDuplicates(init, id);
      if last != id {
        var r := r0 + [last];
        assert last !in init;
        forall i, j | 0 <= i < j < |r|
          ensures r[i] != r[j]
        {
          if j == |r0| {
            assert r[i] == r0[i] && r0[i] in r0;
          } else {
            assert r[i] == r0[i] && r[j] == r0[j];
          }
        }
      }
    }
  }

  /** The zero row inserted for a selected category. */
  function Entry(id: Id, categoryId: Id, selectedMonth: string, projectId: Option<Id>): (b: Budget)
    ensures b.categoryId == categoryId && b.month == MonthColumn(selectedMonth) && b.projectId == projectId
    ensures BudgetTable.Contribution(b) == Zero
  {
    Budget(id, categoryId, projectId, MonthColumn(selectedMonth), Some(0.0), Some(0.0), Some(0.0), Some(0.0), Some(0.0), Some(0.0))
  }

  /** `selectedCategoryIds.map(...)`: one entry per selected id, the i-th insert getting the i-th fresh id. */
  function Entries(ids: seq<Id>, selectedMonth: string, projectId: Option<Id>, firstId: nat): (r: seq<Budget>)
    ensures |r| == |ids|
    ensures forall i :: 0 <= i < |ids| ==> r[i] == Entry(GeneratedId(firstId + i), ids[i], selectedMonth, projectId)
  {
    seq(|ids|, i requires 0 <= i < |ids| => Entry(GeneratedId(firstId + i), ids[i], selectedMonth, projectId))
  }

  /** The zero rows leave every category's row of the budget table as it was. */
  lemma {:induction false} ZeroRowsKeepFigures(bs: seq<Budget>, entries: seq<Budget>, txs: seq<Transaction>, categoryId: Id)
    requires forall i :: 0 <= i < |entries| ==> BudgetTable.Contribution(entries[i]) == Zero
    ensures BudgetTable.RowFor(bs + entries, txs, categoryId) == BudgetTable.RowFor(bs, txs, categoryId)
  {
    if entries != [] {
      var init := entries[..|entries| - 1];
      var last := entries[|entries| - 1];
      ZeroRowsKeepFigures(bs, init, txs, categoryId);
      assert bs + entries == (bs + init) + [last];
      BudgetTable.RowForAddBudget(bs + init, last, txs, categoryId);
    } else {
      assert bs + entries == bs;
    }
  }

  /** An insert of several rows fails whole when one of them conflicts with a stored key. */
  predicate Conflicts(bs: seq<Budget>, entries: seq<Budget>)
  {
    exists i :: 0 <= i < |entries| && HasKey(bs, entries[i].categoryId, entries[i].month, entries[i].projectId)
  }

  datatype Outcome = NothingSelected | InsertFailed | Added

  /** The dialog's selection. */
  class Picker {
    var selected: seq<Id>

    /** A category is selected at most once. */
    ghost predicate Valid()
      reads this
    {
      NoDuplicates(selected)
    }

    constructor ()
      ensures Valid() && selected == []
    {
      selected := [];
    }

    /** `handleToggleCategory`. */
    method Toggle(id: Id)
      requires Valid()
      modifies this
      ensures Valid() && selected == Toggled(old(selected), id)
    {
      ToggleKeepsNoDuplicates(selected, id);
      selected := Toggled(selected, id);
    }

    /**
     * `handleAddCategories`: an empty selection inserts nothing; otherwise
     * all entries go in one insert, which either stores every row or, on
     * an error or a key conflict, none; a success clears the selection.
     */
    method AddCategories(db: Store, selectedMonth: string, projectId: Option<Id>, fails: bool) returns (outcome: Outcome)
      requires Valid()
      modifies this, db`budgets, db`nextId
      ensures Valid()
      ensures old(selected) == [] ==> (outcome == NothingSelected &&
        db.budgets == old(db.budgets) && db.nextId == old(db.nextId) && selected == old(selected))
      ensures old(selected) != [] && (fails || Conflicts(old(db.budgets), Entries(old(selected), selectedMonth, projectId, old(db.nextId)))) ==>
        (outcome == InsertFailed && db.budgets == old(db.budgets) && db.nextId == old(db.nextId) && selected == old(selected))
      ensures old(selected) != [] && !fails && !Conflicts(old(db.budgets), Entries(old(selected), selectedMonth, projectId, old(db.nextId))) ==>
        (outcome == Added && selected == [] &&
         db.budgets == old(db.budgets) + Entries(old(selected), selectedMonth, projectId, old(db.nextId)) &&
         db.nextId == old(db.nextId) + |old(selected)|)
    {
      if selected == [] {
        return NothingSelected;
      }
      var entries := Entries(selected, selectedMonth, projectId, db.nextId);
      if fails || Conflicts(db.budgets, entries) {
        return InsertFailed;
      }
      db.budgets := db.budgets + entries;
      db.nextId := db.nextId + |selected|;
      selected := [];
      outcome := Added;
    }
  }

  /**
   * After a successful add every selected category has a budget row and
   * is no longer offered, while the budget figures of every category stay
   * as they were.
   */
  lemma AddedCategoriesLeaveOffer(cs: seq<Category>, bs: seq<Budget>, txs: seq<Transaction>, ids: seq<Id>,
                                  selectedMonth: string, projectId: Option<Id>, firstId: nat, c: Category)
    requires c.id in ids
    ensures var after := bs + Entries(ids, selectedMonth, projectId, firstId);
      c !in Available(cs, BudgetCategoryIds(after)) &&
      forall k :: BudgetTable.RowFor(after, txs, k) == BudgetTable.RowFor(bs, txs, k)
  {
    var es := Entries(ids, selectedMonth, projectId, firstId);
    var after := bs + es;
    var i :| 0 <= i < |ids| && ids[i] == c.id;
    assert after[|bs| + i] == es[i];
    assert BudgetCategoryIds(after)[|bs| + i] == c.id;
    forall k
      ensures BudgetTable.RowFor(after, txs, k) == BudgetTable.RowFor(bs, txs, k)
    {
      ZeroRowsKeepFigures(bs, es, txs, k);
    }
  }
}
