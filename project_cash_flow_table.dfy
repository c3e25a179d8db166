/**
 * A project's payment plan: per category the budgeted, actual and
 * remaining amounts and its schedules, the categories with something
 * left grouped under their parents, and the local schedule list kept in
 * step with the schedule endpoint.
 */
module ProjectCashFlowTable {
  import opened Common
  import opened Calendar
  import opened Rows
  import ScheduleApi

  // ---------------------------------------------------------------------
  // Budgeted amounts

  /**
   * The two columns the table reads from a budget row,
   * `amount_with_vat` and `amount_without_vat`: budget rows have no such
   * columns, so both read as undefined.
   */
  function BudgetAmountColumns(b: Budget): (Option<real>, Option<real>)
  {
    (None, None)
  }

  /** The budgeted amount as written: `b.amount_with_vat || b.amount_without_vat || 0` over the category's rows. */
  function BudgetedAsWritten(bs: seq<Budget>, categoryId: Id): real
  {
    if bs == [] then 0.0
    else
      var b := bs[|bs| - 1];
      var cols := BudgetAmountColumns(b);
      BudgetedAsWritten(bs[..|bs| - 1], categoryId) + (if b.categoryId == categoryId then OrZero(Or(cols.0, cols.1)) else 0.0)
  }

  /** As written the budgeted amount is 0 whatever the budgets hold. */
  lemma {:induction false} BudgetedAsWrittenIsZero(bs: seq<Budget>, categoryId: Id)
    ensures BudgetedAsWritten(bs, categoryId) == 0.0
  {
    if bs != [] {
      BudgetedAsWrittenIsZero(bs[..|bs| - 1], categoryId);
    }
  }

  /** The budgeted amount read from the K1 columns, as the schedule endpoint reads it. */
  function Budgeted(bs: seq<Budget>, categoryId: Id): real
  {
    if bs == [] then 0.0
    else
      var b := bs[|bs| - 1];
      Budgeted(bs[..|bs| - 1], categoryId) + (if b.categoryId == categoryId then ScheduleApi.BudgetedPart(b) else 0.0)
  }

  /** On the project's own budget rows this agrees with the endpoint's snapshot. */
  lemma {:induction false} BudgetedIsSnapshot(bs: seq<Budget>, projectId: Id, categoryId: Id)
    requires forall i :: 0 <= i < |bs| ==> bs[i].projectId == Some(projectId)
    ensures Budgeted(bs, categoryId) == ScheduleApi.Budgeted(bs, projectId, categoryId)
  {
    if bs != [] {
      BudgetedIsSnapshot(bs[..|bs| - 1], projectId, categoryId);
    }
  }

  /** A single budget row of 100 shows a budget of 0 as written and of 100 when read from K1. */
  lemma BudgetIgnoredAsWritten(c: Id)
    ensures var b := Budget("b", c, None, "2024-01-01", Some(100.0), None, None, None, None, None);
      BudgetedAsWritten([b], c) == 0.0 && Budgeted([b], c) == 100.0
  {
    var b := Budget("b", c, None, "2024-01-01", Some(100.0), None, None, None, None, None);
    assert [b][..0] == [];
  }

  /** `Σ |amount_with_vat || amount_without_vat || 0|` over the category's transactions; K2 is never read. */
  function Actual(txs: seq<Transaction>, categoryId: Id): (r: real)
    ensures r >= 0.0
  {
    if txs == [] then 0.0
    else
      var t := txs[|txs| - 1];
      Actual(txs[..|txs| - 1], categoryId) + (if t.categoryId == Some(categoryId) then ScheduleApi.ActualPart(t) else 0.0)
  }

  // ---------------------------------------------------------------------
  // Rows and groups

  datatype CategoryData = CategoryData(category: Category, budgeted: real, actual: real, remaining: real, schedules: seq<Schedule>)

  /** The schedules of a category, in list order. */
  function SchedulesOf(ss: seq<Schedule>, categoryId: Id): (r: seq<Schedule>)
    ensures forall s :: s in r <==> s in ss && s.categoryId == categoryId
  {
    Filter(ss, (s: Schedule) => s.categoryId == categoryId)
  }

  function DataOf(c: Category, bs: seq<Budget>, txs: seq<Transaction>, ss: seq<Schedule>): (d: CategoryData)
    ensures d.category == c && d.remaining == d.budgeted - d.actual && d.actual >= 0.0
    ensures d.budgeted == Budgeted(bs, c.id) && d.actual == Actual(txs, c.id) && d.schedules == SchedulesOf(ss, c.id)
  {
    var budgeted := Budgeted(bs, c.id);
    var actual := Actual(txs, c.id);
    CategoryData(c, budgeted, actual, budgeted - actual, SchedulesOf(ss, c.id))
  }

  /** An entry as written: the budget is read through `BudgetedAsWritten`, so it is always 0. */
  function DataOfAsWritten(c: Category, bs: seq<Budget>, txs: seq<Transaction>, ss: seq<Schedule>): (d: CategoryData)
    ensures d.budgeted == 0.0 && d.remaining == -d.actual
    ensures d == DataOf(c, bs, txs, ss).(budgeted := 0.0, remaining := -Actual(txs, c.id))
  {
    var budgeted := BudgetedAsWritten(bs, c.id);
    var actual := Actual(txs, c.id);
    BudgetedAsWrittenIsZero(bs, c.id);
    CategoryData(c, budgeted, actual, budgeted - actual, SchedulesOf(ss, c.id))
  }

  /** As written a category's row is shown exactly when it has spending, whatever its budget. */
  lemma KeptAsWrittenIffSpent(c: Category, bs: seq<Budget>, txs: seq<Transaction>, ss: seq<Schedule>)
    ensures var d := DataOfAsWritten(c, bs, txs, ss);
      d in Kept([d]) <==> Actual(txs, c.id) != 0.0
  {
  }

  /** `categoryData`: one entry per category, in category order. */
  function CategoryDataOf(cs: seq<Category>, bs: seq<Budget>, txs: seq<Transaction>, ss: seq<Schedule>): (r: seq<CategoryData>)
    ensures |r| == |cs| && forall i :: 0 <= i < |cs| ==> r[i] == DataOf(cs[i], bs, txs, ss)
  {
    seq(|cs|, i requires 0 <= i < |cs| => DataOf(cs[i], bs, txs, ss))
  }

  /** `categoriesWithRemaining`: the entries whose remaining is not exactly 0. */
  function Kept(ds: seq<CategoryData>): (r: seq<CategoryData>)
    ensures forall d :: d in r <==> d in ds && d.remaining != 0.0
  {
    if ds == [] then []
    else
      var d := ds[|ds| - 1];
      assert forall x :: x in ds <==> x in ds[..|ds| - 1] || x == d by {
        assert ds == ds[..|ds| - 1] + [d];
      }
      Kept(ds[..|ds| - 1]) + (if d.remaining != 0.0 then [d] else [])
  }

  function Parents(ds: seq<CategoryData>): (r: seq<CategoryData>)
    ensures forall d :: d in r <==> d in ds && d.category.parentId.None?
  {
    if ds == [] then []
    else
      var d := ds[|ds| - 1];
      assert forall x :: x in ds <==> x in ds[..|ds| - 1] || x == d by {
        assert ds == ds[..|ds| - 1] + [d];
      }
      Parents(ds[..|ds| - 1]) + (if d.category.parentId.None? then [d] else [])
  }

  /** The kept children of a parent id, in list order. */
  function ChildrenOf(ds: seq<CategoryData>, parentId: Id): (r: seq<CategoryData>)
    ensures forall d :: d in r <==> d in ds && d.category.parentId == Some(parentId)
  {
    if ds == [] then []
    else
      var d := ds[|ds| - 1];
      assert forall x :: x in ds <==> x in ds[..|ds| - 1] || x == d by {
        assert ds == ds[..|ds| - 1] + [d];
      }
      ChildrenOf(ds[..|ds| - 1], parentId) + (if d.category.parentId == Some(parentId) then [d] else [])
  }

  /** Filing one more entry extends exactly the list of its parent. */
  lemma ChildrenOfSnoc(ds: seq<CategoryData>, d: CategoryData, k: Id)
    ensures ChildrenOf(ds + [d], k) == ChildrenOf(ds, k) + (if d.category.parentId == Some(k) then [d] else [])
  {
    assert (ds + [d])[..|ds|] == ds;
  }

  /** The dictionary files each kept child under its parent id, with a key for exactly the parents that have children. */
  ghost predicate Filed(m: map<Id, seq<CategoryData>>, ds: seq<CategoryData>)
  {
    (forall k :: k in m <==> ChildrenOf(ds, k) != []) &&
    (forall k :: k in m ==> m[k] == ChildrenOf(ds, k))
  }

  /** Filing one more entry under its parent, if it has one, keeps the dictionary filed. */
  lemma FileStep(m: map<Id, seq<CategoryData>>, ds: seq<CategoryData>, d: CategoryData)
    requires Filed(m, ds)
    ensures var p := d.category.parentId;
      Filed(if p.Some? then m[p.value := (if p.value in m then m[p.value] else []) + [d]] else m, ds + [d])
  {
    forall k {
      ChildrenOfSnoc(ds, d, k);
    }
  }

  /** Looking a parent id up in a filed dictionary, with `|| []` for an absent key, gives its children. */
  lemma FiledLookup(m: map<Id, seq<CategoryData>>, ds: seq<CategoryData>, k: Id)
    requires Filed(m, ds)
    ensures (if k in m then m[k] else []) == ChildrenOf(ds, k)
  {
  }

  /** The `forEach` that files each child under its parent id. */
  method GroupChildren(ds: seq<CategoryData>) returns (m: map<Id, seq<CategoryData>>)
    ensures Filed(m, ds)
  {
    m := map[];
    for i := 0 to |ds|
      invariant Filed(m, ds[..i])
    {
      var d := ds[i];
      assert ds[..i + 1] == ds[..i] + [d];
      FileStep(m, ds[..i], d);
      if d.category.parentId.Some? {
        var p := d.category.parentId.value;
        var existing := if p in m then m[p] else [];
        m := m[p := existing + [d]];
      }
    }
    assert ds[..|ds|] == ds;
  }

  /** A rendered parent and the children filed under its id. */
  datatype Group = Group(parent: CategoryData, children: seq<CategoryData>)

  /** What the table renders: each kept parent with its kept children. */
  function GroupsOf(kept: seq<CategoryData>): (gs: seq<Group>)
    ensures |gs| == |Parents(kept)|
    ensures forall i :: 0 <= i < |gs| ==>
      gs[i].parent == Parents(kept)[i] && gs[i].children == ChildrenOf(kept, Parents(kept)[i].category.id)
  {
    var ps := Parents(kept);
    seq(|ps|, i requires 0 <= i < |ps| => Group(ps[i], ChildrenOf(kept, ps[i].category.id)))
  }

  /** `parentCategories.map(...)` with `childCategoriesByParent.get(id) || []` for each parent's children. */
  function Rendered(kept: seq<CategoryData>, byParent: map<Id, seq<CategoryData>>): (gs: seq<Group>)
    ensures |gs| == |Parents(kept)|
  {
    var ps := Parents(kept);
    seq(|ps|, i requires 0 <= i < |ps| =>
      Group(ps[i], if ps[i].category.id in byParent then byParent[ps[i].category.id] else []))
  }

  /** Rendering from the filed dictionary gives each kept parent with exactly its kept children. */
  lemma RenderedIsGroups(kept: seq<CategoryData>, byParent: map<Id, seq<CategoryData>>)
    requires Filed(byParent, kept)
    ensures Rendered(kept, byParent) == GroupsOf(kept)
  {
    var ps := Parents(kept);
    forall i | 0 <= i < |ps|
      ensures Rendered(kept, byParent)[i] == GroupsOf(kept)[i]
    {
      FiledLookup(byParent, kept, ps[i].category.id);
    }
  }

  /** The table: data, the remaining filter, the dictionary of children, then the parents' rows. */
  method Table(cs: seq<Category>, bs: seq<Budget>, txs: seq<Transaction>, ss: seq<Schedule>) returns (gs: seq<Group>)
    ensures gs == GroupsOf(Kept(CategoryDataOf(cs, bs, txs, ss)))
  {
    var kept := Kept(CategoryDataOf(cs, bs, txs, ss));
    var byParent := GroupChildren(kept);
    gs := Rendered(kept, byParent);
    RenderedIsGroups(kept, byParent);
  }

  /**
   * A kept child whose parent is not itself rendered as a parent (filtered
   * out, or a child itself) appears in no group.
   */
  lemma OrphanNotRendered(kept: seq<CategoryData>, d: CategoryData)
    requires d in kept && d.category.parentId.Some?
    requires forall p :: p in Parents(kept) ==> p.category.id != d.category.parentId.value
    ensures forall g :: g in GroupsOf(kept) ==> d != g.parent && d !in g.children
  {
    forall g | g in GroupsOf(kept)
      ensures d != g.parent && d !in g.children
    {
      var i :| 0 <= i < |GroupsOf(kept)| && GroupsOf(kept)[i] == g;
      assert g.parent in Parents(kept);
    }
  }

  /** Every rendered row has something left, and a kept child of a rendered parent is shown under it. */
  lemma RenderedRowsHaveRemaining(kept: seq<CategoryData>, ds: seq<CategoryData>)
    requires kept == Kept(ds)
    ensures forall g :: g in GroupsOf(kept) ==> g.parent.remaining != 0.0 && forall c :: c in g.children ==> c.remaining != 0.0
    ensures forall g, c :: g in GroupsOf(kept) && c in kept && c.category.parentId == Some(g.parent.category.id) ==> c in g.children
  {
    forall g | g in GroupsOf(kept)
      ensures g.parent in kept && g.children == ChildrenOf(kept, g.parent.category.id)
    {
      var i :| 0 <= i < |GroupsOf(kept)| && GroupsOf(kept)[i] == g;
    }
  }

  // ---------------------------------------------------------------------
  // The schedule list

  /** `schedules.map((s) => (s.id === id ? updated : s))`. */
  function Replaced(ss: seq<Schedule>, id: Id, updated: Schedule): (r: seq<Schedule>)
    ensures |r| == |ss|
    ensures forall i :: 0 <= i < |ss| ==> r[i] == (if ss[i].id == id then updated else ss[i])
  {
    seq(|ss|, i requires 0 <= i < |ss| => if ss[i].id == id then updated else ss[i])
  }

  /** Where the list holds the one stored row with the id, replacing it by the updated row keeps the list in step. */
  lemma ReplacedMirrorsPatch(ss: seq<Schedule>, id: Id, p: ScheduleApi.Patch, now: string)
    ensures forall updated :: (forall s :: s in ss && s.id == id ==> updated == ScheduleApi.Applied(s, p, now)) ==>
      Replaced(ss, id, updated) == ScheduleApi.Patched(ss, id, p, now)
  {
  }

  class ScheduleList {
    var schedules: seq<Schedule>

    constructor (initial: seq<Schedule>)
      ensures schedules == initial
    {
      schedules := initial;
    }

    /**
     * `addSchedule` as written: the body carries the fields of one
     * schedule but no `schedules` array, so the endpoint answers 400 and
     * neither the table nor the list changes.
     */
    method AddScheduleAsWritten(db: Store, insertFails: bool) returns (status: ScheduleApi.Status)
      modifies db`schedules, db`nextId
      ensures status == ScheduleApi.BadRequest
      ensures db.schedules == old(db.schedules) && db.nextId == old(db.nextId) && schedules == old(schedules)
    {
      var rows;
      // the `res.ok` branch that would append `rows` is never taken
      status, rows := ScheduleApi.Post(db, ScheduleApi.Missing, insertFails);
    }

    /**
     * `addSchedule` with the item wrapped in a `schedules` array: the full
     * remaining amount for the current month; on success the stored rows
     * are appended to the list.
     */
    method AddSchedule(db: Store, projectId: Id, categoryId: Id, remaining: real, today: Date, insertFails: bool)
      returns (status: ScheduleApi.Status)
      requires ValidDate(today)
      modifies this`schedules, db`schedules, db`nextId
      ensures var item := ScheduleApi.Request(projectId, categoryId, remaining, FirstOf(MonthOf(today)));
        var added := ScheduleApi.Snapshots([item], old(db.budgets), old(db.transactions), old(db.nextId));
        (insertFails ==> status == ScheduleApi.ServerError && schedules == old(schedules) && db.schedules == old(db.schedules)) &&
        (!insertFails ==> status == ScheduleApi.Ok && schedules == old(schedules) + added && db.schedules == old(db.schedules) + added)
    {
      var item := ScheduleApi.Request(projectId, categoryId, remaining, FirstOf(MonthOf(today)));
      var rows;
      status, rows := ScheduleApi.Post(db, ScheduleApi.Items([item]), insertFails);
      if status == ScheduleApi.Ok {
        schedules := schedules + rows;
      }
    }

    /** `updateSchedule`: on success the row with the id is replaced by the returned row, in place. */
    method UpdateSchedule(db: Store, id: Id, p: ScheduleApi.Patch, now: string, fails: bool) returns (status: ScheduleApi.Status)
      modifies this`schedules, db`schedules
      ensures status == ScheduleApi.Ok <==> !fails && ScheduleApi.CountId(old(db.schedules), id) == 1
      ensures status != ScheduleApi.Ok ==> status == ScheduleApi.ServerError
      ensures status == ScheduleApi.Ok ==>
        var stored := ScheduleApi.RowWithId(old(db.schedules), id);
        stored.Some? && ScheduleApi.Applied(stored.value, p, now) in db.schedules &&
        schedules == Replaced(old(schedules), id, ScheduleApi.Applied(stored.value, p, now))
      ensures status != ScheduleApi.Ok ==> schedules == old(schedules)
      ensures !fails ==> db.schedules == ScheduleApi.Patched(old(db.schedules), id, p, now)
      ensures fails ==> db.schedules == old(db.schedules)
    {
      var row;
      status, row := ScheduleApi.PatchRow(db, id, p, now, fails);
      if status == ScheduleApi.Ok {
        schedules := Replaced(schedules, id, row.value);
      }
    }

    /** `deleteSchedule`: on success the rows with the id leave the list; other rows keep their order. */
    method DeleteSchedule(db: Store, id: Id, fails: bool) returns (status: ScheduleApi.Status)
      modifies this`schedules, db`schedules
      ensures !fails ==> (status == ScheduleApi.Ok && schedules == ScheduleApi.Deleted(old(schedules), id) &&
        db.schedules == ScheduleApi.Deleted(old(db.schedules), id))
      ensures fails ==> status == ScheduleApi.ServerError && schedules == old(schedules) && db.schedules == old(db.schedules)
    {
      status := ScheduleApi.DeleteRow(db, id, fails);
      if status == ScheduleApi.Ok {
        schedules := Filter(schedules, (s: Schedule) => s.id != id);
      }
    }
  }
}
