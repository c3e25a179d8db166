/**
 * The cash-flow schedule endpoint: POST validates the `schedules` array,
 * snapshots each item's budgeted, actual and remaining amounts and
 * inserts all rows in one statement; PATCH updates the given fields of
 * one row and stamps it; DELETE removes the rows with an id.
 */
module ScheduleApi {
  import opened Common
  import opened Calendar
  import opened Rows

  /** One item of a POST body's `schedules` array. */
  datatype Request = Request(projectId: Id, categoryId: Id, scheduledAmount: real, scheduledMonth: Date)

  /** The `schedules` member of a POST body: absent (or falsy), some other value, or an array. */
  datatype SchedulesField = Missing | NotAnArray | Items(items: seq<Request>)

  /** 200, 400 and 500. */
  datatype Status = Ok | BadRequest | ServerError

  /** The 400 guard: nothing, a non-array or an empty array. */
  predicate Rejected(f: SchedulesField)
  {
    f.Missing? || f.NotAnArray? || (f.Items? && f.items == [])
  }

  predicate OfPair(b: Budget, projectId: Id, categoryId: Id)
  {
    b.projectId == Some(projectId) && b.categoryId == categoryId
  }

  predicate TxOfPair(t: Transaction, projectId: Id, categoryId: Id)
  {
    t.projectId == Some(projectId) && t.categoryId == Some(categoryId)
  }

  /** A budget row's part of the snapshot: `k1_with_vat || k1_without_vat || 0`; K2 is never read. */
  function BudgetedPart(b: Budget): real
  {
    OrZero(Or(b.k1WithVat, b.k1WithoutVat))
  }

  /** A transaction's part: `|amount_with_vat || amount_without_vat || 0|`, whatever its type; K2 is never read. */
  function ActualPart(t: Transaction): (r: real)
    ensures r >= 0.0
  {
    Abs(OrZero(Or(t.amountWithVat, t.amountWithoutVat)))
  }

  /** `budgeted_amount` of the pair. */
  function Budgeted(bs: seq<Budget>, projectId: Id, categoryId: Id): real
  {
    if bs == [] then 0.0
    else
      var b := bs[|bs| - 1];
      Budgeted(bs[..|bs| - 1], projectId, categoryId) + (if OfPair(b, projectId, categoryId) then BudgetedPart(b) else 0.0)
  }

  /** `actual_amount` of the pair. */
  function Actual(txs: seq<Transaction>, projectId: Id, categoryId: Id): (r: real)
    ensures r >= 0.0
  {
    if txs == [] then 0.0
    else
      var t := txs[|txs| - 1];
      Actual(txs[..|txs| - 1], projectId, categoryId) + (if TxOfPair(t, projectId, categoryId) then ActualPart(t) else 0.0)
  }

  /** A stored budget row counts towards the pair by its K1 amount only, and rows of other pairs not at all. */
  lemma BudgetedAppend(bs: seq<Budget>, b: Budget, projectId: Id, categoryId: Id)
    ensures Budgeted(bs + [b], projectId, categoryId) ==
      Budgeted(bs, projectId, categoryId) + (if OfPair(b, projectId, categoryId) then BudgetedPart(b) else 0.0)
  {
    assert (bs + [b])[..|bs|] == bs;
  }

  /** Changing K2 on budget rows never moves the snapshot's budgeted amount. */
  lemma {:induction false} BudgetedIgnoresK2(bs: seq<Budget>, cs: seq<Budget>, projectId: Id, categoryId: Id)
    requires |bs| == |cs| && forall i :: 0 <= i < |bs| ==> cs[i] == bs[i].(k2 := cs[i].k2)
    ensures Budgeted(cs, projectId, categoryId) == Budgeted(bs, projectId, categoryId)
  {
    if bs != [] {
      var n := |bs| - 1;
      assert cs[n] == bs[n].(k2 := cs[n].k2);
      BudgetedIgnoresK2(bs[..n], cs[..n], projectId, categoryId);
    }
  }

  /** The row the POST inserts for one item. */
  function Snapshot(r: Request, bs: seq<Budget>, txs: seq<Transaction>, id: Id): (s: Schedule)
    ensures s.userId == DefaultUserId && s.id == id
    ensures s.projectId == r.projectId && s.categoryId == r.categoryId
    ensures s.scheduledMonth == r.scheduledMonth && s.scheduledAmount == r.scheduledAmount
    ensures s.remainingAmount == s.budgetedAmount - s.actualAmount && s.actualAmount >= 0.0
    ensures s.budgetedAmount == Budgeted(bs, r.projectId, r.categoryId) && s.actualAmount == Actual(txs, r.projectId, r.categoryId)
  {
    var budgeted := Budgeted(bs, r.projectId, r.categoryId);
    var actual := Actual(txs, r.projectId, r.categoryId);
    Schedule(id, DefaultUserId, r.projectId, r.categoryId, budgeted, actual, budgeted - actual,
             r.scheduledMonth, r.scheduledAmount, None, None)
  }

  /** One row per item, in item order; the storage numbers them from `firstId`. */
  function Snapshots(items: seq<Request>, bs: seq<Budget>, txs: seq<Transaction>, firstId: nat): (r: seq<Schedule>)
    ensures |r| == |items|
    ensures forall i :: 0 <= i < |items| ==> r[i] == Snapshot(items[i], bs, txs, GeneratedId(firstId + i))
  {
    seq(|items|, i requires 0 <= i < |items| => Snapshot(items[i], bs, txs, GeneratedId(firstId + i)))
  }

  /**
   * `POST`: the guard, the snapshot loop over the items, then one insert
   * that stores every row or, on an error, none.
   */
  method Post(db: Store, f: SchedulesField, insertFails: bool) returns (status: Status, rows: seq<Schedule>)
    modifies db`schedules, db`nextId
    ensures Rejected(f) ==> status == BadRequest && rows == []
    ensures !Rejected(f) && insertFails ==> status == ServerError && rows == []
    ensures !Rejected(f) && !insertFails ==>
      status == Ok && rows == Snapshots(f.items, old(db.budgets), old(db.transactions), old(db.nextId))
    ensures db.schedules == old(db.schedules) + rows && db.nextId == old(db.nextId) + |rows|
  {
    if Rejected(f) {
      return BadRequest, [];
    }
    var toInsert: seq<Schedule> := [];
    for i := 0 to |f.items|
      invariant toInsert == Snapshots(f.items[..i], db.budgets, db.transactions, db.nextId)
    {
      toInsert := toInsert + [Snapshot(f.items[i], db.budgets, db.transactions, GeneratedId(db.nextId + i))];
    }
    assert f.items[..|f.items|] == f.items;
    if insertFails {
      return ServerError, [];
    }
    db.schedules := db.schedules + toInsert;
    db.nextId := db.nextId + |toInsert|;
    status, rows := Ok, toInsert;
  }

  // ---------------------------------------------------------------------
  // PATCH and DELETE

  /** The fields a PATCH body may carry besides the id; an absent one is left as it is. */
  datatype Patch = Patch(scheduledMonth: Option<Date>, scheduledAmount: Option<real>, notes: Option<Option<string>>)

  /** The supplied fields plus `updated_at`. */
  function Applied(s: Schedule, p: Patch, now: string): (t: Schedule)
    ensures t.id == s.id && t.userId == s.userId && t.projectId == s.projectId && t.categoryId == s.categoryId
    ensures t.budgetedAmount == s.budgetedAmount && t.actualAmount == s.actualAmount && t.remainingAmount == s.remainingAmount
    ensures t.scheduledMonth == (if p.scheduledMonth.Some? then p.scheduledMonth.value else s.scheduledMonth)
    ensures t.scheduledAmount == (if p.scheduledAmount.Some? then p.scheduledAmount.value else s.scheduledAmount)
    ensures t.notes == (if p.notes.Some? then p.notes.value else s.notes)
    ensures t.updatedAt == Some(now)
  {
    s.(scheduledMonth := if p.scheduledMonth.Some? then p.scheduledMonth.value else s.scheduledMonth,
       scheduledAmount := if p.scheduledAmount.Some? then p.scheduledAmount.value else s.scheduledAmount,
       notes := if p.notes.Some? then p.notes.value else s.notes,
       updatedAt := Some(now))
  }

  /** `update(...).eq("id", id)`: every row with the id, and no other. */
  function Patched(ss: seq<Schedule>, id: Id, p: Patch, now: string): (r: seq<Schedule>)
    ensures |r| == |ss|
    ensures forall i :: 0 <= i < |ss| ==> r[i] == (if ss[i].id == id then Applied(ss[i], p, now) else ss[i])
  {
    seq(|ss|, i requires 0 <= i < |ss| => if ss[i].id == id then Applied(ss[i], p, now) else ss[i])
  }

  /** Applying the same PATCH again changes nothing more. */
  lemma PatchIdempotent(ss: seq<Schedule>, id: Id, p: Patch, now: string)
    ensures Patched(Patched(ss, id, p, now), id, p, now) == Patched(ss, id, p, now)
  {
    var once := Patched(ss, id, p, now);
    forall i | 0 <= i < |ss|
      ensures Patched(once, id, p, now)[i] == once[i]
    {
      if ss[i].id == id {
        assert Applied(Applied(ss[i], p, now), p, now) == Applied(ss[i], p, now);
      }
    }
  }

  /** The number of rows with the id. */
  function CountId(ss: seq<Schedule>, id: Id): nat
  {
    if ss == [] then 0 else CountId(ss[..|ss| - 1], id) + (if ss[|ss| - 1].id == id then 1 else 0)
  }

  /** The matching row when there is exactly one. */
  function RowWithId(ss: seq<Schedule>, id: Id): (r: Option<Schedule>)
    ensures r.Some? ==> r.value in ss && r.value.id == id
    ensures r.None? ==> forall s :: s in ss ==> s.id != id
  {
    if ss == [] then None
    else if ss[|ss| - 1].id == id then Some(ss[|ss| - 1])
    else RowWithId(ss[..|ss| - 1], id)
  }

  /**
   * `PATCH`: the update runs on every row with the id; `.single()` then
   * answers 500 unless exactly one row was updated.
   */
  method PatchRow(db: Store, id: Id, p: Patch, now: string, fails: bool) returns (status: Status, row: Option<Schedule>)
    modifies db`schedules
    ensures fails ==> status == ServerError && row == None && db.schedules == old(db.schedules)
    ensures !fails ==> db.schedules == Patched(old(db.schedules), id, p, now)
    ensures !fails && CountId(old(db.schedules), id) == 1 ==>
      status == Ok && row.Some? && row.value in db.schedules && row.value.id == id && row.value.updatedAt == Some(now)
    ensures !fails && CountId(old(db.schedules), id) != 1 ==> status == ServerError && row == None
    ensures status == Ok ==>
      RowWithId(old(db.schedules), id).Some? && row == Some(Applied(RowWithId(old(db.schedules), id).value, p, now))
  {
    if fails {
      return ServerError, None;
    }
    var n := CountId(db.schedules, id);
    db.schedules := Patched(db.schedules, id, p, now);
    if n != 1 {
      return ServerError, None;
    }
    var r := RowWithId(db.schedules, id);
    assert exists i :: 0 <= i < |db.schedules| && db.schedules[i].id == id by {
      CountPositive(old(db.schedules), id);
      var k :| 0 <= k < |old(db.schedules)| && old(db.schedules)[k].id == id;
      assert old(db.schedules)[k] in old(db.schedules);
      assert db.schedules[k].id == id;
    }
    RowWithIdPatched(old(db.schedules), id, p, now);
    status, row := Ok, Some(r.value);
    assert row.value.updatedAt == Some(now) by {
      var k :| 0 <= k < |db.schedules| && db.schedules[k] == r.value;
    }
  }

  /** The row a PATCH answers with is the matching stored row with the PATCH applied. */
  lemma {:induction false} RowWithIdPatched(ss: seq<Schedule>, id: Id, p: Patch, now: string)
    ensures RowWithId(Patched(ss, id, p, now), id) ==
      if RowWithId(ss, id).Some? then Some(Applied(RowWithId(ss, id).value, p, now)) else None
  {
    if ss != [] {
      var n := |ss| - 1;
      assert Patched(ss, id, p, now)[..n] == Patched(ss[..n], id, p, now);
      RowWithIdPatched(ss[..n], id, p, now);
    }
  }

  lemma {:induction false} CountPositive(ss: seq<Schedule>, id: Id)
    requires CountId(ss, id) > 0
    ensures exists k :: 0 <= k < |ss| && ss[k].id == id
  {
    if ss[|ss| - 1].id != id {
      CountPositive(ss[..|ss| - 1], id);
      var k :| 0 <= k < |ss| - 1 && ss[..|ss| - 1][k].id == id;
      assert ss[k].id == id;
    }
  }

  /** `delete().eq("id", id)`. */
  function Deleted(ss: seq<Schedule>, id: Id): (r: seq<Schedule>)
    ensures forall s :: s in r <==> s in ss && s.id != id
  {
    Filter(ss, (s: Schedule) => s.id != id)
  }

  /** Deleting twice deletes no more than once. */
  lemma {:induction false} DeleteIdempotent(ss: seq<Schedule>, id: Id)
    ensures Deleted(Deleted(ss, id), id) == Deleted(ss, id)
  {
    if ss != [] {
      var init, last := ss[..|ss| - 1], ss[|ss| - 1];
      assert ss == init + [last];
      DeleteIdempotent(init, id);
      FilterAppend(init, [last], (s: Schedule) => s.id != id);
      assert [last][..0] == [];
      FilterAppend(Deleted(init, id), if last.id != id then [last] else [], (s: Schedule) => s.id != id);
    }
  }

  /** `DELETE`: an error leaves the table; otherwise the rows with the id are gone. */
  method DeleteRow(db: Store, id: Id, fails: bool) returns (status: Status)
    modifies db`schedules
    ensures fails ==> status == ServerError && db.schedules == old(db.schedules)
    ensures !fails ==> status == Ok && db.schedules == Deleted(old(db.schedules), id)
  {
    if fails {
      return ServerError;
    }
    db.schedules := Deleted(db.schedules, id);
    status := Ok;
  }
}
