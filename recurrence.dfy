/**
 * The recurring-transaction generator: for every template a cursor starts
 * at the template's date and is advanced by its frequency and interval;
 * each advanced date not after today (and not after the template's end
 * date) is inserted as a child transaction unless exactly one child with
 * that date already exists.
 */
module Recurrence {
  import opened Common
  import opened Calendar
  import opened Rows

  /** The query's filter: recurring, and not itself generated. */
  predicate IsTemplate(t: Transaction)
  {
    t.isRecurring && t.parentTransactionId.None?
  }

  function Templates(txs: seq<Transaction>): (r: seq<Transaction>)
    ensures forall t :: t in r <==> t in txs && IsTemplate(t)
  {
    Filter(txs, IsTemplate)
  }

  /** `template.recurrence_interval || 1`: a missing or zero interval is 1. */
  function IntervalOf(t: Transaction): (k: int)
    ensures k != 0
    ensures t.interval.None? || t.interval == Some(0) ==> k == 1
    ensures t.interval.Some? && t.interval.value != 0 ==> k == t.interval.value
  {
    if t.interval.None? || t.interval.value == 0 then 1 else t.interval.value
  }

  /** Whether each step moves the cursor forward: a known frequency and a positive interval. */
  predicate Advances(t: Transaction)
  {
    t.frequency.Some? && t.frequency.value != OtherFrequency && IntervalOf(t) >= 1
  }

  /** One step of the cursor: 7·interval days, interval months or interval years. */
  function Advance(t: Transaction, d: Date): (r: Date)
    requires Advances(t) && ValidDate(d)
    ensures ValidDate(r) && Ord(d) < Ord(r)
  {
    var k := IntervalOf(t);
    match t.frequency.value
    case Weekly => AddDays(d, 7 * k)
    case Monthly => AddMonthsLater(d, k); AddMonths(d, k)
    case Yearly => AddYearsLater(d, k); AddYears(d, k)
  }

  /**
   * The template's loop never ends: the cursor starts at or before today
   * and no step moves it past today.
   */
  predicate Hangs(t: Transaction, today: Date)
  {
    Ord(t.transactionDate) <= Ord(today) && !Advances(t)
  }

  /** `!endDate || nextDate <= endDate`. */
  predicate WithinEnd(t: Transaction, d: Date)
  {
    t.recurrenceEnd.None? || Ord(d) <= Ord(t.recurrenceEnd.value)
  }

  /** The rows the existence query matches: the template's children on that date. */
  function Children(txs: seq<Transaction>, parentId: Id, d: Date): nat
  {
    if txs == [] then 0
    else
      var x := txs[|txs| - 1];
      Children(txs[..|txs| - 1], parentId, d) + (if x.parentTransactionId == Some(parentId) && x.transactionDate == d then 1 else 0)
  }

  /** `.single()` returns the row only when exactly one matches. */
  predicate Exists(txs: seq<Transaction>, parentId: Id, d: Date)
  {
    Children(txs, parentId, d) == 1
  }

  /** The generated row: the template's accounts, category, project and amounts on the cursor's date. */
  function Occurrence(t: Transaction, d: Date, id: Id): (x: Transaction)
    ensures x.transactionDate == d && x.plDate == d && x.parentTransactionId == Some(t.id) && !x.isRecurring
    ensures !IsTemplate(x)
  {
    Transaction(id, d, d, t.accountId, t.txType, t.categoryId, t.debtId, t.projectId, t.toAccountId,
                t.amountWithVat, t.amountWithoutVat, t.vatAmount, t.k2Amount,
                Some(if Filled(t.notes) then t.notes.value + " (Auto-generated)" else "Auto-generated recurring transaction"),
                false, None, None, None, Some(t.id))
  }

  /** The generator's state: the table, the next row id, the insert attempts so far and the count. */
  datatype Run = Run(txs: seq<Transaction>, nextId: nat, attempts: nat, generated: nat)

  /** Whether the check at an advanced cursor tries an insert. */
  predicate Due(st: Run, t: Transaction, d: Date, today: Date)
  {
    Ord(d) <= Ord(today) && WithinEnd(t, d) && !Exists(st.txs, t.id, d)
  }

  /** The check and the insert at an advanced cursor; an insert that fails is counted as an attempt only. */
  function Step(st: Run, t: Transaction, d: Date, today: Date, fails: nat -> bool): (r: Run)
    ensures r.generated == st.generated + (if Due(st, t, d, today) && !fails(st.attempts) then 1 else 0)
  {
    if !Due(st, t, d, today) then st
    else if fails(st.attempts) then st.(attempts := st.attempts + 1)
    else Run(st.txs + [Occurrence(t, d, GeneratedId(st.nextId))], st.nextId + 1, st.attempts + 1, st.generated + 1)
  }

  function Measure(cursor: Date, today: Date): nat
  {
    if Ord(cursor) <= Ord(today) then Ord(today) - Ord(cursor) + 1 else 0
  }

  /** The inner `while (nextDate <= today)` loop from the cursor on. */
  function RunFrom(st: Run, t: Transaction, cursor: Date, today: Date, fails: nat -> bool): Run
    requires ValidDate(cursor) && (Ord(cursor) <= Ord(today) ==> Advances(t))
    decreases Measure(cursor, today)
  {
    if Ord(cursor) > Ord(today) then st
    else
      var n := Advance(t, cursor);
      RunFrom(Step(st, t, n, today, fails), t, n, today, fails)
  }

  predicate Runnable(t: Transaction, today: Date)
  {
    ValidDate(t.transactionDate) && !Hangs(t, today)
  }

  /** The outer `for` loop over the templates. */
  function RunAll(st: Run, ts: seq<Transaction>, today: Date, fails: nat -> bool): Run
    requires forall i :: 0 <= i < |ts| ==> Runnable(ts[i], today)
  {
    if ts == [] then st
    else
      var t := ts[|ts| - 1];
      assert Runnable(t, today);
      RunFrom(RunAll(st, ts[..|ts| - 1], today, fails), t, t.transactionDate, today, fails)
  }

  datatype Response = FetchFailed | NoneFound | Generated(count: nat) | NoResponse

  /**
   * `POST`: read the templates, then run each template's cursor loop. A
   * template whose loop never ends leaves the request without a response.
   */
  method Generate(db: Store, today: Date, fetchFails: bool, fails: nat -> bool) returns (response: Response)
    requires forall t :: t in db.transactions ==> ValidDate(t.transactionDate)
    modifies db`transactions, db`nextId
    ensures fetchFails || Templates(old(db.transactions)) == [] ==>
      (response == (if fetchFails then FetchFailed else NoneFound) &&
       db.transactions == old(db.transactions) && db.nextId == old(db.nextId))
    ensures !fetchFails && (exists t :: t in old(db.transactions) && IsTemplate(t) && Hangs(t, today)) ==> response == NoResponse
    ensures (!fetchFails && Templates(old(db.transactions)) != [] &&
             forall t :: t in old(db.transactions) && IsTemplate(t) ==> !Hangs(t, today)) ==>
      (var r := RunAll(Run(old(db.transactions), old(db.nextId), 0, 0), Templates(old(db.transactions)), today, fails);
       response == Generated(r.generated) && db.transactions == r.txs && db.nextId == r.nextId)
  {
    if fetchFails {
      return FetchFailed;
    }
    var templates := Templates(db.transactions);
    if templates == [] {
      return NoneFound;
    }
    ghost var st0 := Run(db.transactions, db.nextId, 0, 0);
    var attempts: nat := 0;
    var generated: nat := 0;
    for i := 0 to |templates|
      invariant forall j :: 0 <= j < i ==> Runnable(templates[j], today)
      invariant Run(db.transactions, db.nextId, attempts, generated) == RunAll(st0, templates[..i], today, fails)
    {
      var t := templates[i];
      assert t in old(db.transactions) && IsTemplate(t);
      if Hangs(t, today) {
        return NoResponse;
      }
      RunAllStep(st0, templates, i, today, fails);
      attempts, generated := RunTemplate(db, t, today, fails, attempts, generated);
    }
    assert templates[..|templates|] == templates;
    response := Generated(generated);
  }

  /** The first `i + 1` templates run as the first `i`, then template `i`. */
  lemma RunAllStep(st: Run, ts: seq<Transaction>, i: nat, today: Date, fails: nat -> bool)
    requires i < |ts| && forall j :: 0 <= j <= i ==> Runnable(ts[j], today)
    ensures RunAll(st, ts[..i + 1], today, fails) == RunFrom(RunAll(st, ts[..i], today, fails), ts[i], ts[i].transactionDate, today, fails)
  {
    assert ts[..i + 1][..i] == ts[..i];
  }

  /** One template's `while (nextDate <= today)` loop. */
  method RunTemplate(db: Store, t: Transaction, today: Date, fails: nat -> bool, attempts0: nat, generated0: nat)
    returns (attempts: nat, generated: nat)
    requires Runnable(t, today)
    modifies db`transactions, db`nextId
    ensures Run(db.transactions, db.nextId, attempts, generated) ==
      RunFrom(Run(old(db.transactions), old(db.nextId), attempts0, generated0), t, t.transactionDate, today, fails)
  {
    attempts, generated := attempts0, generated0;
    var cursor := t.transactionDate;
    while Ord(cursor) <= Ord(today)
      invariant ValidDate(cursor) && (Ord(cursor) <= Ord(today) ==> Advances(t))
      invariant RunFrom(Run(db.transactions, db.nextId, attempts, generated), t, cursor, today, fails) ==
        RunFrom(Run(old(db.transactions), old(db.nextId), attempts0, generated0), t, t.transactionDate, today, fails)
      decreases Measure(cursor, today)
    {
      ghost var st := Run(db.transactions, db.nextId, attempts, generated);
      ghost var prev := cursor;
      cursor := Advance(t, cursor);
      assert RunFrom(st, t, prev, today, fails) == RunFrom(Step(st, t, cursor, today, fails), t, cursor, today, fails);
      if Ord(cursor) <= Ord(today) && WithinEnd(t, cursor) && !Exists(db.transactions, t.id, cursor) {
        if fails(attempts) {
          attempts := attempts + 1;
        } else {
          var id := db.NewId();
          db.transactions := db.transactions + [Occurrence(t, cursor, id)];
          attempts := attempts + 1;
          generated := generated + 1;
        }
      }
      assert Run(db.transactions, db.nextId, attempts, generated) == Step(st, t, cursor, today, fails);
    }
  }

  // ---------------------------------------------------------------------
  // The dates a template generates

  /** The advanced cursor values that pass the date checks, in order. */
  function DueDates(t: Transaction, cursor: Date, today: Date): seq<Date>
    requires ValidDate(cursor) && (Ord(cursor) <= Ord(today) ==> Advances(t))
    decreases Measure(cursor, today)
  {
    if Ord(cursor) > Ord(today) then []
    else
      var n := Advance(t, cursor);
      (if Ord(n) <= Ord(today) && WithinEnd(t, n) then [n] else []) + DueDates(t, n, today)
  }

  /** A template's due dates from its own date, or none when its loop cannot run. */
  function DueOf(t: Transaction, today: Date): seq<Date>
  {
    if Runnable(t, today) then DueDates(t, t.transactionDate, today) else []
  }

  /** Every due date lies after the cursor, not after today and not after the end date. */
  lemma {:induction false} DueDatesBounds(t: Transaction, cursor: Date, today: Date)
    requires ValidDate(cursor) && (Ord(cursor) <= Ord(today) ==> Advances(t))
    ensures forall d :: d in DueDates(t, cursor, today) ==>
      Ord(cursor) < Ord(d) <= Ord(today) && WithinEnd(t, d) && ValidDate(d)
    decreases Measure(cursor, today)
  {
    if Ord(cursor) <= Ord(today) {
      DueDatesBounds(t, Advance(t, cursor), today);
    }
  }

  /** So the template's own date is never generated. */
  lemma TemplateDateNotDue(t: Transaction, today: Date)
    requires Runnable(t, today)
    ensures t.transactionDate !in DueOf(t, today)
  {
    DueDatesBounds(t, t.transactionDate, today);
  }

  /** A monthly step of interval 1 from a first day lands on the first day of the next month. */
  lemma AdvanceFirstMonthly(t: Transaction, ym: YearMonth)
    requires t.frequency == Some(Monthly) && t.interval == None && ValidMonth(ym)
    ensures Advance(t, FirstOf(ym)) == FirstOf(NextMonth(ym))
  {
    AddMonthsOfFirst(ym, 1);
  }

  /** The due dates of a monthly template of interval 1 from a first day. */
  lemma DueFromFirst(t: Transaction, ym: YearMonth, today: Date)
    requires t.frequency == Some(Monthly) && t.interval == None && t.recurrenceEnd == None
    requires ValidMonth(ym) && Ord(FirstOf(ym)) <= Ord(today)
    ensures DueDates(t, FirstOf(ym), today) ==
      (if Ord(FirstOf(NextMonth(ym))) <= Ord(today) then [FirstOf(NextMonth(ym))] else []) + DueDates(t, FirstOf(NextMonth(ym)), today)
  {
    AdvanceFirstMonthly(t, ym);
  }

  predicate MonthlyByOne(t: Transaction)
  {
    t.frequency == Some(Monthly) && t.interval == None && t.recurrenceEnd == None
  }

  /** From the first of a month with today on that day nothing is due yet. */
  lemma NoneDueOnFirst(t: Transaction, ym: YearMonth)
    requires MonthlyByOne(t) && ValidMonth(ym)
    ensures DueDates(t, FirstOf(ym), FirstOf(ym)) == []
  {
    DueFromFirst(t, ym, FirstOf(ym));
  }

  /**
   * A monthly template of interval 1 dated the first of a month, run on
   * the first of the month three later, generates the firsts of the three
   * following months, today's included: from 2024-01-01 with today
   * 2024-04-01 these are 2024-02-01, 2024-03-01 and 2024-04-01.
   */
  lemma ThreeMonthsDue(t: Transaction, ym: YearMonth)
    requires MonthlyByOne(t) && ValidMonth(ym)
    ensures var m1 := NextMonth(ym); var m2 := NextMonth(m1); var m3 := NextMonth(m2);
      DueDates(t, FirstOf(ym), FirstOf(m3)) == [FirstOf(m1), FirstOf(m2), FirstOf(m3)]
  {
    var m1 := NextMonth(ym);
    var m2 := NextMonth(m1);
    var m3 := NextMonth(m2);
    var today := FirstOf(m3);
    NoneDueOnFirst(t, m3);
    assert DueDates(t, FirstOf(m2), today) == [today] by {
      DueFromFirst(t, m2, today);
    }
    assert DueDates(t, FirstOf(m1), today) == [FirstOf(m2), today] by {
      DueFromFirst(t, m1, today);
    }
    DueFromFirst(t, ym, today);
  }

  // ---------------------------------------------------------------------
  // What a run does to the table

  lemma ChildrenAppend(txs: seq<Transaction>, x: Transaction, p: Id, d: Date)
    ensures Children(txs + [x], p, d) == Children(txs, p, d) + (if x.parentTransactionId == Some(p) && x.transactionDate == d then 1 else 0)
  {
    assert (txs + [x])[..|txs + [x]| - 1] == txs;
  }

  /** A step changes the children of its template on its own date only, by at most one. */
  lemma StepChildren(st: Run, t: Transaction, n: Date, today: Date, fails: nat -> bool, p: Id, d: Date)
    ensures var r := Step(st, t, n, today, fails);
      Children(r.txs, p, d) == Children(st.txs, p, d) +
        (if p == t.id && d == n && Due(st, t, n, today) && !fails(st.attempts) then 1 else 0)
  {
    if Due(st, t, n, today) && !fails(st.attempts) {
      ChildrenAppend(st.txs, Occurrence(t, n, GeneratedId(st.nextId)), p, d);
    }
  }

  /** The loop from a cursor leaves the children on dates up to the cursor, and of other templates, alone. */
  lemma {:induction false} RunFromKeeps(st: Run, t: Transaction, cursor: Date, today: Date, fails: nat -> bool, p: Id, d: Date)
    requires ValidDate(cursor) && (Ord(cursor) <= Ord(today) ==> Advances(t))
    requires p != t.id || Ord(d) <= Ord(cursor)
    ensures Children(RunFrom(st, t, cursor, today, fails).txs, p, d) == Children(st.txs, p, d)
    decreases Measure(cursor, today)
  {
    if Ord(cursor) <= Ord(today) {
      var n := Advance(t, cursor);
      StepChildren(st, t, n, today, fails, p, d);
      RunFromKeeps(Step(st, t, n, today, fails), t, n, today, fails, p, d);
    }
  }

  /** At most one child per template and date. */
  ghost predicate AtMostOne(txs: seq<Transaction>, p: Id)
  {
    forall d :: Children(txs, p, d) <= 1
  }

  /**
   * A run without failed inserts leaves exactly one child on each due
   * date, and keeps at most one child per date.
   */
  lemma {:induction false} RunFromFills(st: Run, t: Transaction, cursor: Date, today: Date, fails: nat -> bool)
    requires ValidDate(cursor) && (Ord(cursor) <= Ord(today) ==> Advances(t))
    requires forall k :: !fails(k)
    requires AtMostOne(st.txs, t.id)
    ensures AtMostOne(RunFrom(st, t, cursor, today, fails).txs, t.id)
    ensures forall d :: d in DueDates(t, cursor, today) ==> Exists(RunFrom(st, t, cursor, today, fails).txs, t.id, d)
    decreases Measure(cursor, today)
  {
    if Ord(cursor) <= Ord(today) {
      var n := Advance(t, cursor);
      var st1 := Step(st, t, n, today, fails);
      forall d
        ensures Children(st1.txs, t.id, d) <= 1
      {
        StepChildren(st, t, n, today, fails, t.id, d);
      }
      StepChildren(st, t, n, today, fails, t.id, n);
      RunFromFills(st1, t, n, today, fails);
      RunFromKeeps(st1, t, n, today, fails, t.id, n);
    }
  }

  /** When every due date already has its one child, the loop inserts nothing. */
  lemma {:induction false} RunFromIdle(st: Run, t: Transaction, cursor: Date, today: Date, fails: nat -> bool)
    requires ValidDate(cursor) && (Ord(cursor) <= Ord(today) ==> Advances(t))
    requires forall d :: d in DueDates(t, cursor, today) ==> Exists(st.txs, t.id, d)
    ensures RunFrom(st, t, cursor, today, fails) == st
    decreases Measure(cursor, today)
  {
    if Ord(cursor) <= Ord(today) {
      var n := Advance(t, cursor);
      assert Step(st, t, n, today, fails) == st;
      RunFromIdle(st, t, n, today, fails);
    }
  }

  /**
   * Idempotence for one template: after a run without failed inserts, a
   * second run from the same date with the same today inserts nothing.
   */
  lemma RunTwice(st: Run, t: Transaction, today: Date, fails: nat -> bool, fails2: nat -> bool)
    requires Runnable(t, today)
    requires forall k :: !fails(k)
    requires AtMostOne(st.txs, t.id)
    ensures var once := RunFrom(st, t, t.transactionDate, today, fails);
      RunFrom(once.(attempts := 0, generated := 0), t, t.transactionDate, today, fails2) == once.(attempts := 0, generated := 0)
  {
    var once := RunFrom(st, t, t.transactionDate, today, fails);
    RunFromFills(st, t, t.transactionDate, today, fails);
    RunFromIdle(once.(attempts := 0, generated := 0), t, t.transactionDate, today, fails2);
  }

  /** Generated rows are never templates: a run leaves the template list as it was. */
  lemma {:induction false} RunFromKeepsTemplates(st: Run, t: Transaction, cursor: Date, today: Date, fails: nat -> bool)
    requires ValidDate(cursor) && (Ord(cursor) <= Ord(today) ==> Advances(t))
    ensures Templates(RunFrom(st, t, cursor, today, fails).txs) == Templates(st.txs)
    decreases Measure(cursor, today)
  {
    if Ord(cursor) <= Ord(today) {
      var n := Advance(t, cursor);
      var st1 := Step(st, t, n, today, fails);
      if Due(st, t, n, today) && !fails(st.attempts) {
        var x := Occurrence(t, n, GeneratedId(st.nextId));
        FilterAppend(st.txs, [x], IsTemplate);
        assert Filter([x], IsTemplate) == [] by {
          assert [x][..0] == [];
        }
      }
      RunFromKeepsTemplates(st1, t, n, today, fails);
    }
  }

  /** The whole run leaves the children of a template outside the list alone. */
  lemma {:induction false} RunAllKeeps(st: Run, ts: seq<Transaction>, today: Date, fails: nat -> bool, p: Id, d: Date)
    requires forall i :: 0 <= i < |ts| ==> Runnable(ts[i], today)
    requires forall i :: 0 <= i < |ts| ==> ts[i].id != p
    ensures Children(RunAll(st, ts, today, fails).txs, p, d) == Children(st.txs, p, d)
  {
    if ts != [] {
      var init := ts[..|ts| - 1];
      var t := ts[|ts| - 1];
      RunAllKeeps(st, init, today, fails, p, d);
      RunFromKeeps(RunAll(st, init, today, fails), t, t.transactionDate, today, fails, p, d);
    }
  }

  /** Templates with distinct ids. */
  predicate DistinctIds(ts: seq<Transaction>)
  {
    forall i, j :: 0 <= i < j < |ts| ==> ts[i].id != ts[j].id
  }

  /** After a failure-free run every template has exactly one child on each of its due dates. */
  lemma {:induction false} RunAllFills(st: Run, ts: seq<Transaction>, today: Date, fails: nat -> bool)
    requires forall i :: 0 <= i < |ts| ==> Runnable(ts[i], today)
    requires DistinctIds(ts) && forall k :: !fails(k)
    requires forall i :: 0 <= i < |ts| ==> AtMostOne(st.txs, ts[i].id)
    ensures forall i, d :: 0 <= i < |ts| && d in DueOf(ts[i], today) ==>
      Exists(RunAll(st, ts, today, fails).txs, ts[i].id, d)
  {
    if ts != [] {
      var n := |ts| - 1;
      var init := ts[..n];
      var t := ts[n];
      var mid := RunAll(st, init, today, fails);
      RunAllFills(st, init, today, fails);
      forall d
        ensures Children(mid.txs, t.id, d) == Children(st.txs, t.id, d)
      {
        RunAllKeeps(st, init, today, fails, t.id, d);
      }
      RunFromFills(mid, t, t.transactionDate, today, fails);
      forall i, d | 0 <= i < n && d in DueOf(ts[i], today)
        ensures Exists(RunAll(st, ts, today, fails).txs, ts[i].id, d)
      {
        assert init[i] == ts[i];
        RunFromKeeps(mid, t, t.transactionDate, today, fails, ts[i].id, d);
      }
    }
  }

  /** When every template's due dates are filled, the whole run inserts nothing. */
  lemma {:induction false} RunAllIdle(st: Run, ts: seq<Transaction>, today: Date, fails: nat -> bool)
    requires forall i :: 0 <= i < |ts| ==> Runnable(ts[i], today)
    requires forall i, d :: 0 <= i < |ts| && d in DueOf(ts[i], today) ==> Exists(st.txs, ts[i].id, d)
    ensures RunAll(st, ts, today, fails) == st
  {
    if ts != [] {
      var n := |ts| - 1;
      RunAllIdle(st, ts[..n], today, fails);
      RunFromIdle(st, ts[n], ts[n].transactionDate, today, fails);
    }
  }

  /** Every template list run: the templates stay those of the table. */
  lemma {:induction false} RunAllKeepsTemplates(st: Run, ts: seq<Transaction>, today: Date, fails: nat -> bool)
    requires forall i :: 0 <= i < |ts| ==> Runnable(ts[i], today)
    ensures Templates(RunAll(st, ts, today, fails).txs) == Templates(st.txs)
  {
    if ts != [] {
      var n := |ts| - 1;
      RunAllKeepsTemplates(st, ts[..n], today, fails);
      RunFromKeepsTemplates(RunAll(st, ts[..n], today, fails), ts[n], ts[n].transactionDate, today, fails);
    }
  }

  /**
   * Running the generator twice with the same today: when the first run
   * has no failed insert, the second finds the same templates and inserts
   * nothing.
   */
  lemma GenerateTwice(txs: seq<Transaction>, nextId: nat, today: Date, fails: nat -> bool, fails2: nat -> bool)
    requires forall t :: t in txs && IsTemplate(t) ==> ValidDate(t.transactionDate) && !Hangs(t, today)
    requires DistinctIds(Templates(txs)) && forall k :: !fails(k)
    requires forall t :: t in txs && IsTemplate(t) ==> AtMostOne(txs, t.id)
    ensures var once := RunAll(Run(txs, nextId, 0, 0), Templates(txs), today, fails);
      Templates(once.txs) == Templates(txs) &&
      RunAll(Run(once.txs, once.nextId, 0, 0), Templates(once.txs), today, fails2) == Run(once.txs, once.nextId, 0, 0)
  {
    var ts := Templates(txs);
    assert forall i :: 0 <= i < |ts| ==> ts[i] in ts;
    var once := RunAll(Run(txs, nextId, 0, 0), ts, today, fails);
    RunAllKeepsTemplates(Run(txs, nextId, 0, 0), ts, today, fails);
    RunAllFills(Run(txs, nextId, 0, 0), ts, today, fails);
    RunAllIdle(Run(once.txs, once.nextId, 0, 0), ts, today, fails2);
  }
}
