/**
 * Payment planning across projects: what is left to plan per project and
 * child category, the form drafts keyed by project and category, and the
 * installment builder that posts a batch of monthly schedules.
 */
module CashFlowPlanning {
  import opened Common
  import opened Calendar
  import opened Rows
  import opened BudgetRows
  import Periods
  import ScheduleApi

  // ---------------------------------------------------------------------
  // What is left to plan

  /** The project's budget rows. */
  function ProjectBudgets(bs: seq<Budget>, projectId: Id): (r: seq<Budget>)
    ensures forall b :: b in r <==> b in bs && b.projectId == Some(projectId)
  {
    Filter(bs, (b: Budget) => b.projectId == Some(projectId))
  }

  /** `reduce(sum + (b.<col> || 0))` over the pair's budget rows. */
  function PairSum(bs: seq<Budget>, projectId: Id, categoryId: Id, col: Column): real
  {
    BudgetSum(ProjectBudgets(bs, projectId), categoryId, col)
  }

  /** The pair's non-transfer transactions. */
  predicate Counted(t: Transaction, projectId: Id, categoryId: Id)
  {
    t.projectId == Some(projectId) && t.categoryId == Some(categoryId) && t.txType != Transfer
  }

  /** Signed `amount + k2` over the pair's non-transfer transactions, from the gross or the net column. */
  function ActualOf(txs: seq<Transaction>, projectId: Id, categoryId: Id, withVat: bool): real
  {
    if txs == [] then 0.0
    else
      var t := txs[|txs| - 1];
      var part := (if withVat then OrZero(t.amountWithVat) else OrZero(t.amountWithoutVat)) + OrZero(t.k2Amount);
      ActualOf(txs[..|txs| - 1], projectId, categoryId, withVat) + (if Counted(t, projectId, categoryId) then part else 0.0)
  }

  /** `scheduled_amount` over the pair's existing schedules. */
  function Planned(ss: seq<Schedule>, projectId: Id, categoryId: Id): real
  {
    if ss == [] then 0.0
    else
      var s := ss[|ss| - 1];
      Planned(ss[..|ss| - 1], projectId, categoryId) +
        (if s.projectId == projectId && s.categoryId == categoryId then s.scheduledAmount else 0.0)
  }

  datatype Remaining = Remaining(budgeted: real, actual: real, remaining: real)

  /**
   * `getCategoryRemaining`: the gross K1 when it sums above zero (K2 left
   * out), else net K1 plus K2; the actual from the matching column; what
   * is already scheduled is taken off too.
   */
  function CategoryRemaining(bs: seq<Budget>, txs: seq<Transaction>, ss: seq<Schedule>, projectId: Id, categoryId: Id): (r: Remaining)
    ensures r.remaining == r.budgeted - r.actual - Planned(ss, projectId, categoryId)
    ensures var gross := PairSum(bs, projectId, categoryId, K1WithVatCol);
      gross > 0.0 ==> r.budgeted == gross && r.actual == ActualOf(txs, projectId, categoryId, true)
    ensures var gross := PairSum(bs, projectId, categoryId, K1WithVatCol);
      gross <= 0.0 ==> (r.actual == ActualOf(txs, projectId, categoryId, false) &&
        r.budgeted == PairSum(bs, projectId, categoryId, K1WithoutVatCol) + PairSum(bs, projectId, categoryId, K2Col))
  {
    var useWithVat := PairSum(bs, projectId, categoryId, K1WithVatCol) > 0.0;
    var budgeted := if useWithVat then PairSum(bs, projectId, categoryId, K1WithVatCol)
                    else PairSum(bs, projectId, categoryId, K1WithoutVatCol) + PairSum(bs, projectId, categoryId, K2Col);
    var actual := ActualOf(txs, projectId, categoryId, useWithVat);
    Remaining(budgeted, actual, budgeted - actual - Planned(ss, projectId, categoryId))
  }

  lemma PlannedAppend(ss: seq<Schedule>, s: Schedule, projectId: Id, categoryId: Id)
    ensures Planned(ss + [s], projectId, categoryId) ==
      Planned(ss, projectId, categoryId) + (if s.projectId == projectId && s.categoryId == categoryId then s.scheduledAmount else 0.0)
  {
    assert (ss + [s])[..|ss|] == ss;
  }

  /**
   * A new schedule takes its amount off its own pair's remaining and
   * leaves every other pair's remaining as it was.
   */
  lemma SchedulingLowersRemaining(bs: seq<Budget>, txs: seq<Transaction>, ss: seq<Schedule>, s: Schedule, projectId: Id, categoryId: Id)
    ensures CategoryRemaining(bs, txs, ss + [s], projectId, categoryId).remaining ==
      CategoryRemaining(bs, txs, ss, projectId, categoryId).remaining -
      (if s.projectId == projectId && s.categoryId == categoryId then s.scheduledAmount else 0.0)
  {
    PlannedAppend(ss, s, projectId, categoryId);
  }

  /**
   * The two formulas disagree: a row with net K1 100 and K2 50 leaves 150
   * to plan here, while the schedule endpoint snapshots a budget of 100.
   */
  lemma PlanningDiffersFromSnapshot(p: Id, c: Id)
    ensures var b := Budget("b", c, Some(p), "2024-01-01", None, Some(100.0), None, Some(50.0), None, None);
      CategoryRemaining([b], [], [], p, c).budgeted == 150.0 && ScheduleApi.Budgeted([b], p, c) == 100.0
  {
    var b := Budget("b", c, Some(p), "2024-01-01", None, Some(100.0), None, Some(50.0), None, None);
    assert [b][..0] == [];
    assert ProjectBudgets([b], p) == [b];
    assert BudgetSum([b], c, K1WithVatCol) == 0.0;
    assert BudgetSum([b], c, K1WithoutVatCol) == 100.0;
    assert BudgetSum([b], c, K2Col) == 50.0;
    assert ScheduleApi.Budgeted([b], p, c) == ScheduleApi.BudgetedPart(b) == 100.0;
  }

  /** A category is listed when it is a child and more than a cent is left either way. */
  predicate Listed(bs: seq<Budget>, txs: seq<Transaction>, ss: seq<Schedule>, projectId: Id, c: Category)
  {
    c.parentId.Some? && Abs(CategoryRemaining(bs, txs, ss, projectId, c.id).remaining) > 0.01
  }

  /** `categoriesWithRemaining` of a project. */
  function ListedCategories(cs: seq<Category>, bs: seq<Budget>, txs: seq<Transaction>, ss: seq<Schedule>, projectId: Id): (r: seq<Category>)
    ensures forall c :: c in r <==> c in cs && Listed(bs, txs, ss, projectId, c)
  {
    Filter(cs, (c: Category) => Listed(bs, txs, ss, projectId, c))
  }

  /** A project is shown exactly when one of its child categories is listed. */
  lemma ProjectShownIff(cs: seq<Category>, bs: seq<Budget>, txs: seq<Transaction>, ss: seq<Schedule>, projectId: Id)
    ensures ListedCategories(cs, bs, txs, ss, projectId) != [] <==>
      exists c :: c in cs && Listed(bs, txs, ss, projectId, c)
  {
    var r := ListedCategories(cs, bs, txs, ss, projectId);
    if r != [] {
      assert r[0] in r;
    }
  }

  /** The "nothing left to plan" message: no project lists a category. */
  predicate NothingLeftToPlan(projectIds: seq<Id>, cs: seq<Category>, bs: seq<Budget>, txs: seq<Transaction>, ss: seq<Schedule>)
  {
    forall i :: 0 <= i < |projectIds| ==> ListedCategories(cs, bs, txs, ss, projectIds[i]) == []
  }

  /** The message is shown exactly when no child category of any project has more than a cent left. */
  lemma NothingLeftToPlanIff(projectIds: seq<Id>, cs: seq<Category>, bs: seq<Budget>, txs: seq<Transaction>, ss: seq<Schedule>)
    ensures NothingLeftToPlan(projectIds, cs, bs, txs, ss) <==>
      forall p, c :: p in projectIds && c in cs ==> !Listed(bs, txs, ss, p, c)
  {
    forall i | 0 <= i < |projectIds| {
      ProjectShownIff(cs, bs, txs, ss, projectIds[i]);
    }
  }

  /** Scheduling exactly the remaining amount takes the category off the list. */
  lemma ScheduledInFullNotListed(bs: seq<Budget>, txs: seq<Transaction>, ss: seq<Schedule>, s: Schedule, c: Category)
    requires s.categoryId == c.id && s.scheduledAmount == CategoryRemaining(bs, txs, ss, s.projectId, c.id).remaining
    ensures !Listed(bs, txs, ss + [s], s.projectId, c)
  {
    SchedulingLowersRemaining(bs, txs, ss, s, s.projectId, c.id);
  }

  // ---------------------------------------------------------------------
  // The installment builder

  /** `Number.parseInt(installments) || 1`: NaN and 0 both give one installment. */
  function InstallmentCount(installments: string, parseInt: string -> Option<int>): (n: int)
    ensures n != 0
    ensures parseInt(installments).None? || parseInt(installments) == Some(0) ==> n == 1
    ensures parseInt(installments).Some? && parseInt(installments).value != 0 ==> n == parseInt(installments).value
  {
    var p := parseInt(installments);
    if p.None? || p.value == 0 then 1 else p.value
  }

  /** The month of installment `i`: `setMonth(getMonth() + i)` on the first, then its "-01". */
  function InstallmentMonth(start: Date, i: int): (d: Date)
    requires ValidDate(start)
    ensures ValidDate(d) && d.day == 1
  {
    FirstOf(MonthOf(AddMonths(start, i)))
  }

  /** The requests of a batch: `n` equal parts over consecutive months; none for a negative `n`. */
  function Batch(projectId: Id, categoryId: Id, start: Date, total: real, n: int): (r: seq<ScheduleApi.Request>)
    requires ValidDate(start) && n != 0
    ensures |r| == (if n < 0 then 0 else n)
  {
    var m := if n < 0 then 0 else n;
    seq(m, i requires 0 <= i < m =>
      ScheduleApi.Request(projectId, categoryId, total / n as real, InstallmentMonth(start, i)))
  }

  /** The parts add up to the total. */
  lemma BatchSumsToTotal(projectId: Id, categoryId: Id, start: Date, total: real, n: int)
    requires ValidDate(start) && n >= 1
    ensures var b := Batch(projectId, categoryId, start, total, n);
      Sum(seq(|b|, i requires 0 <= i < |b| => b[i].scheduledAmount)) == total
  {
    var b := Batch(projectId, categoryId, start, total, n);
    EqualPartsMakeWhole(b, total, n);
  }

  /** `n` requests of `total / n` each add up to `total`. */
  lemma EqualPartsMakeWhole(b: seq<ScheduleApi.Request>, total: real, n: int)
    requires n >= 1 && |b| == n
    requires forall i :: 0 <= i < |b| ==> b[i].scheduledAmount == total / n as real
    ensures Sum(seq(|b|, i requires 0 <= i < |b| => b[i].scheduledAmount)) == total
  {
    var amounts := seq(|b|, i requires 0 <= i < |b| => b[i].scheduledAmount);
    var part := total / n as real;
    SumAllEqual(amounts, part);
    assert n as real * part == total;
  }

  /** From the first of a month the installments fall on the firsts of consecutive months. */
  lemma BatchMonthsConsecutive(projectId: Id, categoryId: Id, ym: YearMonth, total: real, n: int, i: nat)
    requires ValidMonth(ym) && n >= 1 && i < n
    ensures Batch(projectId, categoryId, FirstOf(ym), total, n)[i].scheduledMonth == FirstOf(AddMonthsToMonth(ym, i))
    ensures MonthIndex(MonthOf(Batch(projectId, categoryId, FirstOf(ym), total, n)[i].scheduledMonth)) == MonthIndex(ym) + i
  {
    AddMonthsOfFirst(ym, i);
  }

  /** A negative installment count posts an empty batch, which the endpoint rejects. */
  lemma NegativeCountRejected(projectId: Id, categoryId: Id, start: Date, total: real, n: int)
    requires ValidDate(start) && n < 0
    ensures ScheduleApi.Rejected(ScheduleApi.Items(Batch(projectId, categoryId, start, total, n)))
  {
  }

  /** The builder loop of `handleAddSchedule`. */
  method BuildBatch(projectId: Id, categoryId: Id, start: Date, total: real, n: int) returns (batch: seq<ScheduleApi.Request>)
    requires ValidDate(start) && n != 0
    ensures batch == Batch(projectId, categoryId, start, total, n)
  {
    var amountPerInstallment := total / n as real;
    batch := [];
    var i := 0;
    while i < n
      invariant 0 <= i && (n >= 0 ==> i <= n) && (n < 0 ==> i == 0)
      invariant batch == Batch(projectId, categoryId, start, total, n)[..i]
    {
      batch := batch + [ScheduleApi.Request(projectId, categoryId, amountPerInstallment, InstallmentMonth(start, i))];
      i := i + 1;
    }
  }

  // ---------------------------------------------------------------------
  // The form state

  /** One category's draft: the month token, the amount and the installment count as typed. */
  datatype Draft = Draft(month: string, amount: string, installments: string)

  /** The draft a first edit starts from. */
  const EmptyDraft: Draft := Draft("", "", "1")

  datatype DraftField = MonthField | AmountField | InstallmentsField

  /** `{ ...existing, [field]: value }`. */
  function WithField(d: Draft, f: DraftField, v: string): (e: Draft)
    ensures f == MonthField ==> e == d.(month := v)
    ensures f == AmountField ==> e == d.(amount := v)
    ensures f == InstallmentsField ==> e == d.(installments := v)
  {
    match f
    case MonthField => d.(month := v)
    case AmountField => d.(amount := v)
    case InstallmentsField => d.(installments := v)
  }

  /** The drafts' key `${projectId}-${categoryId}`. */
  function Key(projectId: Id, categoryId: Id): string
  {
    projectId + "-" + categoryId
  }

  /** `expanded.has(id) ? delete(id) : add(id)`. */
  function Flipped(s: set<Id>, id: Id): (r: set<Id>)
    ensures id in r <==> id !in s
    ensures forall x :: x != id ==> (x in r <==> x in s)
  {
    if id in s then s - {id} else s + {id}
  }

  lemma FlipTwice(s: set<Id>, id: Id)
    ensures Flipped(Flipped(s, id), id) == s
  {
  }

  /** What adding a schedule from a draft came to. */
  datatype AddOutcome = MissingInput | InvalidAmount | MonthUnreadable | Posted(status: ScheduleApi.Status)

  /** The next twelve months offered for a draft, this one first. */
  function MonthOptions(today: Date): (r: seq<string>)
    ensures |r| == 12
  {
    Periods.MonthTokens(Periods.MonthWindow(MonthOf(today), 12))
  }

  lemma MonthOptionsStartNow(today: Date)
    requires ValidDate(today) && today.year >= 0
    ensures MonthOptions(today)[0] == MonthToken(MonthOf(today))
    ensures forall i, j :: 0 <= i < j < 12 ==> MonthOptions(today)[i] != MonthOptions(today)[j]
  {
    Periods.MonthWindowTokensDistinct(MonthOf(today), 12);
    var w := Periods.MonthWindow(MonthOf(today), 12);
    MonthIndexInjective(w[0], MonthOf(today));
  }

  class Planner {
    var expanded: set<Id>
    var drafts: map<string, Draft>

    constructor ()
      ensures expanded == {} && drafts == map[]
    {
      expanded := {};
      drafts := map[];
    }

    /** `toggleProject`. */
    method ToggleProject(id: Id)
      modifies this`expanded
      ensures expanded == Flipped(old(expanded), id)
    {
      expanded := if id in expanded then expanded - {id} else expanded + {id};
    }

    /** `updateScheduleField`: one field of one key's draft, starting from the empty draft. */
    method UpdateScheduleField(projectId: Id, categoryId: Id, f: DraftField, v: string)
      modifies this`drafts
      ensures var k := Key(projectId, categoryId);
        drafts == old(drafts)[k := WithField(if k in old(drafts) then old(drafts)[k] else EmptyDraft, f, v)]
    {
      var key := Key(projectId, categoryId);
      var existing := if key in drafts then drafts[key] else EmptyDraft;
      drafts := drafts[key := WithField(existing, f, v)];
    }

    /**
     * `handleDeleteSchedule`: sends the id to the delete endpoint; the
     * drafts and the expanded projects stay as they are.
     */
    method DeleteSchedule(db: Store, scheduleId: Id, fails: bool) returns (status: ScheduleApi.Status)
      modifies db`schedules
      ensures fails ==> status == ScheduleApi.ServerError && db.schedules == old(db.schedules)
      ensures !fails ==> status == ScheduleApi.Ok && db.schedules == ScheduleApi.Deleted(old(db.schedules), scheduleId)
    {
      status := ScheduleApi.DeleteRow(db, scheduleId, fails);
    }

    /**
     * `handleAddSchedule`: a missing month or amount, or an amount that is
     * not a positive number, posts nothing; an unreadable month with at
     * least one installment throws before posting; otherwise the batch is
     * posted and a success clears the draft.
     */
    method AddSchedule(db: Store, projectId: Id, categoryId: Id, parseInt: string -> Option<int>,
                       parseFloat: string -> Option<real>, insertFails: bool) returns (outcome: AddOutcome)
      modifies this`drafts, db`schedules, db`nextId
      ensures var k := Key(projectId, categoryId);
        k !in old(drafts) || old(drafts)[k].month == "" || old(drafts)[k].amount == "" ==>
          outcome == MissingInput && drafts == old(drafts) && db.schedules == old(db.schedules)
      ensures var k := Key(projectId, categoryId);
        k in old(drafts) && old(drafts)[k].month != "" && old(drafts)[k].amount != "" &&
        (parseFloat(old(drafts)[k].amount).None? || parseFloat(old(drafts)[k].amount).value <= 0.0) ==>
          outcome == InvalidAmount && drafts == old(drafts) && db.schedules == old(db.schedules)
      ensures outcome.Posted? && outcome.status == ScheduleApi.Ok ==> drafts == old(drafts) - {Key(projectId, categoryId)}
      ensures !(outcome.Posted? && outcome.status == ScheduleApi.Ok) ==> drafts == old(drafts)
      ensures var k := Key(projectId, categoryId);
        outcome.Posted? && outcome.status == ScheduleApi.Ok ==>
          var d := old(drafts)[k];
          var start := ParseDateToken(d.month + "-01");
          var n := InstallmentCount(d.installments, parseInt);
          start.Some? && n >= 1 &&
          db.schedules == old(db.schedules) +
            ScheduleApi.Snapshots(Batch(projectId, categoryId, start.value, parseFloat(d.amount).value, n),
                                  old(db.budgets), old(db.transactions), old(db.nextId))
      ensures var k := Key(projectId, categoryId);
        k in old(drafts) && old(drafts)[k].month != "" && old(drafts)[k].amount != "" &&
        parseFloat(old(drafts)[k].amount).Some? && parseFloat(old(drafts)[k].amount).value > 0.0 ==>
          var d := old(drafts)[k];
          var start := ParseDateToken(d.month + "-01");
          var n := InstallmentCount(d.installments, parseInt);
          (start.None? && n >= 1 ==> outcome == MonthUnreadable) &&
          (n < 0 ==> outcome == Posted(ScheduleApi.BadRequest)) &&
          (start.Some? && n >= 1 ==> outcome == Posted(if insertFails then ScheduleApi.ServerError else ScheduleApi.Ok))
      ensures !(outcome.Posted? && outcome.status == ScheduleApi.Ok) ==> db.schedules == old(db.schedules)
      ensures outcome.Posted? && outcome.status == ScheduleApi.Ok ==>
        db.nextId == old(db.nextId) + InstallmentCount(old(drafts)[Key(projectId, categoryId)].installments, parseInt)
      ensures !(outcome.Posted? && outcome.status == ScheduleApi.Ok) ==> db.nextId == old(db.nextId)
    {
      var key := Key(projectId, categoryId);
      if key !in drafts || drafts[key].month == "" || drafts[key].amount == "" {
        return MissingInput;
      }
      var d := drafts[key];
      var installments := InstallmentCount(d.installments, parseInt);
      var totalAmount := parseFloat(d.amount);
      if totalAmount.None? || totalAmount.value <= 0.0 {
        return InvalidAmount;
      }
      var start := ParseDateToken(d.month + "-01");
      var batch: seq<ScheduleApi.Request> := [];
      if start.None? {
        if installments >= 1 {
          return MonthUnreadable;
        }
      } else {
        batch := BuildBatch(projectId, categoryId, start.value, totalAmount.value, installments);
      }
      var status, rows := ScheduleApi.Post(db, ScheduleApi.Items(batch), insertFails);
      if status == ScheduleApi.Ok {
        drafts := drafts - {key};
      }
      outcome := Posted(status);
    }
  }
}
