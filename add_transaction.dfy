/**
 * The add transaction dialog's submit: the account rows are checked (and a
 * null stored balance repaired) before anything is written, the amounts are
 * read with blanks as 0 and re-signed, the row is inserted, and an expense
 * linked to a debt reduces that debt.
 */
module AddTransaction {
  import opened Common
  import opened Calendar
  import opened Rows
  import opened TransactionForm

  /** On submit: `field ? Number.parseFloat(field) : 0`. A blank field stores 0. */
  function AddValue(f: Field, parse: string -> Option<real>): (r: Option<real>)
    ensures !FieldFilled(f) ==> r == Some(0.0)
    ensures FieldFilled(f) ==> r == ParseField(f, parse)
  {
    if FieldFilled(f) then ParseField(f, parse) else Some(0.0)
  }

  /** The amounts the submit stores: each field read with blanks as 0, then re-signed. */
  function AddedAmounts(t: TxType, a: Amounts, parse: string -> Option<real>): SignedAmounts
  {
    SignedAmounts(Signed(t, AddValue(a.withVat, parse)), Signed(t, AddValue(a.withoutVat, parse)),
                  Signed(t, AddValue(a.vat, parse)), Signed(t, AddValue(a.k2, parse)))
  }

  /** The amount steps of the submit: parse, then re-sign expenses and transfers. */
  method SignedFormAmounts(t: TxType, a: Amounts, parse: string -> Option<real>) returns (amt: SignedAmounts)
    ensures amt == AddedAmounts(t, a, parse)
  {
    var withVat := AddValue(a.withVat, parse);
    var withoutVat := AddValue(a.withoutVat, parse);
    var vat := AddValue(a.vat, parse);
    var k2 := AddValue(a.k2, parse);
    if t == Expense {
      withVat := NegatePositive(t, withVat);
      withoutVat := NegatePositive(t, withoutVat);
      vat := NegatePositive(t, vat);
      k2 := NegatePositive(t, k2);
    } else if t == Transfer {
      withVat := NegatePositive(t, withVat);
      withoutVat := NegatePositive(t, withoutVat);
      vat := NegatePositive(t, vat);
      k2 := NegatePositive(t, k2);
    }
    amt := SignedAmounts(withVat, withoutVat, vat, k2);
  }

  /** The same blank field stores 0 here and null in the edit dialog; a typed value stores the same. */
  lemma BlankIsZeroHere(f: Field, parse: string -> Option<real>)
    ensures !FieldFilled(f) ==> AddValue(f, parse) == Some(0.0)
    ensures FieldFilled(f) ==> AddValue(f, parse) == ParseField(f, parse)
  {
  }

  /** `|amount_with_vat || amount_without_vat || 0| + |k2_amount || 0|`: what a debt is reduced by. */
  function DebtReduction(amt: SignedAmounts): (r: real)
    ensures r >= 0.0
    ensures Truthy(amt.withVat) ==> r == Abs(amt.withVat.value) + Abs(OrZero(amt.k2))
    ensures !Truthy(amt.withVat) ==> r == Abs(OrZero(amt.withoutVat)) + Abs(OrZero(amt.k2))
  {
    Abs(OrZero(Or(amt.withVat, amt.withoutVat))) + Abs(OrZero(amt.k2))
  }

  /** The number of rows with `id`: `.single()` finds a row only when there is exactly one. */
  function AccountCount(accounts: seq<Account>, id: Id): nat
  {
    if accounts == [] then 0
    else AccountCount(accounts[..|accounts| - 1], id) + (if accounts[|accounts| - 1].id == id then 1 else 0)
  }

  function DebtCount(debts: seq<Debt>, id: Id): nat
  {
    if debts == [] then 0
    else DebtCount(debts[..|debts| - 1], id) + (if debts[|debts| - 1].id == id then 1 else 0)
  }

  /** The account rows with `id` whose stored balance is null get their initial balance. */
  function RepairBalance(accounts: seq<Account>, id: Id): (r: seq<Account>)
    ensures |r| == |accounts|
    ensures forall i :: 0 <= i < |r| ==>
      r[i] == (if accounts[i].id == id && accounts[i].currentBalance.None?
               then accounts[i].(currentBalance := Some(accounts[i].initialBalance)) else accounts[i])
  {
    seq(|accounts|, i requires 0 <= i < |accounts| =>
      if accounts[i].id == id && accounts[i].currentBalance.None?
      then accounts[i].(currentBalance := Some(accounts[i].initialBalance)) else accounts[i])
  }

  /** Repairing leaves no null balance on the account and changes nothing else. */
  lemma RepairBalanceFills(accounts: seq<Account>, id: Id)
    ensures forall i :: 0 <= i < |accounts| && accounts[i].id == id ==> RepairBalance(accounts, id)[i].currentBalance.Some?
    ensures forall i :: 0 <= i < |accounts| && accounts[i].currentBalance.Some? ==> RepairBalance(accounts, id)[i] == accounts[i]
    ensures RepairBalance(RepairBalance(accounts, id), id) == RepairBalance(accounts, id)
  {
  }

  function ReduceDebt(debts: seq<Debt>, id: Id, amount: real): (r: seq<Debt>)
    ensures |r| == |debts|
    ensures forall i :: 0 <= i < |r| ==>
      r[i] == (if debts[i].id == id then debts[i].(currentAmount := debts[i].currentAmount - amount) else debts[i])
  {
    seq(|debts|, i requires 0 <= i < |debts| =>
      if debts[i].id == id then debts[i].(currentAmount := debts[i].currentAmount - amount) else debts[i])
  }

  /** The outcome of each storage call the submit makes (true = the call reports an error). */
  datatype Outcomes = Outcomes(
    accountFetchFails: bool,
    accountRepairFails: bool,
    destinationFetchFails: bool,
    destinationRepairFails: bool,
    insertFails: bool,
    debtUpdateFails: bool)

  datatype Result = Added | Aborted

  /** Whether the submit looks at a destination account. */
  predicate ChecksDestination(f: Form)
  {
    f.txType == Transfer && f.toAccountId != ""
  }

  /** The fetch with `.single()` errs on a storage error or when the id does not pick out one row. */
  predicate FetchErrs(accounts: seq<Account>, id: Id, fails: bool)
  {
    fails || AccountCount(accounts, id) != 1
  }

  predicate NeedsRepair(accounts: seq<Account>, id: Id)
  {
    exists i :: 0 <= i < |accounts| && accounts[i].id == id && accounts[i].currentBalance.None?
  }

  /**
   * The source account's checks: abort on a failed fetch, or on a failed
   * repair of a null balance.
   */
  method CheckAccount(db: Store, id: Id, fetchFails: bool, repairFails: bool) returns (ok: bool)
    modifies db`accounts
    ensures ok <==> !FetchErrs(old(db.accounts), id, fetchFails) && !(NeedsRepair(old(db.accounts), id) && repairFails)
    ensures db.accounts == (if ok then RepairBalance(old(db.accounts), id) else old(db.accounts))
  {
    if FetchErrs(db.accounts, id, fetchFails) {
      return false;
    }
    if NeedsRepair(db.accounts, id) {
      if repairFails {
        return false;
      }
      db.accounts := RepairBalance(db.accounts, id);
    } else {
      assert RepairBalance(db.accounts, id) == db.accounts;
    }
    return true;
  }

  /** The source account's fetch succeeds and, when its balance is null, so does the repair. */
  predicate SourceOk(accounts: seq<Account>, f: Form, out: Outcomes)
  {
    !FetchErrs(accounts, f.accountId, out.accountFetchFails) && !(NeedsRepair(accounts, f.accountId) && out.accountRepairFails)
  }

  /** The same for the destination, checked on the accounts after the source's repair. */
  predicate DestinationOk(accounts: seq<Account>, f: Form, out: Outcomes)
  {
    var repaired := RepairBalance(accounts, f.accountId);
    !FetchErrs(repaired, f.toAccountId, out.destinationFetchFails) &&
    !(NeedsRepair(repaired, f.toAccountId) && out.destinationRepairFails)
  }

  /**
   * `handleSubmit`. Each failed check returns before the insert, keeping
   * the repairs already made; after the insert, an expense naming a debt
   * reduces that debt when exactly one debt has its id.
   */
  method Submit(db: Store, f: Form, parse: string -> Option<real>, parseInt: string -> Option<int>, out: Outcomes)
    returns (result: Result)
    modifies db`accounts, db`transactions, db`debts, db`nextId
    ensures result == Added <==>
      SourceOk(old(db.accounts), f, out) && (ChecksDestination(f) ==> DestinationOk(old(db.accounts), f, out)) && !out.insertFails
    ensures result == Aborted ==> db.transactions == old(db.transactions) && db.debts == old(db.debts) && db.nextId == old(db.nextId)
    ensures result == Aborted ==>
      db.accounts == (if !SourceOk(old(db.accounts), f, out) then old(db.accounts)
                      else if ChecksDestination(f) && !DestinationOk(old(db.accounts), f, out) then RepairBalance(old(db.accounts), f.accountId)
                      else if ChecksDestination(f) then RepairBalance(RepairBalance(old(db.accounts), f.accountId), f.toAccountId)
                      else RepairBalance(old(db.accounts), f.accountId))
    ensures FetchErrs(old(db.accounts), f.accountId, out.accountFetchFails) ==> result == Aborted && db.accounts == old(db.accounts)
    ensures result == Added ==> !out.insertFails
    ensures result == Added ==>
      var amt := AddedAmounts(f.txType, f.amounts, parse);
      db.transactions == old(db.transactions) + [FormRow(GeneratedId(old(db.nextId)), f, amt, parseInt, None)] &&
      db.debts == (if f.debtId != "" && f.txType == Expense && DebtCount(old(db.debts), f.debtId) == 1 && !out.debtUpdateFails
                   then ReduceDebt(old(db.debts), f.debtId, DebtReduction(amt)) else old(db.debts))
    ensures result == Added ==>
      db.accounts == (if ChecksDestination(f) then RepairBalance(RepairBalance(old(db.accounts), f.accountId), f.toAccountId)
                      else RepairBalance(old(db.accounts), f.accountId))
    ensures f.txType != Expense ==> db.debts == old(db.debts)
  {
    var ok := CheckAccount(db, f.accountId, out.accountFetchFails, out.accountRepairFails);
    if !ok {
      return Aborted;
    }
    if ChecksDestination(f) {
      ok := CheckAccount(db, f.toAccountId, out.destinationFetchFails, out.destinationRepairFails);
      if !ok {
        return Aborted;
      }
    }
    var amt := SignedFormAmounts(f.txType, f.amounts, parse);
    if out.insertFails {
      return Aborted;
    }
    var id := db.NewId();
    db.transactions := db.transactions + [FormRow(id, f, amt, parseInt, None)];
    if f.debtId != "" && f.txType == Expense {
      var amount := DebtReduction(amt);
      if DebtCount(db.debts, f.debtId) == 1 && !out.debtUpdateFails {
        db.debts := ReduceDebt(db.debts, f.debtId, amount);
      }
    }
    return Added;
  }
}
