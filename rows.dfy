/**
 * The rows of the storage tables the ledger reads and writes, and the
 * storage itself: a set of tables that the dialogs, pages and API handlers
 * change in place.
 */
module Rows {
  import opened Common
  import opened Calendar

  /** The legacy `type` column of an account. */
  datatype AccountKind = BankKind | CreditCardKind | CashKind

  /** The newer `account_type` column. */
  datatype AccountType = Payment | Savings | Credit

  /** The newer `account_location` column. */
  datatype Location = AtBank | InCash

  datatype Account = Account(
    id: Id,
    name: string,
    kind: AccountKind,
    accountType: Option<AccountType>,
    location: Option<Location>,
    initialBalance: real,
    currentBalance: Option<real>,
    currency: string)

  datatype CategoryType = IncomeType | ExpenseType

  datatype Category = Category(
    id: Id,
    name: string,
    categoryType: Option<CategoryType>,
    parentId: Option<Id>,
    orderIndex: Option<int>)

  datatype TxType = Income | Expense | Transfer

  /** `recurrence_frequency`; `OtherFrequency` is any string the generator does not know. */
  datatype Frequency = Weekly | Monthly | Yearly | OtherFrequency

  datatype Transaction = Transaction(
    id: Id,
    transactionDate: Date,
    plDate: Date,
    accountId: Id,
    txType: TxType,
    categoryId: Option<Id>,
    debtId: Option<Id>,
    projectId: Option<Id>,
    toAccountId: Option<Id>,
    amountWithVat: Option<real>,
    amountWithoutVat: Option<real>,
    vatAmount: Option<real>,
    k2Amount: Option<real>,
    notes: Option<string>,
    isRecurring: bool,
    frequency: Option<Frequency>,
    interval: Option<int>,
    recurrenceEnd: Option<Date>,
    parentTransactionId: Option<Id>)

  /**
   * The amount a transaction moves on its source account:
   * `(amount_with_vat || amount_without_vat || 0) + (k2_amount || 0)`.
   */
  function SignedTotal(t: Transaction): (r: real)
    ensures Truthy(t.amountWithVat) ==> r == t.amountWithVat.value + OrZero(t.k2Amount)
    ensures !Truthy(t.amountWithVat) ==> r == OrZero(t.amountWithoutVat) + OrZero(t.k2Amount)
  {
    OrZero(Or(t.amountWithVat, t.amountWithoutVat)) + OrZero(t.k2Amount)
  }

  datatype Debt = Debt(id: Id, name: string, initialAmount: real, currentAmount: real)

  datatype Project = Project(id: Id, name: string, startDate: Option<Date>, endDate: Option<Date>)

  datatype Budget = Budget(
    id: Id,
    categoryId: Id,
    projectId: Option<Id>,
    month: string,
    k1WithVat: Option<real>,
    k1WithoutVat: Option<real>,
    vat: Option<real>,
    k2: Option<real>,
    totalWithoutVat: Option<real>,
    totalWithVat: Option<real>)

  /** A storage row id; rows the program inserts get the next one. */
  function GeneratedId(n: nat): Id
  {
    "row-" + NatToString(n)
  }

  /** The fixed owner of every cash-flow schedule row. */
  const DefaultUserId: string := "00000000-0000-0000-0000-000000000000"

  datatype Schedule = Schedule(
    id: Id,
    userId: string,
    projectId: Id,
    categoryId: Id,
    budgetedAmount: real,
    actualAmount: real,
    remainingAmount: real,
    scheduledMonth: Date,
    scheduledAmount: real,
    notes: Option<string>,
    updatedAt: Option<string>)

  /** The storage behind the application: one sequence of rows per table. */
  class Store {
    var accounts: seq<Account>
    var categories: seq<Category>
    var transactions: seq<Transaction>
    var debts: seq<Debt>
    var projects: seq<Project>
    var budgets: seq<Budget>
    var schedules: seq<Schedule>
    var nextId: nat

    constructor ()
      ensures accounts == [] && categories == [] && transactions == [] && debts == []
      ensures projects == [] && budgets == [] && schedules == [] && nextId == 0
    {
      accounts := [];
      categories := [];
      transactions := [];
      debts := [];
      projects := [];
      budgets := [];
      schedules := [];
      nextId := 0;
    }

    /** The id the storage gives the next inserted row. */
    method NewId() returns (id: Id)
      modifies this`nextId
      ensures id == GeneratedId(old(nextId)) && nextId == old(nextId) + 1
      ensures accounts == old(accounts) && categories == old(categories)
      ensures transactions == old(transactions) && debts == old(debts)
      ensures projects == old(projects) && budgets == old(budgets) && schedules == old(schedules)
    {
      id := GeneratedId(nextId);
      nextId := nextId + 1;
    }
  }
}
