/**
 * The accounts list: four display groups over the accounts, their
 * subtotals, the grand total, the type label and the list after a delete.
 */
module AccountsList {
  import opened Common
  import opened Rows

  datatype Group = PaymentBank | PaymentCash | SavingsGroup | CreditGroup

  /** `account_type === "payment" || !account_type`. */
  predicate PaymentOrUnset(a: Account)
  {
    a.accountType == Some(Payment) || a.accountType.None?
  }

  predicate InGroup(a: Account, g: Group)
  {
    match g
    case PaymentBank => PaymentOrUnset(a) && (a.location == Some(AtBank) || a.kind == BankKind)
    case PaymentCash => PaymentOrUnset(a) && (a.location == Some(InCash) || a.kind == CashKind)
    case SavingsGroup => a.accountType == Some(Savings)
    case CreditGroup => a.accountType == Some(Credit) || a.kind == CreditCardKind
  }

  /** The accounts of one group, in list order. */
  function Members(accounts: seq<Account>, g: Group): (r: seq<Account>)
    ensures forall a :: a in r <==> a in accounts && InGroup(a, g)
    ensures |r| <= |accounts|
  {
    Filter(accounts, (a: Account) => InGroup(a, g))
  }

  /**
   * Grouping distributes over concatenation: the members of a longer list are
   * the members of its front followed by those of its back, so each group
   * keeps the list order.
   */
  lemma MembersKeepOrder(xs: seq<Account>, ys: seq<Account>, g: Group)
    ensures Members(xs + ys, g) == Members(xs, g) + Members(ys, g)
  {
    FilterAppend(xs, ys, (a: Account) => InGroup(a, g));
  }

  /** `getSubtotal`: the stored balances of a list, a null balance adding nothing. */
  function Subtotal(accounts: seq<Account>): real
  {
    if accounts == [] then 0.0
    else Subtotal(accounts[..|accounts| - 1]) + OrZero(accounts[|accounts| - 1].currentBalance)
  }

  /** `grandTotal`: every account, whatever its group. */
  function GrandTotal(accounts: seq<Account>): real
  {
    Subtotal(accounts)
  }

  predicate InExactlyOneGroup(a: Account)
  {
    (if InGroup(a, PaymentBank) then 1 else 0) + (if InGroup(a, PaymentCash) then 1 else 0) +
    (if InGroup(a, SavingsGroup) then 1 else 0) + (if InGroup(a, CreditGroup) then 1 else 0) == 1
  }

  function SumOfSubtotals(accounts: seq<Account>): real
  {
    Subtotal(Members(accounts, PaymentBank)) + Subtotal(Members(accounts, PaymentCash)) +
    Subtotal(Members(accounts, SavingsGroup)) + Subtotal(Members(accounts, CreditGroup))
  }

  lemma {:induction false} SubtotalAppend(xs: seq<Account>, ys: seq<Account>)
    ensures Subtotal(xs + ys) == Subtotal(xs) + Subtotal(ys)
    decreases |ys|
  {
    if ys == [] {
      assert xs + ys == xs;
    } else {
      assert (xs + ys)[..|xs + ys| - 1] == xs + ys[..|ys| - 1];
      SubtotalAppend(xs, ys[..|ys| - 1]);
    }
  }

  /** Adding an account to the end of the list adds its balance to the subtotal of each group it is in. */
  lemma MembersStep(accounts: seq<Account>, g: Group)
    requires accounts != []
    ensures var last := accounts[|accounts| - 1];
      Subtotal(Members(accounts, g)) ==
      Subtotal(Members(accounts[..|accounts| - 1], g)) + (if InGroup(last, g) then OrZero(last.currentBalance) else 0.0)
  {
    var last := accounts[|accounts| - 1];
    var init := accounts[..|accounts| - 1];
    SubtotalAppend(Members(init, g), if InGroup(last, g) then [last] else []);
    assert Subtotal([last]) == OrZero(last.currentBalance) by {
      assert [last][..0] == [];
    }
  }

  lemma OneGroupShare(a: Account)
    requires InExactlyOneGroup(a)
    ensures var x := OrZero(a.currentBalance);
      (if InGroup(a, PaymentBank) then x else 0.0) + (if InGroup(a, PaymentCash) then x else 0.0) +
      (if InGroup(a, SavingsGroup) then x else 0.0) + (if InGroup(a, CreditGroup) then x else 0.0) == x
  {
  }

  /** When the groups partition the accounts, the four subtotals add up to the grand total. */
  lemma {:induction false} PartitionedTotals(accounts: seq<Account>)
    requires forall i :: 0 <= i < |accounts| ==> InExactlyOneGroup(accounts[i])
    ensures SumOfSubtotals(accounts) == GrandTotal(accounts)
  {
    if accounts != [] {
      var init := accounts[..|accounts| - 1];
      var last := accounts[|accounts| - 1];
      assert forall i :: 0 <= i < |init| ==> InExactlyOneGroup(init[i]) by {
        forall i | 0 <= i < |init| ensures InExactlyOneGroup(init[i]) {
          assert init[i] == accounts[i];
        }
      }
      PartitionedTotals(init);
      OneGroupShare(last);
      MembersStep(accounts, PaymentBank);
      MembersStep(accounts, PaymentCash);
      MembersStep(accounts, SavingsGroup);
      MembersStep(accounts, CreditGroup);
    }
  }

  /**
   * The legacy `type` the add-account dialog derives: credit accounts are
   * credit cards, otherwise the location decides.
   */
  function LegacyKind(t: AccountType, loc: Location): AccountKind
  {
    if t == Credit then CreditCardKind else if loc == InCash then CashKind else BankKind
  }

  /** The row the add-account dialog inserts. */
  function NewAccount(id: Id, name: string, t: AccountType, loc: Location, initial: real, currency: string): (a: Account)
    ensures a.kind == LegacyKind(t, loc) && a.accountType == Some(t) && a.location == Some(loc)
    ensures a.initialBalance == initial && a.currentBalance == Some(initial)
  {
    Account(id, name, LegacyKind(t, loc), Some(t), Some(loc), initial, Some(initial), currency)
  }

  /** An account created through the dialog lands in exactly one group. */
  lemma CreatedAccountInOneGroup(id: Id, name: string, t: AccountType, loc: Location, initial: real, currency: string)
    ensures InExactlyOneGroup(NewAccount(id, name, t, loc, initial, currency))
    ensures InGroup(NewAccount(id, name, t, loc, initial, currency), GroupOf(t, loc))
  {
  }

  function GroupOf(t: AccountType, loc: Location): Group
  {
    match t
    case Credit => CreditGroup
    case Savings => SavingsGroup
    case Payment => if loc == AtBank then PaymentBank else PaymentCash
  }

  /**
   * A legacy credit-card account with no account type and a bank location
   * is listed under Payment Bank and under Credit, so its balance is
   * counted twice by the subtotals and once by the grand total.
   */
  lemma OverlappingGroups(a: Account)
    requires a.accountType.None? && a.location == Some(AtBank) && a.kind == CreditCardKind
    requires a.currentBalance == Some(100.0)
    ensures InGroup(a, PaymentBank) && InGroup(a, CreditGroup)
    ensures GrandTotal([a]) == 100.0 && SumOfSubtotals([a]) == 200.0
  {
    assert [a][..0] == [];
    MembersStep([a], PaymentBank);
    MembersStep([a], PaymentCash);
    MembersStep([a], SavingsGroup);
    MembersStep([a], CreditGroup);
  }

  /** A legacy bank account whose location says cash is listed under both payment groups. */
  lemma MissedAndDoubled(a: Account)
    requires a.accountType.None? && a.location == Some(InCash) && a.kind == BankKind
    ensures InGroup(a, PaymentBank) && InGroup(a, PaymentCash)
    ensures !InExactlyOneGroup(a)
  {
  }

  /** `getAccountTypeLabel`. */
  function TypeLabel(t: Option<AccountType>, loc: Option<Location>): (text: string)
    ensures t == Some(Credit) ==> text == "Credit"
    ensures t == Some(Savings) ==> text == "Savings"
    ensures (t == Some(Payment) || t.None?) && loc == Some(AtBank) ==> text == "Payment - Bank"
    ensures (t == Some(Payment) || t.None?) && loc == Some(InCash) ==> text == "Payment - Cash"
    ensures (t == Some(Payment) || t.None?) && loc.None? ==> text == "Unknown"
  {
    if t == Some(Credit) then "Credit"
    else if t == Some(Savings) then "Savings"
    else if t == Some(Payment) && loc == Some(AtBank) then "Payment - Bank"
    else if t == Some(Payment) && loc == Some(InCash) then "Payment - Cash"
    else if t.None? && loc == Some(AtBank) then "Payment - Bank"
    else if t.None? && loc == Some(InCash) then "Payment - Cash"
    else "Unknown"
  }

  function GroupTitle(g: Group): string
  {
    match g
    case PaymentBank => "Payment - Bank"
    case PaymentCash => "Payment - Cash"
    case SavingsGroup => "Savings"
    case CreditGroup => "Credit"
  }

  /** A dialog-created account is labelled with the name of the group it is listed in. */
  lemma LabelNamesGroup(t: AccountType, loc: Location)
    ensures TypeLabel(Some(t), Some(loc)) == GroupTitle(GroupOf(t, loc))
  {
  }

  /** The list without the accounts carrying `id`. */
  function Without(accounts: seq<Account>, id: Id): (r: seq<Account>)
    ensures forall a :: a in r <==> a in accounts && a.id != id
  {
    Filter(accounts, (a: Account) => a.id != id)
  }

  /** Removing distributes over concatenation, so the kept accounts stay in their order. */
  lemma WithoutKeepsOrder(xs: seq<Account>, ys: seq<Account>, id: Id)
    ensures Without(xs + ys, id) == Without(xs, id) + Without(ys, id)
  {
    FilterAppend(xs, ys, (a: Account) => a.id != id);
  }


  /**
   * `handleDelete`: after a confirmed and successful storage delete the
   * local list drops the account; otherwise it is unchanged.
   */
  function AfterDelete(accounts: seq<Account>, id: Id, confirmed: bool, deleted: bool): (r: seq<Account>)
    ensures !confirmed || !deleted ==> r == accounts
    ensures confirmed && deleted ==> forall a :: a in r <==> a in accounts && a.id != id
  {
    if confirmed && deleted then Without(accounts, id) else accounts
  }
}
