/**
 * What the add and edit transaction dialogs share: the form, the way a
 * typed gross amount is split into net and VAT at 20%, the sign the
 * dialogs give expenses and transfers, and the category choice lists.
 */
module TransactionForm {
  import opened Common
  import opened Calendar
  import opened Rows

  /**
   * A text field of the form: either what the user typed, or a number the
   * program filled in (a VAT split, or a stored amount on opening the edit
   * dialog), which reads back as that number.
   */
  datatype Field = Text(s: string) | Shown(x: real)

  const Empty: Field := Text("")

  /** JavaScript truthiness of the field's string: only the empty string is falsy. */
  predicate FieldFilled(f: Field)
  {
    f.Shown? || f.s != ""
  }

  /** `Number.parseFloat` of the field; `None` stands for NaN. */
  function ParseField(f: Field, parse: string -> Option<real>): Option<real>
  {
    match f
    case Text(s) => parse(s)
    case Shown(x) => Some(x)
  }

  datatype Amounts = Amounts(withVat: Field, withoutVat: Field, vat: Field, k2: Field)

  /** The VAT rate the dialogs split at. */
  const GrossFactor: real := 1.2

  /**
   * `Number.parseFloat(value) || 0`: NaN and zero both read as zero. The
   * dialogs read a typed gross this way, the project budget table a typed amount.
   */
  function NumberOrZero(value: string, parse: string -> Option<real>): (w: real)
    ensures parse(value).None? ==> w == 0.0
    ensures parse(value).Some? ==> w == parse(value).value
  {
    OrZero(parse(value))
  }

  /**
   * `handleAmountWithVatChange`: the typed gross is kept as typed, the net
   * and VAT fields are filled with gross / 1.2 and the rest.
   */
  function GrossEntered(a: Amounts, value: string, parse: string -> Option<real>): (r: Amounts)
    ensures r.withVat == Text(value) && r.k2 == a.k2
    ensures r.withoutVat.Shown? && r.vat.Shown?
    ensures r.withoutVat.x * GrossFactor == NumberOrZero(value, parse)
    ensures r.withoutVat.x + r.vat.x == NumberOrZero(value, parse)
  {
    var w := NumberOrZero(value, parse);
    var net := w / GrossFactor;
    Amounts(Text(value), Shown(net), Shown(w - net), a.k2)
  }

  /** `handleAmountWithoutVatChange`: the typed net is kept, gross and VAT are blanked. */
  function NetEntered(a: Amounts, value: string): (r: Amounts)
    ensures r.withoutVat == Text(value) && r.k2 == a.k2
    ensures r.withVat == Empty && r.vat == Empty
  {
    Amounts(Empty, Text(value), Empty, a.k2)
  }

  /** Typing the net amount after the gross discards the gross split entirely. */
  lemma NetOverridesGross(a: Amounts, gross: string, net: string, parse: string -> Option<real>)
    ensures NetEntered(GrossEntered(a, gross, parse), net) == NetEntered(a, net)
  {
  }

  /** A typed gross that does not parse leaves a zero split. */
  lemma UnparsableGross(a: Amounts, value: string, parse: string -> Option<real>)
    requires parse(value).None?
    ensures GrossEntered(a, value, parse).withoutVat == Shown(0.0)
    ensures GrossEntered(a, value, parse).vat == Shown(0.0)
  {
  }

  /**
   * The sign rule of `handleSubmit`: for expenses and transfers a strictly
   * positive amount is negated; zero, negative and missing amounts are kept.
   */
  function Signed(t: TxType, x: Option<real>): (r: Option<real>)
    ensures t == Income ==> r == x
    ensures t != Income && x.Some? && x.value > 0.0 ==> r == Some(-x.value)
    ensures t != Income && !(x.Some? && x.value > 0.0) ==> r == x
    ensures t != Income && r.Some? ==> r.value <= 0.0 || (x.Some? && x.value < 0.0 && r == x)
  {
    if t != Income && Truthy(x) && x.value > 0.0 then Some(-x.value) else x
  }

  /** Normalising twice is normalising once. */
  lemma SignedIdempotent(t: TxType, x: Option<real>)
    ensures Signed(t, Signed(t, x)) == Signed(t, x)
  {
  }

  /** Expense and transfer amounts are never positive after the rule. */
  lemma SignedNotPositive(t: TxType, x: Option<real>)
    requires t != Income
    ensures Signed(t, x).Some? ==> Signed(t, x).value <= 0.0
  {
  }

  /** One re-signing step of an expense or transfer submit: `if (x && x > 0) x = -x`. */
  method NegatePositive(t: TxType, x: Option<real>) returns (y: Option<real>)
    requires t != Income
    ensures y == Signed(t, x)
  {
    y := x;
    if y.Some? && y.value != 0.0 && y.value > 0.0 {
      y := Some(-y.value);
    }
  }

  /**
   * The fields the two dialogs submit, beside the amounts. Dates come from
   * date inputs; `recurrenceEnd` is `None` for a blank end date.
   */
  datatype Form = Form(
    transactionDate: Date,
    plDate: Date,
    accountId: Id,
    txType: TxType,
    categoryId: string,
    debtId: string,
    projectId: string,
    toAccountId: string,
    amounts: Amounts,
    notes: string,
    isRecurring: bool,
    frequency: Frequency,
    interval: string,
    recurrenceEnd: Option<Date>)

  /** `field || null` on a form string. */
  function NullIfEmpty(s: string): (r: Option<string>)
    ensures s == "" <==> r.None?
    ensures r.Some? ==> r.value == s
  {
    if s == "" then None else Some(s)
  }

  /** The four signed amounts a dialog computed. */
  datatype SignedAmounts = SignedAmounts(withVat: Option<real>, withoutVat: Option<real>, vat: Option<real>, k2: Option<real>)

  /**
   * The row a dialog writes for the form; the amounts come already signed,
   * `parseInt` reads the recurrence interval (`None` for NaN).
   */
  function FormRow(id: Id, f: Form, amt: SignedAmounts, parseInt: string -> Option<int>, parent: Option<Id>): (t: Transaction)
    ensures t.id == id && t.parentTransactionId == parent
    ensures t.accountId == f.accountId && t.txType == f.txType
    ensures f.txType == Transfer ==> t.toAccountId == Some(f.toAccountId)
    ensures f.txType != Transfer ==> t.toAccountId.None?
    ensures !f.isRecurring ==> t.frequency.None? && t.interval.None? && t.recurrenceEnd.None?
    ensures f.isRecurring ==>
      t.frequency == Some(f.frequency) && t.interval == parseInt(f.interval) && t.recurrenceEnd == f.recurrenceEnd
    ensures t.amountWithVat == amt.withVat && t.amountWithoutVat == amt.withoutVat
    ensures t.vatAmount == amt.vat && t.k2Amount == amt.k2
    ensures t.categoryId == NullIfEmpty(f.categoryId) && t.debtId == NullIfEmpty(f.debtId)
    ensures t.projectId == NullIfEmpty(f.projectId) && t.notes == NullIfEmpty(f.notes)
  {
    Transaction(
      id, f.transactionDate, f.plDate, f.accountId, f.txType,
      NullIfEmpty(f.categoryId), NullIfEmpty(f.debtId), NullIfEmpty(f.projectId),
      if f.txType == Transfer then Some(f.toAccountId) else None,
      amt.withVat, amt.withoutVat, amt.vat, amt.k2,
      NullIfEmpty(f.notes), f.isRecurring,
      if f.isRecurring then Some(f.frequency) else None,
      if f.isRecurring then parseInt(f.interval) else None,
      if f.isRecurring then f.recurrenceEnd else None,
      parent)
  }

  // ---------------------------------------------------------------------
  // Category choices

  /** `categories.find((p) => p.id === id)`: the first category with that id. */
  function FindCategory(categories: seq<Category>, id: Id): (r: Option<Category>)
    ensures r.Some? ==> r.value in categories && r.value.id == id
    ensures r.None? ==> forall c :: c in categories ==> c.id != id
  {
    if categories == [] then None
    else if categories[0].id == id then Some(categories[0])
    else FindCategory(categories[1..], id)
  }

  /** The type of a child's parent; `None` when the parent is missing or has no type. */
  function ParentType(categories: seq<Category>, c: Category): Option<CategoryType>
  {
    if c.parentId.None? then None
    else
      match FindCategory(categories, c.parentId.value)
      case None => None
      case Some(p) => p.categoryType
  }

  predicate OfferedForIncome(categories: seq<Category>, c: Category)
  {
    c.parentId.Some? && (ParentType(categories, c) == Some(IncomeType) || ParentType(categories, c).None?)
  }

  predicate OfferedForExpense(categories: seq<Category>, c: Category)
  {
    c.parentId.Some? && ParentType(categories, c) == Some(ExpenseType)
  }

  function IncomeChoices(categories: seq<Category>): (r: seq<Category>)
    ensures forall c :: c in r <==> c in categories && OfferedForIncome(categories, c)
  {
    Choose(categories, categories, true)
  }

  function ExpenseChoices(categories: seq<Category>): (r: seq<Category>)
    ensures forall c :: c in r <==> c in categories && OfferedForExpense(categories, c)
  {
    Choose(categories, categories, false)
  }

  function Choose(all: seq<Category>, cs: seq<Category>, income: bool): (r: seq<Category>)
    ensures forall c :: c in r <==>
      (c in cs && (if income then OfferedForIncome(all, c) else OfferedForExpense(all, c)))
  {
    if cs == [] then []
    else
      var last := cs[|cs| - 1];
      Choose(all, cs[..|cs| - 1], income) +
      (if (if income then OfferedForIncome(all, last) else OfferedForExpense(all, last)) then [last] else [])
  }

  /**
   * Every child category is offered in exactly one of the two lists, and a
   * top-level category in neither.
   */
  lemma ChoicesPartitionChildren(categories: seq<Category>, c: Category)
    requires c in categories
    ensures c.parentId.None? ==> c !in IncomeChoices(categories) && c !in ExpenseChoices(categories)
    ensures c.parentId.Some? ==> (c in IncomeChoices(categories) <==> c !in ExpenseChoices(categories))
  {
    var pt := ParentType(categories, c);
    assert pt.None? || pt.value == IncomeType || pt.value == ExpenseType;
    assert c in IncomeChoices(categories) <==> OfferedForIncome(categories, c);
    assert c in ExpenseChoices(categories) <==> OfferedForExpense(categories, c);
  }
}
