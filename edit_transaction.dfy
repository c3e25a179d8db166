/**
 * The edit transaction dialog: the tolerant number reader, the rule that
 * picks the total an account is charged, the form opened on a stored
 * transaction, and the submit that re-signs the amounts and updates the row.
 */
module EditTransaction {
  import opened Common
  import opened Calendar
  import opened Rows
  import opened TransactionForm

  /** `s.replace(c, d)` with a string pattern: only the first occurrence is replaced. */
  function ReplaceFirst(s: string, c: char, d: char): (r: string)
    ensures |r| == |s|
    ensures forall i :: 0 <= i < |s| ==> r[i] == (if i == FirstIndex(s, c) then d else s[i])
  {
    if s == [] then []
    else if s[0] == c then [d] + s[1..]
    else [s[0]] + ReplaceFirst(s[1..], c, d)
  }

  /**
   * `num`: null reads as 0; a string has its first comma turned into a dot
   * and is read by `Number`, and a non-finite result (`None`) reads as 0.
   */
  function Num(v: Option<string>, number: string -> Option<real>): (n: real)
    ensures v.None? ==> n == 0.0
    ensures v.Some? && number(ReplaceFirst(v.value, ',', '.')).None? ==> n == 0.0
    ensures v.Some? && number(ReplaceFirst(v.value, ',', '.')).Some? ==>
      n == number(ReplaceFirst(v.value, ',', '.')).value
  {
    match v
    case None => 0.0
    case Some(s) =>
      match number(ReplaceFirst(s, ',', '.'))
      case None => 0.0
      case Some(x) => x
  }

  /** `num` of a form field: a field the program filled reads as its own number. */
  function NumField(f: Field, number: string -> Option<real>): real
  {
    match f
    case Text(s) => Num(Some(s), number)
    case Shown(x) => x
  }

  /** The gross field counts as given: non-blank after trimming, and not zero for `num`. */
  predicate HasGross(f: Field, number: string -> Option<real>)
  {
    match f
    case Text(s) => !Blank(s) && NumField(f, number) != 0.0
    case Shown(x) => x != 0.0
  }

  /** `getAmountForAccounts`: the total with VAT when a gross amount is given, else the total without. */
  function AccountAmount(gross: Field, totalWithVat: real, totalWithoutVat: real, number: string -> Option<real>): (r: real)
    ensures HasGross(gross, number) ==> r == totalWithVat
    ensures !HasGross(gross, number) ==> r == totalWithoutVat
  {
    if HasGross(gross, number) then totalWithVat else totalWithoutVat
  }

  /** A gross of "0,0" or of spaces is not a gross: the account is charged the total without VAT. */
  lemma ZeroGrossIsNoGross(number: string -> Option<real>, t1: real, t2: real)
    requires number("0.0") == Some(0.0)
    ensures AccountAmount(Text("0,0"), t1, t2, number) == t2
    ensures AccountAmount(Text("  "), t1, t2, number) == t2
  {
    assert ReplaceFirst("0,0", ',', '.') == "0.0";
    assert Blank("  ");
  }

  /** On submit: `field ? Number.parseFloat(field) : null`. A blank field stores null. */
  function EditValue(f: Field, parse: string -> Option<real>): (r: Option<real>)
    ensures !FieldFilled(f) ==> r.None?
    ensures FieldFilled(f) ==> r == ParseField(f, parse)
  {
    if FieldFilled(f) then ParseField(f, parse) else None
  }

  /** The amount part of the form as the dialog opens it: magnitudes, blanks for zero and null. */
  function OpenField(x: Option<real>): (f: Field)
    ensures Truthy(x) ==> f == Shown(Abs(x.value))
    ensures !Truthy(x) ==> f == Empty
  {
    if Truthy(x) then Shown(Abs(x.value)) else Empty
  }

  function OpenAmounts(t: Transaction): Amounts
  {
    Amounts(OpenField(t.amountWithVat), OpenField(t.amountWithoutVat), OpenField(t.vatAmount), OpenField(t.k2Amount))
  }

  /** The amounts the edit submit stores: each field read with blanks as null, then re-signed. */
  function EditedAmounts(t: TxType, a: Amounts, parse: string -> Option<real>): SignedAmounts
  {
    SignedAmounts(Signed(t, EditValue(a.withVat, parse)), Signed(t, EditValue(a.withoutVat, parse)),
                  Signed(t, EditValue(a.vat, parse)), Signed(t, EditValue(a.k2, parse)))
  }

  /**
   * The submit's amount steps: parse each field (blank to null), then, for
   * expenses and transfers, negate each strictly positive amount.
   */
  method SubmitAmounts(t: TxType, a: Amounts, parse: string -> Option<real>) returns (amt: SignedAmounts)
    ensures amt == EditedAmounts(t, a, parse)
  {
    var withVat := EditValue(a.withVat, parse);
    var withoutVat := EditValue(a.withoutVat, parse);
    var vat := EditValue(a.vat, parse);
    var k2 := EditValue(a.k2, parse);
    if t == Expense || t == Transfer {
      withVat := NegatePositive(t, withVat);
      withoutVat := NegatePositive(t, withoutVat);
      vat := NegatePositive(t, vat);
      k2 := NegatePositive(t, k2);
    }
    amt := SignedAmounts(withVat, withoutVat, vat, k2);
  }

  /** Both totals include K2, null amounts reading as 0. */
  function TotalWithVat(amt: SignedAmounts): real
  {
    OrElse(amt.withVat, 0.0) + OrElse(amt.k2, 0.0)
  }

  function TotalWithoutVat(amt: SignedAmounts): real
  {
    OrElse(amt.withoutVat, 0.0) + OrElse(amt.k2, 0.0)
  }

  /** Totals of an expense are never positive, since every part is re-signed. */
  lemma ExpenseTotalsNotPositive(t: TxType, a: Amounts, parse: string -> Option<real>)
    requires t != Income
    ensures var amt := EditedAmounts(t, a, parse);
      TotalWithVat(amt) <= 0.0 && TotalWithoutVat(amt) <= 0.0
  {
    SignedNotPositive(t, EditValue(a.withVat, parse));
    SignedNotPositive(t, EditValue(a.withoutVat, parse));
    SignedNotPositive(t, EditValue(a.k2, parse));
  }

  /**
   * Opening and re-saving an expense or transfer reproduces a stored
   * non-positive amount, except that a stored 0 comes back as null.
   */
  lemma ResaveExpenseAmount(t: TxType, x: Option<real>, parse: string -> Option<real>)
    requires t != Income
    requires x.Some? ==> x.value <= 0.0
    ensures Signed(t, EditValue(OpenField(x), parse)) == (if x == Some(0.0) then None else x)
  {
  }

  /** Re-saving income stores the magnitude: a negative stored income amount comes back positive. */
  lemma ResaveIncomeAmount(x: Option<real>, parse: string -> Option<real>)
    requires x.Some? && x.value < 0.0
    ensures Signed(Income, EditValue(OpenField(x), parse)) == Some(-x.value)
  {
  }

  /** The form the dialog opens on a stored transaction. */
  function OpenForm(t: Transaction): (f: Form)
    ensures f.amounts == OpenAmounts(t) && f.txType == t.txType && f.accountId == t.accountId
  {
    Form(
      t.transactionDate, t.plDate, t.accountId, t.txType,
      OrEmpty(t.categoryId), OrEmpty(t.debtId), OrEmpty(t.projectId), OrEmpty(t.toAccountId),
      OpenAmounts(t), OrEmpty(t.notes), t.isRecurring,
      if t.frequency.Some? then t.frequency.value else Monthly,
      if t.interval.Some? then IntToString(t.interval.value) else "1",
      t.recurrenceEnd)
  }

  /** `x || ""` on a nullable string. */
  function OrEmpty(s: Option<string>): (r: string)
    ensures Filled(s) ==> r == s.value
    ensures !Filled(s) ==> r == ""
  {
    if s.Some? then s.value else ""
  }

  /** Every row with the transaction's id, replaced by the submitted one; others untouched. */
  function ReplaceTransaction(txs: seq<Transaction>, row: Transaction): (r: seq<Transaction>)
    ensures |r| == |txs|
    ensures forall i :: 0 <= i < |txs| ==> r[i] == (if txs[i].id == row.id then row.(parentTransactionId := txs[i].parentTransactionId) else txs[i])
  {
    seq(|txs|, i requires 0 <= i < |txs| =>
      if txs[i].id == row.id then row.(parentTransactionId := txs[i].parentTransactionId) else txs[i])
  }

  /**
   * `handleSubmit`: the row with the transaction's id gets the form's
   * fields; a storage error leaves the table unchanged. The computed
   * account amount is returned beside the write.
   */
  method Submit(db: Store, id: Id, f: Form, parse: string -> Option<real>, number: string -> Option<real>,
                parseInt: string -> Option<int>, updateFails: bool) returns (accountAmount: real)
    modifies db`transactions
    ensures updateFails ==> db.transactions == old(db.transactions)
    ensures !updateFails ==> db.transactions == ReplaceTransaction(old(db.transactions), FormRow(id, f, EditedAmounts(f.txType, f.amounts, parse), parseInt, None))
    ensures accountAmount == AccountAmount(f.amounts.withVat, TotalWithVat(EditedAmounts(f.txType, f.amounts, parse)),
                                           TotalWithoutVat(EditedAmounts(f.txType, f.amounts, parse)), number)
  {
    var amt := SubmitAmounts(f.txType, f.amounts, parse);
    accountAmount := AccountAmount(f.amounts.withVat, TotalWithVat(amt), TotalWithoutVat(amt), number);
    if !updateFails {
      db.transactions := ReplaceTransaction(db.transactions, FormRow(id, f, amt, parseInt, None));
    }
  }
}
