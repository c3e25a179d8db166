/**
 * Account balances as the accounts, forecast, cash-flow and budget pages
 * compute them: nothing reads a stored running balance; each page starts
 * from the account's initial balance and replays the transactions that
 * name the account as source or as transfer destination.
 */
module Balances {
  import opened Common
  import opened Calendar
  import opened Rows

  /** The page's filter: the account is the transaction's source or its destination. */
  predicate Involves(t: Transaction, accountId: Id)
  {
    t.accountId == accountId || t.toAccountId == Some(accountId)
  }

  /**
   * What one transaction does to one account: the source receives the
   * signed total, the destination of a transfer receives its magnitude.
   */
  function Effect(t: Transaction, accountId: Id): (r: real)
    ensures !Involves(t, accountId) ==> r == 0.0
    ensures t.accountId == accountId && !(t.txType == Transfer && t.toAccountId == Some(accountId)) ==>
      r == SignedTotal(t)
    ensures t.accountId != accountId && t.txType == Transfer && t.toAccountId == Some(accountId) ==>
      r == Abs(SignedTotal(t))
    ensures t.accountId != accountId && t.txType != Transfer ==> r == 0.0
  {
    (if t.accountId == accountId then SignedTotal(t) else 0.0) +
    (if t.toAccountId == Some(accountId) && t.txType == Transfer then Abs(SignedTotal(t)) else 0.0)
  }

  /** The balance of `a` after replaying `txs` from its initial balance (the specification). */
  function Balance(a: Account, txs: seq<Transaction>): real
  {
    if txs == [] then a.initialBalance
    else Balance(a, txs[..|txs| - 1]) + Effect(txs[|txs| - 1], a.id)
  }

  /** The per-account loop of the pages: filter the account's transactions, then add them up. */
  method CalculatedBalance(a: Account, txs: seq<Transaction>) returns (balance: real)
    ensures balance == Balance(a, txs)
  {
    balance := a.initialBalance;
    for i := 0 to |txs|
      invariant balance == Balance(a, txs[..i])
    {
      var t := txs[i];
      assert txs[..i + 1][..i] == txs[..i];
      if Involves(t, a.id) {
        var total := SignedTotal(t);
        if t.accountId == a.id {
          balance := balance + total;
        }
        if t.toAccountId == Some(a.id) && t.txType == Transfer {
          balance := balance + Abs(total);
        }
      }
    }
    assert txs[..|txs|] == txs;
  }

  /** The sum of every listed account's balance (the pages' `reduce`). */
  function TotalBalance(accounts: seq<Account>, txs: seq<Transaction>): real
  {
    if accounts == [] then 0.0
    else TotalBalance(accounts[..|accounts| - 1], txs) + Balance(accounts[|accounts| - 1], txs)
  }

  /** app/accounts/page.tsx: every account with its stored balance replaced by the computed one. */
  method AccountsWithCalculatedBalances(accounts: seq<Account>, txs: seq<Transaction>) returns (r: seq<Account>)
    ensures |r| == |accounts|
    ensures forall i :: 0 <= i < |r| ==> r[i] == accounts[i].(currentBalance := Some(Balance(accounts[i], txs)))
  {
    r := [];
    for i := 0 to |accounts|
      invariant |r| == i
      invariant forall j :: 0 <= j < i ==> r[j] == accounts[j].(currentBalance := Some(Balance(accounts[j], txs)))
    {
      var b := CalculatedBalance(accounts[i], txs);
      r := r + [accounts[i].(currentBalance := Some(b))];
    }
  }

  /** The forecast, cash-flow and budget pages: the sum of the computed balances. */
  method CurrentTotalBalance(accounts: seq<Account>, txs: seq<Transaction>) returns (total: real)
    ensures total == TotalBalance(accounts, txs)
  {
    total := 0.0;
    for i := 0 to |accounts|
      invariant total == TotalBalance(accounts[..i], txs)
    {
      assert accounts[..i + 1][..i] == accounts[..i];
      var b := CalculatedBalance(accounts[i], txs);
      total := total + b;
    }
    assert accounts[..|accounts|] == accounts;
  }

  // ---------------------------------------------------------------------
  // Order independence

  lemma {:induction false} BalanceAppend(a: Account, xs: seq<Transaction>, ys: seq<Transaction>)
    ensures Balance(a, xs + ys) == Balance(a, xs) + Balance(a, ys) - a.initialBalance
    decreases |ys|
  {
    if ys == [] {
      assert xs + ys == xs;
    } else {
      assert (xs + ys)[..|xs + ys| - 1] == xs + ys[..|ys| - 1];
      BalanceAppend(a, xs, ys[..|ys| - 1]);
    }
  }

  lemma MultisetRemoveAt<T>(ys: seq<T>, k: int)
    requires 0 <= k < |ys|
    ensures multiset(ys[..k] + ys[k + 1..]) == multiset(ys) - multiset{ys[k]}
  {
    assert ys == ys[..k] + [ys[k]] + ys[k + 1..];
  }

  lemma BalanceSingle(a: Account, t: Transaction)
    ensures Balance(a, [t]) == a.initialBalance + Effect(t, a.id)
  {
    assert [t][..0] == [];
  }

  lemma BalanceRemoveAt(a: Account, ys: seq<Transaction>, k: int)
    requires 0 <= k < |ys|
    ensures Balance(a, ys) == Balance(a, ys[..k] + ys[k + 1..]) + Effect(ys[k], a.id)
  {
    var t, pre, post := ys[k], ys[..k], ys[k + 1..];
    var e, z := Effect(t, a.id), a.initialBalance;
    assert ys == pre + ([t] + post);
    assert Balance(a, [t]) == z + e by { BalanceSingle(a, t); }
    assert Balance(a, [t] + post) == Balance(a, [t]) + Balance(a, post) - z by { BalanceAppend(a, [t], post); }
    assert Balance(a, pre + ([t] + post)) == Balance(a, pre) + Balance(a, [t] + post) - z by {
      BalanceAppend(a, pre, [t] + post);
    }
    assert Balance(a, pre + post) == Balance(a, pre) + Balance(a, post) - z by { BalanceAppend(a, pre, post); }
  }

  /** Replaying the same transactions in any order gives the same balance. */
  lemma {:induction false} BalanceOrderIndependent(a: Account, xs: seq<Transaction>, ys: seq<Transaction>)
    requires multiset(xs) == multiset(ys)
    ensures Balance(a, xs) == Balance(a, ys)
    decreases |xs|
  {
    if xs != [] {
      var t := xs[|xs| - 1];
      var rest := xs[..|xs| - 1];
      assert t in multiset(ys) by { assert t in multiset(xs); }
      var k :| 0 <= k < |ys| && ys[k] == t;
      var others := ys[..k] + ys[k + 1..];
      assert multiset(rest) == multiset(others) by {
        MultisetRemoveAt(ys, k);
        MultisetRemoveAt(xs, |xs| - 1);
        assert xs[..|xs| - 1] + xs[|xs|..] == rest;
      }
      BalanceOrderIndependent(a, rest, others);
      BalanceRemoveAt(a, ys, k);
    }
  }

  // ---------------------------------------------------------------------
  // Conservation

  function Ids(accounts: seq<Account>): seq<Id>
  {
    seq(|accounts|, i requires 0 <= i < |accounts| => accounts[i].id)
  }

  predicate DistinctIds(accounts: seq<Account>)
  {
    forall i, j :: 0 <= i < j < |accounts| ==> accounts[i].id != accounts[j].id
  }

  /**
   * What one transaction adds to the sum of the listed accounts' balances:
   * its signed total when its source is listed, and the magnitude again
   * when it is a transfer into a listed account.
   */
  function Flow(t: Transaction, ids: seq<Id>): real
  {
    (if t.accountId in ids then SignedTotal(t) else 0.0) +
    (if t.txType == Transfer && t.toAccountId.Some? && t.toAccountId.value in ids then Abs(SignedTotal(t)) else 0.0)
  }

  function TotalFlow(txs: seq<Transaction>, ids: seq<Id>): real
  {
    if txs == [] then 0.0 else TotalFlow(txs[..|txs| - 1], ids) + Flow(txs[|txs| - 1], ids)
  }

  function TotalInitial(accounts: seq<Account>): real
  {
    if accounts == [] then 0.0
    else TotalInitial(accounts[..|accounts| - 1]) + accounts[|accounts| - 1].initialBalance
  }

  function EffectOnAll(t: Transaction, accounts: seq<Account>): real
  {
    if accounts == [] then 0.0
    else EffectOnAll(t, accounts[..|accounts| - 1]) + Effect(t, accounts[|accounts| - 1].id)
  }

  lemma {:induction false} EffectOnAllIsFlow(t: Transaction, accounts: seq<Account>)
    requires DistinctIds(accounts)
    ensures EffectOnAll(t, accounts) == Flow(t, Ids(accounts))
  {
    if accounts != [] {
      var init := accounts[..|accounts| - 1];
      var last := accounts[|accounts| - 1];
      EffectOnAllIsFlow(t, init);
      assert Ids(accounts) == Ids(init) + [last.id];
      assert last.id !in Ids(init);
    }
  }

  lemma {:induction false} TotalBalanceStep(accounts: seq<Account>, txs: seq<Transaction>, t: Transaction)
    ensures TotalBalance(accounts, txs + [t]) == TotalBalance(accounts, txs) + EffectOnAll(t, accounts)
  {
    if accounts != [] {
      var last := accounts[|accounts| - 1];
      TotalBalanceStep(accounts[..|accounts| - 1], txs, t);
      assert (txs + [t])[..|txs|] == txs;
    }
  }

  lemma {:induction false} TotalBalanceOfNothing(accounts: seq<Account>)
    ensures TotalBalance(accounts, []) == TotalInitial(accounts)
  {
    if accounts != [] {
      TotalBalanceOfNothing(accounts[..|accounts| - 1]);
    }
  }

  /**
   * The listed accounts together hold their initial balances plus the flow
   * of every transaction; for accounts with distinct ids this is exact.
   */
  lemma {:induction false} Conservation(accounts: seq<Account>, txs: seq<Transaction>)
    requires DistinctIds(accounts)
    ensures TotalBalance(accounts, txs) == TotalInitial(accounts) + TotalFlow(txs, Ids(accounts))
  {
    if txs == [] {
      TotalBalanceOfNothing(accounts);
    } else {
      var init := txs[..|txs| - 1];
      var t := txs[|txs| - 1];
      assert txs == init + [t];
      Conservation(accounts, init);
      TotalBalanceStep(accounts, init, t);
      EffectOnAllIsFlow(t, accounts);
    }
  }

  /**
   * A transfer between two listed accounts whose total is stored with the
   * sign the dialogs give it (not positive) moves money without creating
   * any: its flow is zero. Income and expense flow their signed total.
   */
  lemma TransferConserves(t: Transaction, ids: seq<Id>)
    requires t.txType == Transfer && t.accountId in ids
    requires t.toAccountId.Some? && t.toAccountId.value in ids
    requires SignedTotal(t) <= 0.0
    ensures Flow(t, ids) == 0.0
  {
  }

  /** A transfer from an account to itself adds `total + |total|`: nothing when the total is not positive. */
  lemma SelfTransfer(t: Transaction, a: Account)
    requires t.txType == Transfer && t.accountId == a.id && t.toAccountId == Some(a.id)
    ensures Effect(t, a.id) == SignedTotal(t) + Abs(SignedTotal(t))
    ensures SignedTotal(t) <= 0.0 ==> Effect(t, a.id) == 0.0
  {
  }

  /** Every transfer is closed over the listed accounts, with a total that is not positive. */
  predicate ClosedTransfers(txs: seq<Transaction>, ids: seq<Id>)
  {
    forall i :: 0 <= i < |txs| && txs[i].txType == Transfer ==>
      txs[i].accountId in ids && txs[i].toAccountId.Some? && txs[i].toAccountId.value in ids &&
      SignedTotal(txs[i]) <= 0.0
  }

  /** The signed totals of the income and expense transactions whose source is listed. */
  function ExternalTotal(txs: seq<Transaction>, ids: seq<Id>): real
  {
    if txs == [] then 0.0
    else
      var t := txs[|txs| - 1];
      ExternalTotal(txs[..|txs| - 1], ids) + (if t.txType != Transfer && t.accountId in ids then SignedTotal(t) else 0.0)
  }

  lemma {:induction false} ClosedFlowIsExternal(txs: seq<Transaction>, ids: seq<Id>)
    requires ClosedTransfers(txs, ids)
    ensures TotalFlow(txs, ids) == ExternalTotal(txs, ids)
  {
    if txs != [] {
      var init := txs[..|txs| - 1];
      assert ClosedTransfers(init, ids) by {
        forall i | 0 <= i < |init| && init[i].txType == Transfer
          ensures init[i].accountId in ids && init[i].toAccountId.Some? && init[i].toAccountId.value in ids &&
            SignedTotal(init[i]) <= 0.0
        {
          assert init[i] == txs[i];
        }
      }
      ClosedFlowIsExternal(init, ids);
      var t := txs[|txs| - 1];
      if t.txType == Transfer {
        TransferConserves(t, ids);
      }
    }
  }

  /**
   * When every transfer moves a non-positive total between two listed
   * accounts, the current total balance is the initial balances plus the
   * income and expense booked on listed accounts.
   */
  lemma CurrentBalanceWithClosedTransfers(accounts: seq<Account>, txs: seq<Transaction>)
    requires DistinctIds(accounts) && ClosedTransfers(txs, Ids(accounts))
    ensures TotalBalance(accounts, txs) == TotalInitial(accounts) + ExternalTotal(txs, Ids(accounts))
  {
    Conservation(accounts, txs);
    ClosedFlowIsExternal(txs, Ids(accounts));
  }

  /** A transfer whose total is positive is credited to both sides. */
  lemma PositiveTransferCreatesMoney(t: Transaction, ids: seq<Id>)
    requires t.txType == Transfer && t.accountId in ids
    requires t.toAccountId.Some? && t.toAccountId.value in ids
    requires SignedTotal(t) > 0.0
    ensures Flow(t, ids) == 2.0 * SignedTotal(t)
  {
  }

  /**
   * An account opened with 1000, an expense of 120 from it and a transfer
   * of 200 from it to a second account: 680 remain, the second account
   * gains 200.
   */
  lemma WorkedExample(a: Account, b: Account, expense: Transaction, transfer: Transaction)
    requires a.id != b.id && a.initialBalance == 1000.0 && b.initialBalance == 0.0
    requires expense.txType == Expense && expense.accountId == a.id && expense.toAccountId == None
    requires expense.amountWithVat == Some(-120.0) && expense.k2Amount == None
    requires transfer.txType == Transfer && transfer.accountId == a.id && transfer.toAccountId == Some(b.id)
    requires transfer.amountWithVat == Some(-200.0) && transfer.k2Amount == None
    ensures Balance(a, [expense, transfer]) == 680.0
    ensures Balance(b, [expense, transfer]) == 200.0
  {
    assert [expense, transfer][..1] == [expense];
    assert [expense][..0] == [];
    assert SignedTotal(expense) == -120.0;
    assert SignedTotal(transfer) == -200.0;
    assert Balance(a, [expense]) == 880.0;
    assert Balance(b, [expense]) == 0.0;
  }
}
