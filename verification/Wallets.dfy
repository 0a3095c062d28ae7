/**
  Balances of wallets, of apps and of the node itself, and how changes of the table move them.
 */
module Wallets {
  import opened Wrappers
  import opened Ledger
  import opened Queries
  import opened LedgerSteps

  // What a row contributes to the balance of a wallet: an app, or with None the node itself.
  function Worth(who: Option<nat>): Row -> int {
    (r: Row) =>
      if r.appId != who then 0
      else (if IsReceipt(r) then r.amountMsat else 0) - (if IsSpend(r) then Spent(r) else 0)
  }

  function WalletBalanceMsat(rows: Table, who: Option<nat>): int {
    Sum(rows, Worth(who))
  }

  lemma {:induction false} WalletBalanceIsIsolatedBalance(rows: Table, app: nat)
    ensures WalletBalanceMsat(rows, Some(app)) == IsolatedBalanceMsat(rows, app)
  {
    SumDifference(rows, ReceivedBy(app), SpentBy(app), Worth(Some(app)));
  }

  lemma {:induction false} UpdateMovesBalances(rows: Table, id: nat, r: Row)
    requires id < |rows|
    ensures forall who :: WalletBalanceMsat(rows[id := r], who) == WalletBalanceMsat(rows, who) - Worth(who)(rows[id]) + Worth(who)(r)
  {
    forall who
      ensures WalletBalanceMsat(rows[id := r], who)
              == WalletBalanceMsat(rows, who) - Worth(who)(rows[id]) + Worth(who)(r)
    {
      SumUpdate(rows, id, r, Worth(who));
    }
  }

  lemma {:induction false} AppendMovesBalances(rows: Table, r: Row)
    ensures forall who :: WalletBalanceMsat(rows + [r], who) == WalletBalanceMsat(rows, who) + Worth(who)(r)
  {
    forall who
      ensures WalletBalanceMsat(rows + [r], who) == WalletBalanceMsat(rows, who) + Worth(who)(r)
    {
      SumAppend(rows, r, Worth(who));
    }
  }

  ghost predicate SameBalances(before: Table, after: Table) {
    forall who :: WalletBalanceMsat(after, who) == WalletBalanceMsat(before, who)
  }

  // One wallet has received an amount and no other has changed.
  ghost predicate Received(before: Table, after: Table, owner: Option<nat>, amountMsat: nat) {
    forall who :: WalletBalanceMsat(after, who) == WalletBalanceMsat(before, who)
      + if who == owner then amountMsat else 0
  }

  /** Settling an incoming row gives its owner the amount, if the invoice had not been settled before. */
  lemma {:induction false} SettlingPaysOwner(rows: Table, id: nat, preimage: string, feeMsat: nat, selfPayment: bool,
                                             now: int)
    requires id < |rows| && rows[id].kind == Incoming
    ensures var r := MarkTransactionSettled(rows, id, preimage, feeMsat, selfPayment, now);
            Received(rows, r.rows, rows[id].appId, if r.outcome.SettledNow? then rows[id].amountMsat else 0)
  {
    var r := rows[id];
    UpdateMovesBalances(rows, id, SettledRow(r, preimage, feeMsat, selfPayment, now));
    if r.state == Settled {
      assert Matches(r, r.kind, Some(Settled), r.paymentRequest, r.paymentHash);
    }
  }

  // What its payer gets back when a pending payment stops weighing on the balance.
  function Released(who: Option<nat>, payment: Row): int {
    if who == payment.appId then Spent(payment) else 0
  }

  /** Settling a pending payment exchanges its reserve for its fee, if the invoice had not been paid before. */
  lemma {:induction false} SettlingChargesPayer(rows: Table, id: nat, preimage: string, feeMsat: nat,
                                                selfPayment: bool, now: int)
    requires id < |rows| && rows[id].kind == Outgoing && rows[id].state == Pending
    ensures var r := MarkTransactionSettled(rows, id, preimage, feeMsat, selfPayment, now);
            forall who :: WalletBalanceMsat(r.rows, who) == WalletBalanceMsat(rows, who)
              + if r.outcome.SettledNow? && who == rows[id].appId then Spent(rows[id]) - rows[id].amountMsat - feeMsat else 0
  {
    UpdateMovesBalances(rows, id, SettledRow(rows[id], preimage, feeMsat, selfPayment, now));
  }

  /** Failing a pending payment gives its payer back all it weighed. */
  lemma {:induction false} FailingReleases(rows: Table, id: nat)
    requires id < |rows| && rows[id].kind == Outgoing && rows[id].state == Pending
    ensures forall who :: WalletBalanceMsat(MarkPaymentFailed(rows, id).rows, who) == WalletBalanceMsat(rows, who) + Released(who, rows[id])
  {
    UpdateMovesBalances(rows, id, rows[id].(state := Failed, feeReserveMsat := 0));
  }
}
