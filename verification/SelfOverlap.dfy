/**
  A run in which a hold invoice paid from this node is cancelled between the two halves of a settle
  call: its payer fails and gets its money back, and its payee is credited all the same.
 */
module SelfOverlap {
  import opened Wrappers
  import opened Ledger
  import opened LedgerSteps
  import opened LedgerRuns
  import opened SelfPaymentCalls
  import opened SelfPayments
  import HoldOverlap

  const INVOICE := HoldOverlap.INVOICE
  const PAYMENT := HoldOverlap.PAYMENT
  const ACCEPTED := HoldOverlap.ACCEPTED
  const FAILED_INVOICE := HoldOverlap.FAILED_INVOICE
  const FAILED_PAYMENT := HoldOverlap.FAILED_PAYMENT

  const MAKE := Elsewhere(Invoice(None, 1000, "r", "h", None, false, true))
  const CANCEL := Elsewhere(Fail(0))

  // The invoice is made, and a call decides to pay it, inserts its payment, finds it a hold invoice and marks it
  // accepted.
  const PAYING: seq<Move> := [MAKE] + [Advance(0)] + [Advance(0)] + [Advance(0)] + [Advance(0)]

  // A settle call finds it accepted, another call fails it, and the payer is woken and fails.
  const FAILING: seq<Move> := PAYING + [FindToSettle("h", "p")] + [CANCEL] + [Wake(0, 0, true)] + [Advance(0)]
  const RUN: seq<Move> := FAILING + [MarkSettled(0)]

  function Payer(stage: Stage): Call {
    Call(None, "r", "h", 1000, stage)
  }

  lemma {:induction false} PlayOn(setup: Setup, n: Node, moves: seq<Move>, move: Move)
    ensures Play(setup, n, moves + [move]) == Step(setup, Play(setup, n, moves), move)
  {
    assert (moves + [move])[..|moves|] == moves;
  }

  // What matters of a state.
  predicate At(n: Node, rows: Table, stage: Stage) {
    n.s.w.rows == rows && n.s.w.now == 0 && n.s.calls == [Payer(stage)]
  }

  lemma {:induction false} InvoiceIsMade(setup: Setup)
    ensures var n := Step(setup, Start([Payer(Started)]), MAKE); At(n, [INVOICE], Started) && n.lookups == []
  {
    assert [] + [INVOICE] == [INVOICE];
  }

  lemma {:induction false} PayerDecides(setup: Setup, n: Node)
    requires At(n, [INVOICE], Started)
    ensures At(Step(setup, n, Advance(0)), [INVOICE], Decided) && Step(setup, n, Advance(0)).lookups == n.lookups
  {
    assert Matches(INVOICE, Incoming, None, "r", "h");
    assert FindRow(n.s.w.rows, Incoming, None, "r", "h") == Some(0);
  }

  lemma {:induction false} PayerInserts(setup: Setup, n: Node)
    requires At(n, [INVOICE], Decided)
    ensures At(Step(setup, n, Advance(0)), [INVOICE, PAYMENT], Inserted(1))
    ensures Step(setup, n, Advance(0)).lookups == n.lookups
  {
    assert [INVOICE] + [PAYMENT] == [INVOICE, PAYMENT];
    assert InsertPayment(setup, n.s.w.rows, 0, None, 1000, "r", "h", true) == Ok([INVOICE] + [PAYMENT]);
  }

  lemma {:induction false} PayerFindsHold(setup: Setup, n: Node)
    requires At(n, [INVOICE, PAYMENT], Inserted(1))
    ensures At(Step(setup, n, Advance(0)), [INVOICE, PAYMENT], Waiting(1, 0))
    ensures Step(setup, n, Advance(0)).lookups == n.lookups
  {
    assert Matches(INVOICE, Incoming, Some(Pending), "r", "h");
    assert FindRow(n.s.w.rows, Incoming, Some(Pending), "r", "h") == Some(0);
  }

  lemma {:induction false} PayerAccepts(setup: Setup, n: Node)
    requires At(n, [INVOICE, PAYMENT], Waiting(1, 0))
    ensures At(Step(setup, n, Advance(0)), [ACCEPTED, PAYMENT], Parked(1, Some(0)))
    ensures Step(setup, n, Advance(0)).lookups == n.lookups
  {
    assert IsAcceptable(INVOICE, "r", "h");
    var r := MarkHoldInvoiceAccepted(n.s.w.rows, "r", "h", true);
    assert r.accepted == Some(0) && r.rows == [ACCEPTED, PAYMENT];
  }

  lemma {:induction false} SettleFinds(setup: Setup, n: Node)
    requires At(n, [ACCEPTED, PAYMENT], Parked(1, Some(0))) && n.lookups == []
    ensures var n' := Step(setup, n, FindToSettle("h", "p"));
            At(n', [ACCEPTED, PAYMENT], Parked(1, Some(0))) && n'.lookups == [Lookup(0, "p", true)]
  {
    assert Matches(ACCEPTED, Incoming, Some(Accepted), "", "h");
    assert FindRow(n.s.w.rows, Incoming, Some(Accepted), "", "h") == Some(0);
  }

  lemma {:induction false} InvoiceIsCancelled(setup: Setup, n: Node)
    requires At(n, [ACCEPTED, PAYMENT], Parked(1, Some(0)))
    ensures var n' := Step(setup, n, CANCEL);
            At(n', [FAILED_INVOICE, PAYMENT], Parked(1, Some(0))) && 0 in n'.failed && n'.lookups == n.lookups
  {
    assert MarkPaymentFailed(n.s.w.rows, 0).rows == [FAILED_INVOICE, PAYMENT];
  }

  lemma {:induction false} PayerFails(setup: Setup, n: Node)
    requires At(n, [FAILED_INVOICE, PAYMENT], Parked(1, Some(0))) && 0 in n.failed
    ensures var n' := Step(setup, Step(setup, n, Wake(0, 0, true)), Advance(0));
            At(n', [FAILED_INVOICE, FAILED_PAYMENT], Returned(false)) && n'.lookups == n.lookups
  {
    var m := Step(setup, n, Wake(0, 0, true));
    assert At(m, [FAILED_INVOICE, PAYMENT], Missed(1));
    assert MarkPaymentFailed(m.s.w.rows, 1).rows == [FAILED_INVOICE, FAILED_PAYMENT];
  }

  lemma {:induction false} PayeeIsCredited(setup: Setup, n: Node)
    requires At(n, [FAILED_INVOICE, FAILED_PAYMENT], Returned(false)) && n.lookups == [Lookup(0, "p", true)]
    ensures Spoils(n, MarkSettled(0))
    ensures Step(setup, n, MarkSettled(0)).s.w.rows == [SettledRow(FAILED_INVOICE, "p", 0, true, 0), FAILED_PAYMENT]
  {
    assert FindSettled(n.s.w.rows, FAILED_INVOICE) == None;
  }

  lemma {:induction false} PayingRuns(setup: Setup)
    ensures var n := Play(setup, Start([Payer(Started)]), PAYING);
            At(n, [ACCEPTED, PAYMENT], Parked(1, Some(0))) && n.lookups == []
  {
    var start := Start([Payer(Started)]);
    PlayOn(setup, start, [], MAKE);
    assert [] + [MAKE] == [MAKE];
    InvoiceIsMade(setup);
    PlayOn(setup, start, [MAKE], Advance(0));
    PayerDecides(setup, Play(setup, start, [MAKE]));
    PlayOn(setup, start, [MAKE] + [Advance(0)], Advance(0));
    PayerInserts(setup, Play(setup, start, [MAKE] + [Advance(0)]));
    PlayOn(setup, start, [MAKE] + [Advance(0)] + [Advance(0)], Advance(0));
    PayerFindsHold(setup, Play(setup, start, [MAKE] + [Advance(0)] + [Advance(0)]));
    PlayOn(setup, start, [MAKE] + [Advance(0)] + [Advance(0)] + [Advance(0)], Advance(0));
    PayerAccepts(setup, Play(setup, start, [MAKE] + [Advance(0)] + [Advance(0)] + [Advance(0)]));
  }

  lemma {:induction false} FailingRuns(setup: Setup)
    ensures var n := Play(setup, Start([Payer(Started)]), FAILING);
            At(n, [FAILED_INVOICE, FAILED_PAYMENT], Returned(false)) && n.lookups == [Lookup(0, "p", true)]
  {
    var start := Start([Payer(Started)]);
    PayingRuns(setup);
    PlayOn(setup, start, PAYING, FindToSettle("h", "p"));
    SettleFinds(setup, Play(setup, start, PAYING));
    PlayOn(setup, start, PAYING + [FindToSettle("h", "p")], CANCEL);
    InvoiceIsCancelled(setup, Play(setup, start, PAYING + [FindToSettle("h", "p")]));
    PlayOn(setup, start, PAYING + [FindToSettle("h", "p")] + [CANCEL], Wake(0, 0, true));
    PlayOn(setup, start, PAYING + [FindToSettle("h", "p")] + [CANCEL] + [Wake(0, 0, true)], Advance(0));
    PayerFails(setup, Play(setup, start, PAYING + [FindToSettle("h", "p")] + [CANCEL]));
  }

  lemma {:induction false} TotalsAtEnd()
    ensures var rows := [SettledRow(FAILED_INVOICE, "p", 0, true, 0), FAILED_PAYMENT];
            TotalBalanceMsat(rows) == 1000 && ExternalReceiptsMsat(rows) == 0
  {
    var first := SettledRow(FAILED_INVOICE, "p", 0, true, 0);
    assert [first, FAILED_PAYMENT] == [first] + [FAILED_PAYMENT] && [first] == [] + [first];
    SumAppend([], first, Receipt);
    SumAppend([], first, Spending);
    SumAppend([], first, ExternalReceipt);
    SumAppend([first], FAILED_PAYMENT, Receipt);
    SumAppend([first], FAILED_PAYMENT, Spending);
    SumAppend([first], FAILED_PAYMENT, ExternalReceipt);
  }

  lemma {:induction false} OnlyTruths(setup: Setup, decode: string -> Option<Bolt11>)
    requires Says(decode, "r", "h", 1000)
    ensures TruthfulPlay(setup, decode, Start([Payer(Started)]), RUN)
  {
    assert RUN[0] == MAKE && RUN[6] == CANCEL;
    assert forall i :: 0 <= i < |RUN| && i != 0 && i != 6 ==> !RUN[i].Elsewhere?;
    assert RUN[..0] == [] && RUN[..6] == PAYING + [FindToSettle("h", "p")];
    PayingRuns(setup);
    PlayOn(setup, Start([Payer(Started)]), PAYING, FindToSettle("h", "p"));
    SettleFinds(setup, Play(setup, Start([Payer(Started)]), PAYING));
  }

  /** In this run of truthful steps nothing was received from outside, and yet there is a balance. */
  lemma {:induction false} OverlapCreatesMoney(setup: Setup, decode: string -> Option<Bolt11>)
    requires Says(decode, "r", "h", 1000)
    ensures CallsFor(decode, Request("r", None, None), Payer(Started))
    ensures TruthfulPlay(setup, decode, Start([Payer(Started)]), RUN)
    ensures var rows := Play(setup, Start([Payer(Started)]), RUN).s.w.rows;
            TotalBalanceMsat(rows) == 1000 && ExternalReceiptsMsat(rows) == 0
  {
    FailingRuns(setup);
    OnlyTruths(setup, decode);
    PlayOn(setup, Start([Payer(Started)]), FAILING, MarkSettled(0));
    PayeeIsCredited(setup, Play(setup, Start([Payer(Started)]), FAILING));
    TotalsAtEnd();
  }
}
