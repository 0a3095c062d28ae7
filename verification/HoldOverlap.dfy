/**
  A run in which a cancel call slips between the two halves of a settle call: the payer is told
  that the hold invoice was cancelled, and fails, and the payee is paid all the same.
 */
module HoldOverlap {
  import opened Wrappers
  import opened Ledger
  import opened LedgerSteps
  import opened LedgerRuns
  import opened HoldPayments

  const INVOICE := InvoiceRow(None, 1000, "r", "h", None, false, true, 0)
  const PAYMENT := PendingPayment(None, 1000, "r", "h", None, true, 0)
  const CANCELED := HoldInvoiceCanceled(0)

  // An invoice and its payment from this node are made, and the payer marks the invoice accepted.
  const MAKE := Elsewhere(Invoice(None, 1000, "r", "h", None, false, true))
  const PAY := Elsewhere(Pay(None, 1000, "r", "h", true))
  const PAID: seq<Move> := [MAKE] + [PAY]
  const PAYING: seq<Move> := PAID + [Intercept(1)] + [Subscribe(0)] + [NodeInfo(0, true)] + [MarkAccepted(0)]

  // A settle call and a cancel call find the invoice accepted, and the cancel call fails it.
  const CANCELLING: seq<Move> := PAYING + [FindToSettle("p")] + [FindToCancel("h")] + [Mark(1)]

  // The payer is told and fails, and the settle call goes on.
  const FAILING: seq<Move> := CANCELLING + [Deliver(CANCELED)] + [Receive(0, CANCELED)] + [Finish(0)]
  const RUN: seq<Move> := FAILING + [Mark(0)]

  lemma {:induction false} PlayOn(setup: Setup, sha256: string -> string, s: System, moves: seq<Move>, move: Move)
    ensures Play(setup, sha256, s, moves + [move]) == Step(setup, sha256, Play(setup, sha256, s, moves), move)
  {
    assert (moves + [move])[..|moves|] == moves;
  }

  function AwaitingPayer(): Waiter {
    Waiter(1, "r", "h", Awaiting, {}, {}, Some(0))
  }

  lemma {:induction false} InvoiceIsPaid(setup: Setup, sha256: string -> string)
    ensures var s := Step(setup, sha256, Step(setup, sha256, START, MAKE), PAY);
            s == System(World(0, [INVOICE, PAYMENT], multiset{}, multiset{}), [], [])
  {
    var s := Step(setup, sha256, START, MAKE);
    assert s.w.rows == [INVOICE];
    assert [INVOICE] + [PAYMENT] == [INVOICE, PAYMENT];
  }

  lemma {:induction false} PayerListens(setup: Setup, sha256: string -> string, s: System)
    requires s == System(World(0, [INVOICE, PAYMENT], multiset{}, multiset{}), [], [])
    ensures var t := Step(setup, sha256, Step(setup, sha256, Step(setup, sha256, s, Intercept(1)), Subscribe(0)),
                          NodeInfo(0, true));
            t == s.(waiters := [Waiter(1, "r", "h", Ready, {}, {}, None)])
  {
    assert Matches(INVOICE, Incoming, Some(Pending), "r", "h");
    assert MayIntercept(s, 1);
    var s1 := Step(setup, sha256, s, Intercept(1));
    assert s1.waiters == [Waiter(1, "r", "h", Entered, {}, {}, None)];
    assert Ended(s.w.rows) == {};
    var s2 := Step(setup, sha256, s1, Subscribe(0));
    assert s2.waiters == [Waiter(1, "r", "h", Subscribed, {}, {}, None)];
  }

  lemma {:induction false} PayerAccepts(setup: Setup, sha256: string -> string, s: System)
    requires s == System(World(0, [INVOICE, PAYMENT], multiset{}, multiset{}),
                         [Waiter(1, "r", "h", Ready, {}, {}, None)], [])
    ensures Step(setup, sha256, s, MarkAccepted(0))
         == System(World(0, [INVOICE.(state := Accepted, selfPayment := true), PAYMENT],
                         multiset{HoldInvoiceAccepted(0)}, multiset{}),
                   [AwaitingPayer()], [])
  {
    assert IsAcceptable(INVOICE, "r", "h");
    var r := MarkHoldInvoiceAccepted(s.w.rows, "r", "h", true);
    assert r.accepted == Some(0);
    assert r.rows == [INVOICE.(state := Accepted, selfPayment := true), PAYMENT];
    assert multiset([HoldInvoiceAccepted(0)]) == multiset{HoldInvoiceAccepted(0)};
  }

  const ACCEPTED := INVOICE.(state := Accepted, selfPayment := true)
  const FAILED_INVOICE := ACCEPTED.(state := Failed, feeReserveMsat := 0)
  const FAILED_PAYMENT := PAYMENT.(state := Failed, feeReserveMsat := 0)

  // After both calls have found the invoice.
  lemma {:induction false} BothFind(setup: Setup, sha256: string -> string, s: System)
    requires sha256("p") == "h" && s.w.rows == [ACCEPTED, PAYMENT] && s.calls == []
    ensures Step(setup, sha256, Step(setup, sha256, s, FindToSettle("p")), FindToCancel("h"))
         == s.(calls := [Settling(0, "p", true), HoldCall.Cancelling(0)])
  {
    assert Matches(ACCEPTED, Incoming, Some(Accepted), "", "h");
    assert FindRow(s.w.rows, Incoming, Some(Accepted), "", "h") == Some(0);
  }

  lemma {:induction false} CancelMarks(setup: Setup, sha256: string -> string, s: System)
    requires s.w.rows == [ACCEPTED, PAYMENT] && s.calls == [Settling(0, "p", true), HoldCall.Cancelling(0)]
    ensures var t := Step(setup, sha256, s, Mark(1));
            && t.w.rows == [FAILED_INVOICE, PAYMENT] && t.waiters == s.waiters && CANCELED in t.w.outbox
            && |t.calls| == 2 && t.calls[0] == Settling(0, "p", true)
  {
    var t := Step(setup, sha256, s, Mark(1));
    assert t.w.rows == [FAILED_INVOICE, PAYMENT];
    assert CANCELED in multiset([PaymentFailed(0), CANCELED]);
  }

  lemma {:induction false} PayerIsTold(setup: Setup, sha256: string -> string, s: System)
    requires s.w.rows == [FAILED_INVOICE, PAYMENT] && s.waiters == [AwaitingPayer()] && CANCELED in s.w.outbox
    ensures var t := Step(setup, sha256, Step(setup, sha256, s, Deliver(CANCELED)), Receive(0, CANCELED));
            && t.w.rows == s.w.rows && t.calls == s.calls
            && t.waiters == [AwaitingPayer().(stage := Told(Some(CANCELED), None), inbox := {CANCELED})]
  {
    var s1 := Step(setup, sha256, s, Deliver(CANCELED));
    assert Subject(CANCELED) == Some(0) && Wakes(s.w.rows, CANCELED, "r");
    assert Heard(s.w.rows, CANCELED, s.waiters[0]) == AwaitingPayer().(inbox := {CANCELED});
    assert s1.waiters == [AwaitingPayer().(inbox := {CANCELED})];
  }

  lemma {:induction false} PayerFails(setup: Setup, sha256: string -> string, s: System)
    requires s.w.rows == [FAILED_INVOICE, PAYMENT]
    requires s.waiters == [AwaitingPayer().(stage := Told(Some(CANCELED), None), inbox := {CANCELED})]
    ensures var t := Step(setup, sha256, s, Finish(0));
            && t.w.rows == [FAILED_INVOICE, FAILED_PAYMENT] && t.calls == s.calls
            && t.waiters == [AwaitingPayer().(stage := Finished(Some(CANCELED), None), inbox := {CANCELED})]
  {
    assert Step(setup, sha256, s, Finish(0)).w.rows == [FAILED_INVOICE, FAILED_PAYMENT];
  }

  lemma {:induction false} PayeeIsPaid(setup: Setup, sha256: string -> string, s: System)
    requires s.w.rows == [FAILED_INVOICE, FAILED_PAYMENT] && |s.calls| == 2 && s.calls[0] == Settling(0, "p", true)
    ensures Spoils(s, Mark(0))
    ensures var t := Step(setup, sha256, s, Mark(0));
            && t.waiters == s.waiters
            && t.w.rows == [SettledRow(FAILED_INVOICE, "p", 0, true, s.w.now), FAILED_PAYMENT]
  {
    assert FindSettled(s.w.rows, FAILED_INVOICE) == None;
  }

  lemma {:induction false} Paying(setup: Setup, sha256: string -> string)
    ensures var s := Play(setup, sha256, START, PAYING);
            s.w.rows == [ACCEPTED, PAYMENT] && s.calls == [] && s.waiters == [AwaitingPayer()]
  {
    PlayOn(setup, sha256, START, [], MAKE);
    assert [] + [MAKE] == [MAKE];
    PlayOn(setup, sha256, START, [MAKE], PAY);
    PlayOn(setup, sha256, START, PAID, Intercept(1));
    PlayOn(setup, sha256, START, PAID + [Intercept(1)], Subscribe(0));
    PlayOn(setup, sha256, START, PAID + [Intercept(1)] + [Subscribe(0)], NodeInfo(0, true));
    PlayOn(setup, sha256, START, PAID + [Intercept(1)] + [Subscribe(0)] + [NodeInfo(0, true)], MarkAccepted(0));
    InvoiceIsPaid(setup, sha256);
    var s := Play(setup, sha256, START, PAID);
    PayerListens(setup, sha256, s);
    PayerAccepts(setup, sha256, s.(waiters := [Waiter(1, "r", "h", Ready, {}, {}, None)]));
  }

  lemma {:induction false} Cancelling(setup: Setup, sha256: string -> string)
    requires sha256("p") == "h"
    ensures var s := Play(setup, sha256, START, CANCELLING);
            && s.w.rows == [FAILED_INVOICE, PAYMENT] && s.waiters == [AwaitingPayer()] && CANCELED in s.w.outbox
            && |s.calls| == 2 && s.calls[0] == Settling(0, "p", true)
  {
    Paying(setup, sha256);
    var s := Play(setup, sha256, START, PAYING);
    PlayOn(setup, sha256, START, PAYING, FindToSettle("p"));
    PlayOn(setup, sha256, START, PAYING + [FindToSettle("p")], FindToCancel("h"));
    PlayOn(setup, sha256, START, PAYING + [FindToSettle("p")] + [FindToCancel("h")], Mark(1));
    BothFind(setup, sha256, s);
    CancelMarks(setup, sha256, s.(calls := [Settling(0, "p", true), HoldCall.Cancelling(0)]));
  }

  lemma {:induction false} Failing(setup: Setup, sha256: string -> string)
    requires sha256("p") == "h"
    ensures var s := Play(setup, sha256, START, FAILING);
            && s.w.rows == [FAILED_INVOICE, FAILED_PAYMENT] && |s.calls| == 2 && s.calls[0] == Settling(0, "p", true)
            && s.waiters == [AwaitingPayer().(stage := Finished(Some(CANCELED), None), inbox := {CANCELED})]
  {
    Cancelling(setup, sha256);
    var s := Play(setup, sha256, START, CANCELLING);
    PlayOn(setup, sha256, START, CANCELLING, Deliver(CANCELED));
    PlayOn(setup, sha256, START, CANCELLING + [Deliver(CANCELED)], Receive(0, CANCELED));
    PlayOn(setup, sha256, START, CANCELLING + [Deliver(CANCELED)] + [Receive(0, CANCELED)], Finish(0));
    PayerIsTold(setup, sha256, s);
    PayerFails(setup, sha256, Play(setup, sha256, START, CANCELLING + [Deliver(CANCELED)] + [Receive(0, CANCELED)]));
  }

  /** The payer has failed and reported the cancellation, and the payee has the money: they do not agree. */
  lemma {:induction false} OverlapEndsInDisagreement(setup: Setup, sha256: string -> string)
    requires sha256("p") == "h"
    ensures TruthfulPlay(setup, sha256, START, RUN)
    ensures var end := Play(setup, sha256, START, RUN);
            && |end.waiters| == 1 && !Agreement(end.w.rows, end.waiters[0])
            && |end.w.rows| == 2 && IsReceipt(end.w.rows[0]) && end.w.rows[1].state == Failed
  {
    Failing(setup, sha256);
    var s := Play(setup, sha256, START, FAILING);
    PlayOn(setup, sha256, START, FAILING, Mark(0));
    PayeeIsPaid(setup, sha256, s);
    var rows := Play(setup, sha256, START, RUN).w.rows;
    assert forall id :: 0 <= id < |rows| && rows[id].kind == Incoming ==> rows[id].state == Settled;
    OnlyTruths(setup, sha256);
  }

  lemma {:induction false} OnlyTruths(setup: Setup, sha256: string -> string)
    ensures TruthfulPlay(setup, sha256, START, RUN)
  {
    assert RUN[0] == MAKE && RUN[1] == PAY;
    assert forall i :: 2 <= i < |RUN| ==> !RUN[i].Elsewhere?;
  }
}
