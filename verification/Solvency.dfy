/**
  Money: no isolated app can overdraw and no budget can be exceeded, in any
  interleaving of the ledger's transactions.

  Both follow from one fact about rows. A pending payment is charged its fee
  reserve, except that the check at creation does not ask for the reserve of a
  self-payment; counted that way, what a row costs never grows once it exists.
 */
module Solvency {
  import opened Wrappers
  import opened Ledger
  import opened Queries
  import opened LedgerSteps
  import opened LedgerRuns
  import opened BudgetWindows

  predicate PendingSelfPayment(r: Row) {
    r.kind == Outgoing && r.state == Pending && r.selfPayment
  }

  function SelfReserve(app: nat): Row -> int {
    (r: Row) => if r.appId == Some(app) && PendingSelfPayment(r) then r.feeReserveMsat else 0
  }

  function SelfReserveSince(app: nat, start: Instant): Row -> int {
    (r: Row) => if r.appId == Some(app) && PendingSelfPayment(r) && r.createdAt > start then r.feeReserveMsat else 0
  }

  // ---------------------------------------------------------------- the environment

  // Backends keep fees within the reserve of the row, self-payments are free, and no failed payment settles later.
  predicate Trusted(rows: Table, op: Op) {
    && Possible(op)
    && (op.Settle? && op.id < |rows| && rows[op.id].kind == Outgoing ==>
      var r := rows[op.id];
      r.state != Failed && (r.state == Pending ==> op.feeMsat <= if r.selfPayment then 0 else r.feeReserveMsat))
  }

  ghost predicate TrustedRun(setup: Setup, w: World, ops: seq<Op>) {
    forall i :: 0 <= i < |ops| ==> Trusted(Run(setup, w, ops[..i]).rows, ops[i])
  }

  lemma TrustedPrefix(setup: Setup, w: World, ops: seq<Op>)
    requires TrustedRun(setup, w, ops) && ops != []
    ensures TrustedRun(setup, w, ops[..|ops| - 1])
    ensures Trusted(Run(setup, w, ops[..|ops| - 1]).rows, ops[|ops| - 1])
  {
    var init := ops[..|ops| - 1];
    forall i | 0 <= i < |init|
      ensures Trusted(Run(setup, w, init[..i]).rows, init[i])
    {
      assert init[..i] == ops[..i];
    }
  }

  predicate NoOutgoingAccepted(rows: Table) {
    forall id :: 0 <= id < |rows| ==> !(rows[id].kind == Outgoing && rows[id].state == Accepted)
  }

  lemma {:induction false} NoOutgoingAcceptedKept(setup: Setup, w: World, op: Op)
    requires NoOutgoingAccepted(w.rows)
    ensures NoOutgoingAccepted(Apply(setup, w, op).rows)
  {
    ApplyEvolves(setup, w, op);
  }

  // ---------------------------------------------------------------- what a row costs

  // What a row charges its owner, without the reserve of a pending self-payment.
  function Charge(r: Row): nat {
    if !IsSpend(r) then 0
    else if PendingSelfPayment(r) then r.amountMsat + r.feeMsat
    else Spent(r)
  }

  // A row after a step is no worse for its owner than before.
  predicate NoWorse(before: Row, after: Row) {
    && after.appId == before.appId && after.createdAt == before.createdAt
    && Charge(after) <= Charge(before)
    && (IsReceipt(before) ==> IsReceipt(after) && after.amountMsat == before.amountMsat)
  }

  // A trusted step changes at most one row, to its owner's benefit, or adds one row.
  ghost predicate GoodStep(setup: Setup, now: Instant, before: Table, after: Table) {
    || after == before
    || (exists id, r :: 0 <= id < |before| && NoWorse(before[id], r) && after == before[id := r])
    || (exists r :: after == before + [r] && GoodAddition(setup, now, before, r))
  }

  predicate GoodAddition(setup: Setup, now: Instant, before: Table, r: Row) {
    || Charge(r) == 0
    || r.appId == None
    || (r.kind == Outgoing && r.createdAt == now
        && Charge(r) == AmountToValidate(r.amountMsat, r.selfPayment)
        && ValidateCanPay(setup, before, now, r.appId, r.amountMsat, r.selfPayment) == None)
  }

  lemma {:induction false} AdditionIsGood(setup: Setup, w: World, op: Op)
    requires Possible(op) && |Apply(setup, w, op).rows| > |w.rows|
    ensures var rows' := Apply(setup, w, op).rows;
            rows' == w.rows + [rows'[|w.rows|]] && GoodAddition(setup, w.now, w.rows, rows'[|w.rows|])
  {
    match op
    case Invoice(_, _, _, _, _, _, _) =>
    case Pay(_, _, _, _, _) =>
    case Keysend(_, _, _, _, _) =>
    case Notify(_, _, _, _, _, _, _) =>
    case Settle(_, _, _, _) => assert false;
    case Fail(_) => assert false;
    case Accept(_, _, _) => assert false;
    case Publish(_) => assert false;
    case Tick(_) => assert false;
  }

  lemma {:induction false} UpdateIsGood(setup: Setup, w: World, op: Op)
    requires Trusted(w.rows, op) && NoOutgoingAccepted(w.rows)
    requires |Apply(setup, w, op).rows| == |w.rows| && Apply(setup, w, op).rows != w.rows
    ensures var rows' := Apply(setup, w, op).rows;
            exists id :: 0 <= id < |w.rows| && rows' == w.rows[id := rows'[id]] && NoWorse(w.rows[id], rows'[id])
  {
    var rows, rows' := w.rows, Apply(setup, w, op).rows;
    match op
    case Settle(id, preimage, fee, self) =>
      SettleImproves(rows, id, preimage, fee, self, w.now);
      assert NoWorse(rows[id], rows'[id]);
    case Fail(id) =>
      assert rows' == rows[id := rows'[id]] && NoWorse(rows[id], rows'[id]);
    case Accept(request, hash, self) =>
      var id := FindAcceptable(rows, 0, request, hash).value;
      assert rows' == rows[id := rows'[id]] && NoWorse(rows[id], rows'[id]);
    case _ =>
      assert false;
  }

  lemma {:induction false} TrustedStepIsGood(setup: Setup, w: World, op: Op)
    requires Trusted(w.rows, op) && NoOutgoingAccepted(w.rows)
    ensures GoodStep(setup, w.now, w.rows, Apply(setup, w, op).rows)
  {
    var rows, rows' := w.rows, Apply(setup, w, op).rows;
    if |rows'| > |rows| {
      AdditionIsGood(setup, w, op);
    } else if rows' != rows {
      ApplyEvolves(setup, w, op);
      UpdateIsGood(setup, w, op);
    }
  }

  lemma {:induction false} SettleImproves(rows: Table, id: nat, preimage: string, feeMsat: nat, selfPayment: bool,
                                          now: Instant)
    requires id < |rows| && Trusted(rows, Settle(id, preimage, feeMsat, selfPayment)) && NoOutgoingAccepted(rows)
    ensures var rows' := MarkTransactionSettled(rows, id, preimage, feeMsat, selfPayment, now).rows;
            NoWorse(rows[id], rows'[id]) && rows' == rows[id := rows'[id]]
  {
    var r := rows[id];
    if r.state == Settled {
      assert Matches(r, r.kind, Some(Settled), r.paymentRequest, r.paymentHash);
    }
  }

  // ---------------------------------------------------------------- solvency

  function Slack(app: nat): Row -> int {
    (r: Row) => if r.appId == Some(app) then (if IsReceipt(r) then r.amountMsat else 0) - Charge(r) else 0
  }

  function Solvent(rows: Table, app: nat): bool {
    IsolatedBalanceMsat(rows, app) + Sum(rows, SelfReserve(app)) >= 0
  }

  lemma SolventIsSlack(rows: Table, app: nat)
    ensures IsolatedBalanceMsat(rows, app) + Sum(rows, SelfReserve(app)) == Sum(rows, Slack(app))
    ensures Sum(rows, SelfReserve(app)) >= 0
  {
    var net: Row -> int := r => SpentBy(app)(r) - SelfReserve(app)(r);
    SumDifference(rows, SpentBy(app), SelfReserve(app), net);
    SumDifference(rows, ReceivedBy(app), net, Slack(app));
    SumNonNegative(rows, SelfReserve(app));
  }

  lemma {:induction false} CheckedAmountIsCovered(setup: Setup, rows: Table, now: Instant, app: nat, amountMsat: nat,
                                                  selfPayment: bool)
    requires app in setup.apps && setup.apps[app].isolated
    requires ValidateCanPay(setup, rows, now, Some(app), amountMsat, selfPayment) == None
    ensures AmountToValidate(amountMsat, selfPayment) <= IsolatedBalanceMsat(rows, app)
  {
  }

  lemma {:induction false} UpdateKeepsSolvency(rows: Table, id: nat, r: Row, app: nat)
    requires id < |rows| && NoWorse(rows[id], r) && Solvent(rows, app)
    ensures Solvent(rows[id := r], app)
  {
    SolventIsSlack(rows, app);
    SolventIsSlack(rows[id := r], app);
    SumUpdate(rows, id, r, Slack(app));
  }

  lemma {:induction false} AdditionKeepsSolvency(setup: Setup, now: Instant, rows: Table, r: Row, app: nat)
    requires GoodAddition(setup, now, rows, r) && Solvent(rows, app)
    requires app in setup.apps && setup.apps[app].isolated
    ensures Solvent(rows + [r], app)
  {
    SolventIsSlack(rows, app);
    SolventIsSlack(rows + [r], app);
    SumAppend(rows, r, Slack(app));
    if Charge(r) != 0 && r.appId == Some(app) {
      CheckedAmountIsCovered(setup, rows, now, app, r.amountMsat, r.selfPayment);
    }
  }

  lemma {:induction false} GoodStepKeepsSolvency(setup: Setup, now: Instant, before: Table, after: Table, app: nat)
    requires GoodStep(setup, now, before, after) && Solvent(before, app)
    requires app in setup.apps && setup.apps[app].isolated
    ensures Solvent(after, app)
  {
    if id, r :| 0 <= id < |before| && NoWorse(before[id], r) && after == before[id := r] {
      UpdateKeepsSolvency(before, id, r, app);
    } else if r :| after == before + [r] && GoodAddition(setup, now, before, r) {
      AdditionKeepsSolvency(setup, now, before, r, app);
    }
  }

  /**
    In every interleaving an app that is isolated throughout keeps its balance,
    plus the fee reserves of its pending self-payments, at zero or above.
   */
  lemma {:induction false} IsolatedAppsStaySolvent(setup: Setup, w: World, ops: seq<Op>, app: nat)
    requires app in setup.apps && setup.apps[app].isolated
    requires NoOutgoingAccepted(w.rows) && Solvent(w.rows, app)
    requires TrustedRun(setup, w, ops)
    ensures NoOutgoingAccepted(Run(setup, w, ops).rows) && Solvent(Run(setup, w, ops).rows, app)
  {
    if ops == [] {
    } else {
      var init, op := ops[..|ops| - 1], ops[|ops| - 1];
      var mid := Run(setup, w, init);
      TrustedPrefix(setup, w, ops);
      IsolatedAppsStaySolvent(setup, w, init, app);
      NoOutgoingAcceptedKept(setup, mid, op);
      TrustedStepIsGood(setup, mid, op);
      GoodStepKeepsSolvency(setup, mid.now, mid.rows, Apply(setup, mid, op).rows, app);
    }
  }

  /**
    The one untrusted step the code does take: a payment marked failed settles after
    all. It keeps its owner solvent exactly when the owner can still afford it.
   */
  lemma {:induction false} LateSettlementSolventIff(rows: Table, id: nat, preimage: string, feeMsat: nat, now: Instant,
                                                    app: nat)
    requires id < |rows| && rows[id].kind == Outgoing && rows[id].state == Failed && rows[id].appId == Some(app)
    requires preimage != "" && FindSettled(rows, rows[id]).None?
    ensures Solvent(MarkTransactionSettled(rows, id, preimage, feeMsat, false, now).rows, app)
            <==> IsolatedBalanceMsat(rows, app) + Sum(rows, SelfReserve(app)) >= rows[id].amountMsat + feeMsat
  {
    var rows' := MarkTransactionSettled(rows, id, preimage, feeMsat, false, now).rows;
    SolventIsSlack(rows, app);
    SolventIsSlack(rows', app);
    SumUpdate(rows, id, rows'[id], Slack(app));
  }

  // ---------------------------------------------------------------- budget

  function ChargeSince(app: nat, start: Instant): Row -> int {
    (r: Row) => if r.appId == Some(app) && r.createdAt > start then Charge(r) else 0
  }

  // Usage in the window without the reserves of pending self-payments in it.
  function NetUsageMsat(rows: Table, app: nat, start: Instant): int {
    BudgetUsageMsat(rows, app, start) - Sum(rows, SelfReserveSince(app, start))
  }

  lemma NetUsageIsCharge(rows: Table, app: nat, start: Instant)
    ensures NetUsageMsat(rows, app, start) == Sum(rows, ChargeSince(app, start))
    ensures NetUsageMsat(rows, app, start) <= BudgetUsageMsat(rows, app, start)
  {
    SumDifference(rows, SpentSince(app, start), SelfReserveSince(app, start), ChargeSince(app, start));
    SumNonNegative(rows, SelfReserveSince(app, start));
  }

  function CurrentStart(setup: Setup, app: nat, now: Instant): Instant
    requires app in setup.payPermissions
  {
    StartOfBudget(setup.payPermissions[app].renewal, now, setup.zone)
  }

  predicate WithinBudget(setup: Setup, now: Instant, rows: Table, app: nat)
    requires app in setup.payPermissions
  {
    NetUsageMsat(rows, app, CurrentStart(setup, app, now)) <= 1000 * setup.payPermissions[app].maxAmountSat + 1998
  }

  // The two divisions of the check lose less than a satoshi each.
  lemma QuotaCheckBound(maxAmountSat: int, toValidate: nat, usage: nat)
    requires toValidate / 1000 <= maxAmountSat - usage / 1000
    ensures toValidate + usage <= 1000 * maxAmountSat + 1998
  {
  }

  lemma {:induction false} GoodStepKeepsBudget(setup: Setup, now: Instant, before: Table, after: Table, app: nat)
    requires GoodStep(setup, now, before, after)
    requires app in setup.apps && app in setup.payPermissions && setup.payPermissions[app].maxAmountSat > 0
    requires WithinBudget(setup, now, before, app)
    ensures WithinBudget(setup, now, after, app)
  {
    var start := CurrentStart(setup, app, now);
    NetUsageIsCharge(before, app, start);
    NetUsageIsCharge(after, app, start);
    if id, r :| 0 <= id < |before| && NoWorse(before[id], r) && after == before[id := r] {
      SumUpdate(before, id, r, ChargeSince(app, start));
    } else if r :| after == before + [r] && GoodAddition(setup, now, before, r) {
      SumAppend(before, r, ChargeSince(app, start));
      if ChargeSince(app, start)(r) > 0 {
        CheckedAmountIsInBudget(setup, before, now, app, r.amountMsat, r.selfPayment);
        SumNonNegative(before, SelfReserveSince(app, start));
      }
    }
  }

  lemma {:induction false} CheckedAmountIsInBudget(setup: Setup, rows: Table, now: Instant, app: nat, amountMsat: nat,
                                                   selfPayment: bool)
    requires app in setup.payPermissions && setup.payPermissions[app].maxAmountSat > 0
    requires ValidateCanPay(setup, rows, now, Some(app), amountMsat, selfPayment) == None
    ensures AmountToValidate(amountMsat, selfPayment) + BudgetUsageMsat(rows, app, CurrentStart(setup, app, now))
         <= 1000 * setup.payPermissions[app].maxAmountSat + 1998
  {
    QuotaCheckBound(setup.payPermissions[app].maxAmountSat, AmountToValidate(amountMsat, selfPayment),
                    BudgetUsageMsat(rows, app, CurrentStart(setup, app, now)));
  }

  /**
    The checks refuse nothing that is affordable: what balance and budget cover, and is not paid or being paid, is
    inserted.
   */
  lemma {:induction false} AffordablePaymentIsInserted(setup: Setup, rows: Table, now: Instant, app: nat,
                                                       amountMsat: nat,
                                                       request: string, hash: string, selfPayment: bool)
    requires app in setup.apps && app in setup.payPermissions
    requires var cost := AmountToValidate(amountMsat, selfPayment);
             && (setup.apps[app].isolated ==> cost <= IsolatedBalanceMsat(rows, app))
             && (setup.payPermissions[app].maxAmountSat > 0 ==>
                   cost + BudgetUsageMsat(rows, app, CurrentStart(setup, app, now)) <= 1000 * setup.payPermissions[app].maxAmountSat)
    requires forall id :: 0 <= id < |rows| ==>
               && !Matches(rows[id], Outgoing, Some(Settled), request, hash)
               && !Matches(rows[id], Outgoing, Some(Pending), request, hash)
    ensures var payment := PendingPayment(Some(app), amountMsat, request, hash, None, selfPayment, now);
            InsertPayment(setup, rows, now, Some(app), amountMsat, request, hash, selfPayment) == Ok(rows + [payment])
  {
    var settled, pending := FindRow(rows, Outgoing, Some(Settled), request, hash), FindRow(rows, Outgoing, Some(Pending), request, hash);
    assert settled.None? && pending.None?;
    QuotaAdmits(setup.payPermissions[app].maxAmountSat, AmountToValidate(amountMsat, selfPayment),
                BudgetUsageMsat(rows, app, CurrentStart(setup, app, now)));
  }

  lemma QuotaAdmits(maxAmountSat: int, toValidate: nat, usage: nat)
    ensures toValidate + usage <= 1000 * maxAmountSat ==> toValidate / 1000 <= maxAmountSat - usage / 1000
  {
  }

  // As time passes rows leave the window and usage falls.
  lemma TimeKeepsBudget(setup: Setup, earlier: Instant, later: Instant, rows: Table, app: nat)
    requires app in setup.payPermissions && earlier <= later
    requires WithinBudget(setup, earlier, rows, app)
    ensures WithinBudget(setup, later, rows, app)
  {
    var s, t := CurrentStart(setup, app, earlier), CurrentStart(setup, app, later);
    StartOfBudgetMonotone(setup.payPermissions[app].renewal, earlier, later, setup.zone);
    NetUsageIsCharge(rows, app, s);
    NetUsageIsCharge(rows, app, t);
    SumLeq(rows, ChargeSince(app, t), ChargeSince(app, s));
  }

  /**
    In every interleaving, and as the window moves forward, what an app with a
    positive maximum has used in its window stays within the maximum and 1998 msat.
   */
  lemma {:induction false} BudgetsAreKept(setup: Setup, w: World, ops: seq<Op>, app: nat)
    requires app in setup.apps && app in setup.payPermissions && setup.payPermissions[app].maxAmountSat > 0
    requires NoOutgoingAccepted(w.rows) && WithinBudget(setup, w.now, w.rows, app)
    requires TrustedRun(setup, w, ops)
    ensures var w' := Run(setup, w, ops); NoOutgoingAccepted(w'.rows) && WithinBudget(setup, w'.now, w'.rows, app)
  {
    if ops == [] {
    } else {
      var init, op := ops[..|ops| - 1], ops[|ops| - 1];
      TrustedPrefix(setup, w, ops);
      BudgetsAreKept(setup, w, init, app);
      TrustedStepKeepsBudget(setup, Run(setup, w, init), op, app);
    }
  }

  lemma {:induction false} TrustedStepKeepsBudget(setup: Setup, w: World, op: Op, app: nat)
    requires app in setup.apps && app in setup.payPermissions && setup.payPermissions[app].maxAmountSat > 0
    requires Trusted(w.rows, op) && NoOutgoingAccepted(w.rows) && WithinBudget(setup, w.now, w.rows, app)
    ensures var w' := Apply(setup, w, op); NoOutgoingAccepted(w'.rows) && WithinBudget(setup, w'.now, w'.rows, app)
  {
    var w' := Apply(setup, w, op);
    NoOutgoingAcceptedKept(setup, w, op);
    TrustedStepIsGood(setup, w, op);
    GoodStepKeepsBudget(setup, w.now, w.rows, w'.rows, app);
    NowNeverFalls(setup, w, op);
    TimeKeepsBudget(setup, w.now, w'.now, w'.rows, app);
  }

  lemma {:induction false} NowNeverFalls(setup: Setup, w: World, op: Op)
    ensures w.now <= Apply(setup, w, op).now
  {
  }

  // ---------------------------------------------------------------- budgets that are never renewed

  // Every row was made after the zero time.
  predicate Dated(rows: Table) {
    forall id :: 0 <= id < |rows| ==> rows[id].createdAt > 0
  }

  lemma {:induction false} SumEqual(rows: Table, a: Row -> int, b: Row -> int)
    requires forall id :: 0 <= id < |rows| ==> a(rows[id]) == b(rows[id])
    ensures Sum(rows, a) == Sum(rows, b)
  {
    SumLeq(rows, a, b);
    SumLeq(rows, b, a);
  }

  /** Under a budget that is never renewed every payment counts for good, whatever the time and zone. */
  lemma {:induction false} NeverUsageIsAllSpent(rows: Table, app: nat, now: Instant, zone: int)
    requires Dated(rows)
    ensures BudgetUsageMsat(rows, app, StartOfBudget(Never, now, zone)) == Sum(rows, SpentBy(app))
  {
    NeverStartsAtZero(now, zone);
    SumEqual(rows, SpentSince(app, 0), SpentBy(app));
  }

  lemma {:induction false} DatedKept(setup: Setup, w: World, op: Op)
    requires w.now > 0 && Dated(w.rows)
    ensures Apply(setup, w, op).now > 0 && Dated(Apply(setup, w, op).rows)
  {
    ApplyEvolves(setup, w, op);
    var rows, rows' := w.rows, Apply(setup, w, op).rows;
    forall id | 0 <= id < |rows'|
      ensures rows'[id].createdAt > 0
    {
      if id < |rows| {
        assert Evolves(rows[id], rows'[id]);
      }
    }
  }

  lemma {:induction false} RunStaysDated(setup: Setup, w: World, ops: seq<Op>)
    requires w.now > 0 && Dated(w.rows)
    ensures Run(setup, w, ops).now > 0 && Dated(Run(setup, w, ops).rows)
  {
    if ops == [] {
    } else {
      RunStaysDated(setup, w, ops[..|ops| - 1]);
      DatedKept(setup, Run(setup, w, ops[..|ops| - 1]), ops[|ops| - 1]);
    }
  }

  // All an app has ever spent, without the reserves of its pending self-payments.
  function EverSpentMsat(rows: Table, app: nat): int {
    Sum(rows, SpentBy(app)) - Sum(rows, SelfReserve(app))
  }

  lemma {:induction false} NeverNetUsage(rows: Table, app: nat, now: Instant, zone: int)
    requires Dated(rows)
    ensures NetUsageMsat(rows, app, StartOfBudget(Never, now, zone)) == EverSpentMsat(rows, app)
  {
    NeverUsageIsAllSpent(rows, app, now, zone);
    NeverStartsAtZero(now, zone);
    SumEqual(rows, SelfReserveSince(app, 0), SelfReserve(app));
  }

  /**
    In every interleaving, all that an app with a positive maximum has ever spent under a budget that is
    never renewed stays within the maximum and 1998 msat.
   */
  lemma {:induction false} NeverBudgetsAreKept(setup: Setup, w: World, ops: seq<Op>, app: nat)
    requires app in setup.apps && app in setup.payPermissions
    requires setup.payPermissions[app].maxAmountSat > 0 && setup.payPermissions[app].renewal == Never
    requires w.now > 0 && Dated(w.rows) && NoOutgoingAccepted(w.rows)
    requires EverSpentMsat(w.rows, app) <= 1000 * setup.payPermissions[app].maxAmountSat + 1998
    requires TrustedRun(setup, w, ops)
    ensures EverSpentMsat(Run(setup, w, ops).rows, app) <= 1000 * setup.payPermissions[app].maxAmountSat + 1998
  {
    NeverNetUsage(w.rows, app, w.now, setup.zone);
    BudgetsAreKept(setup, w, ops, app);
    RunStaysDated(setup, w, ops);
    var w' := Run(setup, w, ops);
    NeverNetUsage(w'.rows, app, w'.now, setup.zone);
  }
}
