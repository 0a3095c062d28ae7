/**
  The ledger's transactions in terms of what is in the table before and after: when a payment is
  admitted and why it is refused, and which rows settling, failing and accepting change, and how.
 */
module LedgerMeaning {
  import opened Wrappers
  import opened Ledger
  import opened Queries
  import opened BudgetWindows
  import opened LedgerSteps
  import opened LedgerRuns

  // A row of a direction, in some state or other, for an invoice; an empty request or hash stands for any.
  predicate Concerns(r: Row, kind: TxType, state: Option<TxState>, request: string, hash: string) {
    && r.kind == kind && (state == None || state == Some(r.state))
    && (request == "" || r.paymentRequest == request) && (hash == "" || r.paymentHash == hash)
  }

  ghost predicate Exists(rows: Table, kind: TxType, state: TxState, request: string, hash: string) {
    exists id :: 0 <= id < |rows| && Concerns(rows[id], kind, Some(state), request, hash)
  }

  /** A lookup finds the first row it concerns, and nothing exactly when it concerns none. */
  lemma {:induction false} LookupFindsFirst(rows: Table, kind: TxType, state: Option<TxState>, request: string,
                                            hash: string)
    ensures var found := FindRow(rows, kind, state, request, hash);
            && (found.Some? ==>
                 && found.value < |rows| && Concerns(rows[found.value], kind, state, request, hash)
                 && forall id :: 0 <= id < found.value ==> !Concerns(rows[id], kind, state, request, hash))
            && (found.None? ==> forall id :: 0 <= id < |rows| ==> !Concerns(rows[id], kind, state, request, hash))
  {
    forall id | 0 <= id < |rows|
      ensures Matches(rows[id], kind, state, request, hash) <==> Concerns(rows[id], kind, state, request, hash)
    {
    }
  }

  lemma {:induction false} LookupIff(rows: Table, kind: TxType, state: TxState, request: string, hash: string)
    ensures FindRow(rows, kind, Some(state), request, hash).Some? <==> Exists(rows, kind, state, request, hash)
  {
    LookupFindsFirst(rows, kind, Some(state), request, hash);
  }

  // ---------------------------------------------------------------- admission

  // What a payment must be covered for: the amount, and unless it stays on this node one per cent, at least ten
  // satoshis.
  predicate IsCost(cost: nat, amountMsat: nat, selfPayment: bool) {
    if selfPayment then cost == amountMsat
    else
      var reserve := cost - amountMsat;
      && reserve >= 10_000 && 100 * reserve >= amountMsat
      && (reserve == 10_000 || 100 * (reserve - 1) < amountMsat)
  }

  ghost predicate Covered(setup: Setup, rows: Table, app: nat, cost: nat)
    requires app in setup.apps
  {
    setup.apps[app].isolated ==> cost <= IsolatedBalanceMsat(rows, app)
  }

  // In whole satoshis, both rounded down.
  ghost predicate WithinQuota(setup: Setup, rows: Table, now: Instant, app: nat, cost: nat)
    requires app in setup.payPermissions
  {
    var permission := setup.payPermissions[app];
    permission.maxAmountSat > 0 ==>
      cost / 1000 + BudgetUsageMsat(rows, app, StartOfBudget(permission.renewal, now, setup.zone)) / 1000 <= permission.maxAmountSat
  }

  // Why an app may not pay, in the order of the checks.
  ghost predicate RefusedBecause(setup: Setup, rows: Table, now: Instant, appId: Option<nat>, cost: nat,
                                 error: PayError) {
    && appId.Some?
    && var app := appId.value;
       match error
       case AppNotFound => app !in setup.apps
       case NoPayScope => app in setup.apps && app !in setup.payPermissions
       case InsufficientBalance => app in setup.apps && app in setup.payPermissions && !Covered(setup, rows, app, cost)
       case QuotaExceeded =>
         && app in setup.apps && app in setup.payPermissions
         && Covered(setup, rows, app, cost) && !WithinQuota(setup, rows, now, app, cost)
       case AlreadyPaid => false
       case AlreadyPending => false
  }

  ghost predicate MayPay(setup: Setup, rows: Table, now: Instant, appId: Option<nat>, cost: nat) {
    appId.Some? ==>
      && appId.value in setup.apps && appId.value in setup.payPermissions
      && Covered(setup, rows, appId.value, cost) && WithinQuota(setup, rows, now, appId.value, cost)
  }

  // A pending payment, with the reserve of one that leaves the node, is added and nothing else.
  predicate IsInserted(rows: Table, after: Table, appId: Option<nat>, amountMsat: nat, request: string, hash: string,
                       preimage: Option<string>, selfPayment: bool, now: Instant) {
    && |after| == |rows| + 1 && after[..|rows|] == rows
    && var r := after[|rows|];
       && IsCost(amountMsat + r.feeReserveMsat, amountMsat, false)
       && r == Row(appId, Outgoing, Pending, amountMsat, 0, r.feeReserveMsat, request, hash, preimage, now, None,
                   selfPayment, false)
  }

  lemma {:induction false} CheckMeans(setup: Setup, rows: Table, now: Instant, appId: Option<nat>, amountMsat: nat,
                                      selfPayment: bool)
    ensures var cost := AmountToValidate(amountMsat, selfPayment);
            var refusal := ValidateCanPay(setup, rows, now, appId, amountMsat, selfPayment);
            && IsCost(cost, amountMsat, selfPayment)
            && (refusal == None <==> MayPay(setup, rows, now, appId, cost))
            && (refusal.Some? ==> RefusedBecause(setup, rows, now, appId, cost, refusal.value))
  {
  }

  // The reasons exclude each other, so the reason given is the only one there is.
  lemma {:induction false} OneReason(setup: Setup, rows: Table, now: Instant, appId: Option<nat>, cost: nat,
                                     a: PayError, b: PayError)
    requires RefusedBecause(setup, rows, now, appId, cost, a)
    ensures !MayPay(setup, rows, now, appId, cost)
    ensures RefusedBecause(setup, rows, now, appId, cost, b) ==> a == b
  {
  }

  lemma {:induction false} CostIsOne(a: nat, b: nat, amountMsat: nat, selfPayment: bool)
    requires IsCost(a, amountMsat, selfPayment) && IsCost(b, amountMsat, selfPayment)
    ensures a == b
  {
  }

  /**
    A payment is inserted exactly when its invoice is neither paid nor being paid and, if an app pays, the app
    exists, may pay, can cover the cost if it is isolated, and stays within its quota if it has one; otherwise
    the error says which of these was the first not to hold. What is inserted is the pending payment.
   */
  lemma {:induction false} PaymentIsInsertedIff(setup: Setup, rows: Table, now: Instant, appId: Option<nat>,
                                                amountMsat: nat,
                                                request: string, hash: string, selfPayment: bool, cost: nat)
    requires IsCost(cost, amountMsat, selfPayment)
    ensures var result := InsertPayment(setup, rows, now, appId, amountMsat, request, hash, selfPayment);
            var paid, paying := Exists(rows, Outgoing, Settled, request, hash), Exists(rows, Outgoing, Pending, request, hash);
            && (result.Ok? <==> !paid && !paying && MayPay(setup, rows, now, appId, cost))
            && (result == Err(AlreadyPaid) <==> paid)
            && (result == Err(AlreadyPending) <==> !paid && paying)
            && (forall error :: error != AlreadyPaid && error != AlreadyPending ==>
                  (result == Err(error) <==> !paid && !paying && RefusedBecause(setup, rows, now, appId, cost, error)))
            && (result.Ok? ==>
                  IsInserted(rows, result.value, appId, amountMsat, request, hash, None, selfPayment, now))
  {
    LookupIff(rows, Outgoing, Settled, request, hash);
    LookupIff(rows, Outgoing, Pending, request, hash);
    CheckMeans(setup, rows, now, appId, amountMsat, selfPayment);
    CostIsOne(cost, AmountToValidate(amountMsat, selfPayment), amountMsat, selfPayment);
    var refusal := ValidateCanPay(setup, rows, now, appId, amountMsat, selfPayment);
    if refusal.Some? {
      forall error
        ensures RefusedBecause(setup, rows, now, appId, cost, error) <==> error == refusal.value
      {
        OneReason(setup, rows, now, appId, cost, refusal.value, error);
      }
    }
    NoReasonIfAdmitted(setup, rows, now, appId, cost);
    assert IsCost(amountMsat + CalculateFeeReserveMsat(amountMsat), amountMsat, false);
  }

  lemma {:induction false} NoReasonIfAdmitted(setup: Setup, rows: Table, now: Instant, appId: Option<nat>, cost: nat)
    ensures MayPay(setup, rows, now, appId, cost) ==>
              forall error :: !RefusedBecause(setup, rows, now, appId, cost, error)
  {
  }

  /** A keysend is inserted under the same conditions, but for the invoice it does not have, and keeps its preimage. */
  lemma {:induction false} KeysendIsInsertedIff(setup: Setup, rows: Table, now: Instant, appId: Option<nat>,
                                                amountMsat: nat,
                                                hash: string, preimage: string, selfPayment: bool, cost: nat)
    requires IsCost(cost, amountMsat, selfPayment)
    ensures var result := InsertKeysend(setup, rows, now, appId, amountMsat, hash, preimage, selfPayment);
            && (result.Ok? <==> MayPay(setup, rows, now, appId, cost))
            && (forall error :: result == Err(error) <==> RefusedBecause(setup, rows, now, appId, cost, error))
            && (result.Ok? ==>
                  IsInserted(rows, result.value, appId, amountMsat, "", hash, Some(preimage), selfPayment, now))
  {
    CheckMeans(setup, rows, now, appId, amountMsat, selfPayment);
    CostIsOne(cost, AmountToValidate(amountMsat, selfPayment), amountMsat, selfPayment);
    var refusal := ValidateCanPay(setup, rows, now, appId, amountMsat, selfPayment);
    if refusal.Some? {
      forall error
        ensures RefusedBecause(setup, rows, now, appId, cost, error) <==> error == refusal.value
      {
        OneReason(setup, rows, now, appId, cost, refusal.value, error);
      }
    }
    NoReasonIfAdmitted(setup, rows, now, appId, cost);
    assert IsCost(amountMsat + CalculateFeeReserveMsat(amountMsat), amountMsat, false);
  }

  /** In runs too, a payment is inserted exactly under these conditions, and otherwise nothing happens. */
  lemma {:induction false} PaysInRunsIff(setup: Setup, w: World, op: Op, cost: nat)
    requires op.Pay? || op.Keysend?
    requires IsCost(cost, op.amountMsat, op.selfPayment)
    ensures var after := Apply(setup, w, op);
            var request := if op.Pay? then op.request else "";
            var twin := op.Pay? && (Exists(w.rows, Outgoing, Settled, request, op.hash) || Exists(w.rows, Outgoing, Pending, request, op.hash));
            if !twin && MayPay(setup, w.rows, w.now, op.appId, cost)
            then
              && after == World(w.now, after.rows, w.outbox, w.published)
              && IsInserted(w.rows, after.rows, op.appId, op.amountMsat, request, op.hash,
                            if op.Pay? then None else Some(op.preimage), op.selfPayment, w.now)
            else after == w
  {
    if op.Pay? {
      PaymentIsInsertedIff(setup, w.rows, w.now, op.appId, op.amountMsat, op.request, op.hash, op.selfPayment, cost);
    } else {
      KeysendIsInsertedIff(setup, w.rows, w.now, op.appId, op.amountMsat, op.hash, op.preimage, op.selfPayment, cost);
    }
    assert w.outbox + multiset([]) == w.outbox;
  }

  // ---------------------------------------------------------------- settling, failing, accepting

  // A row as it is once settled: what does not concern its settlement is as before.
  predicate IsSettled(before: Row, after: Row, preimage: string, feeMsat: nat, selfPayment: bool, now: Instant) {
    after == Row(before.appId, before.kind, Settled, before.amountMsat, feeMsat, 0, before.paymentRequest,
                 before.paymentHash, Some(preimage), before.createdAt, Some(now), selfPayment, before.hold)
  }

  // No row of its direction has settled a row's invoice.
  ghost predicate NoTwinSettled(rows: Table, r: Row) {
    !Exists(rows, r.kind, Settled, r.paymentRequest, r.paymentHash)
  }

  ghost predicate OnlySettles(before: Table, after: Table, id: nat, preimage: string, feeMsat: nat, selfPayment: bool,
                              now: Instant)
    requires id < |before|
  {
    && |after| == |before|
    && after == before[id := after[id]]
    && IsSettled(before[id], after[id], preimage, feeMsat, selfPayment, now)
  }

  /**
    A row is settled, with this preimage, fee and time and no reserve, exactly when there is a preimage and no row
    of its direction has settled its invoice; no other row changes, and the event is the one of its direction.
   */
  lemma {:induction false} SettlingMeans(rows: Table, id: nat, preimage: string, feeMsat: nat, selfPayment: bool,
                                         now: Instant)
    requires id < |rows|
    ensures var r := MarkTransactionSettled(rows, id, preimage, feeMsat, selfPayment, now);
            var settled := Exists(rows, rows[id].kind, Settled, rows[id].paymentRequest, rows[id].paymentHash);
            && (r.outcome == SettledNow <==> preimage != "" && !settled)
            && (r.outcome == NoPreimage <==> preimage == "")
            && |r.rows| == |rows| && (forall other :: 0 <= other < |rows| && other != id ==> r.rows[other] == rows[other])
            && (if r.outcome == SettledNow
                then IsSettled(rows[id], r.rows[id], preimage, feeMsat, selfPayment, now)
                     && r.events == [if rows[id].kind == Incoming then PaymentReceived(id) else PaymentSent(id)]
                else r.rows == rows && r.events == [])
  {
    LookupIff(rows, rows[id].kind, Settled, rows[id].paymentRequest, rows[id].paymentHash);
  }

  /** A row for a payment not known before is added settled under the same condition. */
  lemma {:induction false} CreatingMeans(rows: Table, row: Row, preimage: string, feeMsat: nat, now: Instant)
    ensures var r := CreateSettledTransaction(rows, row, preimage, feeMsat, now);
            var settled := Exists(rows, row.kind, Settled, row.paymentRequest, row.paymentHash);
            && (r.outcome == SettledNow <==> preimage != "" && !settled)
            && (r.outcome == NoPreimage <==> preimage == "")
            && (if r.outcome == SettledNow
                then |r.rows| == |rows| + 1 && r.rows[..|rows|] == rows
                     && IsSettled(row, r.rows[|rows|], preimage, feeMsat, false, now)
                     && r.events == [if row.kind == Incoming then PaymentReceived(|rows|) else PaymentSent(|rows|)]
                else r.rows == rows && r.events == [])
  {
    LookupIff(rows, row.kind, Settled, row.paymentRequest, row.paymentHash);
  }

  /**
    A pending invoice with both the request and the hash, the first of them, is accepted and marked as paid from this
    node or not.
   */
  lemma {:induction false} AcceptingMeans(rows: Table, request: string, hash: string, selfPayment: bool, id: nat)
    requires id < |rows|
    ensures var r := MarkHoldInvoiceAccepted(rows, request, hash, selfPayment);
            var waits := (row: Row) => row.kind == Incoming && row.state == Pending && row.paymentRequest == request && row.paymentHash == hash;
            && (r.accepted == Some(id) <==> waits(rows[id]) && forall other :: 0 <= other < id ==> !waits(rows[other]))
            && |r.rows| == |rows|
            && r.rows[id] == if r.accepted == Some(id) then rows[id].(state := Accepted, selfPayment := selfPayment) else rows[id]
  {
    var found := FindAcceptable(rows, 0, request, hash);
    forall other | 0 <= other < |rows|
      ensures IsAcceptable(rows[other], request, hash)
              <==> rows[other].kind == Incoming && rows[other].state == Pending
                   && rows[other].paymentRequest == request && rows[other].paymentHash == hash
    {
    }
  }

  /** A row fails, and keeps all but its state and its reserve, exactly when it is pending or accepted. */
  lemma {:induction false} FailingMeans(rows: Table, id: nat)
    requires id < |rows|
    ensures var r := MarkPaymentFailed(rows, id);
            && (r.outcome == FailedNow <==> rows[id].state == Pending || rows[id].state == Accepted)
            && (r.outcome == AlreadyFailed <==> rows[id].state == Failed)
            && (if r.outcome == FailedNow
                then r.rows == rows[id := rows[id].(state := Failed, feeReserveMsat := 0)] && r.events == [PaymentFailed(id)]
                else r.rows == rows && r.events == [])
  {
  }

  // ---------------------------------------------------------------- the other steps of runs

  /** In runs a row settles and fails under these conditions, raising its event; otherwise nothing happens. */
  lemma {:induction false} MarksInRunsIff(setup: Setup, w: World, op: Op)
    requires op.Settle? || op.Fail?
    ensures var after := Apply(setup, w, op);
            if op.id >= |w.rows| then after == w
            else
              var r := w.rows[op.id];
              if op.Settle? && op.preimage != "" && NoTwinSettled(w.rows, r)
              then
                && OnlySettles(w.rows, after.rows, op.id, op.preimage, op.feeMsat, op.selfPayment, w.now)
                && after == World(w.now, after.rows,
                                  w.outbox + multiset{if r.kind == Incoming then PaymentReceived(op.id) else PaymentSent(op.id)},
                                  w.published)
              else if op.Fail? && (r.state == Pending || r.state == Accepted)
              then after == World(w.now, w.rows[op.id := r.(state := Failed, feeReserveMsat := 0)],
                                  w.outbox + multiset{PaymentFailed(op.id)}, w.published)
              else after == w
  {
    assert w.outbox + multiset([]) == w.outbox;
    if op.id < |w.rows| {
      if op.Settle? {
        SettlingMeans(w.rows, op.id, op.preimage, op.feeMsat, op.selfPayment, w.now);
      } else {
        FailingMeans(w.rows, op.id);
      }
    }
  }

  /** Time never goes back, and reaches any later instant. */
  lemma {:induction false} TimePasses(setup: Setup, w: World, time: Instant)
    ensures var after := Apply(setup, w, Tick(time));
            after == w.(now := after.now) && w.now <= after.now && time <= after.now && after.now in {w.now, time}
  {
  }
}
