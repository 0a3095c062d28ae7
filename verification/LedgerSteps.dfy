/**
  The database transactions of the ledger. Each function here is one closure
  that runs atomically; what it returns is the table it commits, how it ended and
  the events to publish once it has committed.
 */
module LedgerSteps {
  import opened Wrappers
  import opened Ledger
  import opened Queries
  import opened BudgetWindows

  // An event names the row it is about; a settled row never changes again.
  datatype Event =
    | PaymentSent(id: nat)
    | PaymentReceived(id: nat)
    | PaymentFailed(id: nat)
    | HoldInvoiceAccepted(id: nat)
    | HoldInvoiceCanceled(id: nat)

  // The pay_invoice permission of an app.
  datatype Permission = Permission(maxAmountSat: int, renewal: Renewal)

  // What stays fixed during a run: apps, their pay permissions and the server's zone.
  datatype Setup = Setup(apps: map<nat, App>, payPermissions: map<nat, Permission>, zone: int)

  // ---------------------------------------------------------------- lookups

  // A struct filter: an empty field does not filter.
  predicate Matches(r: Row, kind: TxType, state: Option<TxState>, request: string, hash: string) {
    && r.kind == kind
    && (state.Some? ==> r.state == state.value)
    && (request != "" ==> r.paymentRequest == request)
    && (hash != "" ==> r.paymentHash == hash)
  }

  // The first row at or after `from` that passes the filter.
  function FindFrom(rows: Table, from: nat, kind: TxType, state: Option<TxState>, request: string,
                    hash: string): (found: Option<nat>)
    requires from <= |rows|
    ensures found.Some? ==> from <= found.value < |rows| && Matches(rows[found.value], kind, state, request, hash)
    ensures forall id :: from <= id < |rows| && (found.None? || id < found.value) ==>
              !Matches(rows[id], kind, state, request, hash)
    decreases |rows| - from
  {
    if from == |rows| then None
    else if Matches(rows[from], kind, state, request, hash) then Some(from)
    else FindFrom(rows, from + 1, kind, state, request, hash)
  }

  function FindRow(rows: Table, kind: TxType, state: Option<TxState>, request: string,
                   hash: string): (found: Option<nat>)
    ensures found.Some? ==> found.value < |rows| && Matches(rows[found.value], kind, state, request, hash)
    ensures forall id :: 0 <= id < |rows| && (found.None? || id < found.value) ==>
              !Matches(rows[id], kind, state, request, hash)
  {
    FindFrom(rows, 0, kind, state, request, hash)
  }

  function FindSettled(rows: Table, r: Row): Option<nat> {
    FindRow(rows, r.kind, Some(Settled), r.paymentRequest, r.paymentHash)
  }

  // ---------------------------------------------------------------- paying

  // 1% rounded up, and at least 10 sats.
  function CalculateFeeReserveMsat(amountMsat: nat): (reserve: nat)
    ensures reserve >= 10_000 && 100 * reserve >= amountMsat
    ensures reserve == 10_000 || 100 * (reserve - 1) < amountMsat
  {
    var percent := (amountMsat + 99) / 100;
    if percent > 10_000 then percent else 10_000
  }

  datatype PayError =
    | AlreadyPaid
    | AlreadyPending
    | AppNotFound
    | NoPayScope
    | InsufficientBalance
    | QuotaExceeded

  function AmountToValidate(amountMsat: nat, selfPayment: bool): nat {
    if selfPayment then amountMsat else amountMsat + CalculateFeeReserveMsat(amountMsat)
  }

  function ValidateCanPay(setup: Setup, rows: Table, now: Instant, appId: Option<nat>, amountMsat: nat,
                          selfPayment: bool): Option<PayError> {
    var toValidate := AmountToValidate(amountMsat, selfPayment);
    if appId.None? then None
    else if appId.value !in setup.apps then Some(AppNotFound)
    else if appId.value !in setup.payPermissions then Some(NoPayScope)
    else
      var permission := setup.payPermissions[appId.value];
      var start := StartOfBudget(permission.renewal, now, setup.zone);
      if setup.apps[appId.value].isolated && toValidate > IsolatedBalanceMsat(rows, appId.value) then Some(InsufficientBalance)
      else if permission.maxAmountSat > 0
              && toValidate / 1000 > permission.maxAmountSat - BudgetUsageMsat(rows, appId.value, start) / 1000 then Some(QuotaExceeded)
      else None
  }

  function PendingPayment(appId: Option<nat>, amountMsat: nat, request: string, hash: string, preimage: Option<string>,
                          selfPayment: bool, now: Instant): Row {
    Row(appId, Outgoing, Pending, amountMsat, 0, CalculateFeeReserveMsat(amountMsat), request, hash, preimage,
        now, None, selfPayment, false)
  }

  // The closure of SendPaymentSync that checks for an earlier payment, validates and inserts.
  function InsertPayment(setup: Setup, rows: Table, now: Instant, appId: Option<nat>, amountMsat: nat,
                         request: string, hash: string, selfPayment: bool): Result<Table, PayError> {
    if FindRow(rows, Outgoing, Some(Settled), request, hash).Some? then Err(AlreadyPaid)
    else if FindRow(rows, Outgoing, Some(Pending), request, hash).Some? then Err(AlreadyPending)
    else
      var refusal := ValidateCanPay(setup, rows, now, appId, amountMsat, selfPayment);
      if refusal.Some? then Err(refusal.value)
      else Ok(rows + [PendingPayment(appId, amountMsat, request, hash, None, selfPayment, now)])
  }

  // The closure of SendKeysend, which has no payment request and no duplicate check.
  function InsertKeysend(setup: Setup, rows: Table, now: Instant, appId: Option<nat>, amountMsat: nat,
                         hash: string, preimage: string, selfPayment: bool): Result<Table, PayError> {
    var refusal := ValidateCanPay(setup, rows, now, appId, amountMsat, selfPayment);
    if refusal.Some? then Err(refusal.value)
    else Ok(rows + [PendingPayment(appId, amountMsat, "", hash, Some(preimage), selfPayment, now)])
  }

  // A new invoice, or with selfPayment set the receiving row of a keysend to this node.
  function InvoiceRow(appId: Option<nat>, amountMsat: nat, request: string, hash: string, preimage: Option<string>,
                      selfPayment: bool, hold: bool, now: Instant): Row {
    Row(appId, Incoming, Pending, amountMsat, 0, 0, request, hash, preimage, now, None, selfPayment, hold)
  }

  // ---------------------------------------------------------------- settling and failing

  datatype Settlement = NoPreimage | AlreadySettled(existing: nat) | SettledNow

  datatype SettleResult = SettleResult(rows: Table, outcome: Settlement, events: seq<Event>)

  function SettledEvent(r: Row, id: nat): Event {
    if r.kind == Incoming then PaymentReceived(id) else PaymentSent(id)
  }

  function SettledRow(r: Row, preimage: string, feeMsat: nat, selfPayment: bool, now: Instant): Row {
    r.(state := Settled, preimage := Some(preimage), feeMsat := feeMsat, feeReserveMsat := 0,
       settledAt := Some(now), selfPayment := selfPayment)
  }

  function MarkTransactionSettled(rows: Table, id: nat, preimage: string, feeMsat: nat, selfPayment: bool,
                                  now: Instant): SettleResult
    requires id < |rows|
  {
    if preimage == "" then SettleResult(rows, NoPreimage, [])
    else
      var existing := FindSettled(rows, rows[id]);
      if existing.Some? then SettleResult(rows, AlreadySettled(existing.value), [])
      else SettleResult(rows[id := SettledRow(rows[id], preimage, feeMsat, selfPayment, now)], SettledNow,
                        [SettledEvent(rows[id], id)])
  }

  // For a payment the node reports that has no row yet; `r` holds what the notification says.
  function CreateSettledTransaction(rows: Table, r: Row, preimage: string, feeMsat: nat, now: Instant): SettleResult {
    if preimage == "" then SettleResult(rows, NoPreimage, [])
    else
      var existing := FindSettled(rows, r);
      if existing.Some? then SettleResult(rows, AlreadySettled(existing.value), [])
      else SettleResult(rows + [SettledRow(r, preimage, feeMsat, false, now)], SettledNow, [SettledEvent(r, |rows|)])
  }

  datatype Failure = RowNotFound | AlreadyFailed | RefusedSettled | FailedNow

  datatype FailResult = FailResult(rows: Table, outcome: Failure, events: seq<Event>)

  function MarkPaymentFailed(rows: Table, id: nat): FailResult {
    if id >= |rows| then FailResult(rows, RowNotFound, [])
    else
      match rows[id].state
      case Failed => FailResult(rows, AlreadyFailed, [])
      case Settled => FailResult(rows, RefusedSettled, [])
      case _ => FailResult(rows[id := rows[id].(state := Failed, feeReserveMsat := 0)], FailedNow, [PaymentFailed(id)])
  }

  // Here the filter is a WHERE clause, which compares empty fields too.
  function FindAcceptable(rows: Table, from: nat, request: string, hash: string): (found: Option<nat>)
    requires from <= |rows|
    ensures found.Some? ==> from <= found.value < |rows| && IsAcceptable(rows[found.value], request, hash)
    ensures forall id :: from <= id < |rows| && (found.None? || id < found.value) ==>
              !IsAcceptable(rows[id], request, hash)
    decreases |rows| - from
  {
    if from == |rows| then None
    else if IsAcceptable(rows[from], request, hash) then Some(from)
    else FindAcceptable(rows, from + 1, request, hash)
  }

  predicate IsAcceptable(r: Row, request: string, hash: string) {
    r.kind == Incoming && r.state == Pending && r.paymentRequest == request && r.paymentHash == hash
  }

  datatype AcceptResult = AcceptResult(rows: Table, accepted: Option<nat>, events: seq<Event>)

  function MarkHoldInvoiceAccepted(rows: Table, request: string, hash: string, selfPayment: bool): (r: AcceptResult)
    ensures r.accepted.Some? <==> exists id :: 0 <= id < |rows| && IsAcceptable(rows[id], request, hash)
    ensures |r.rows| == |rows| && forall id :: 0 <= id < |rows| && Some(id) != r.accepted ==> r.rows[id] == rows[id]
    ensures r.accepted.Some? ==>
              && r.accepted.value < |rows| && IsAcceptable(rows[r.accepted.value], request, hash)
              && r.rows[r.accepted.value].state == Accepted && r.events == [HoldInvoiceAccepted(r.accepted.value)]
  {
    var found := FindAcceptable(rows, 0, request, hash);
    if found.None? then AcceptResult(rows, None, [])
    else
      var id := found.value;
      AcceptResult(rows[id := rows[id].(state := Accepted, selfPayment := selfPayment)], found,
                   [HoldInvoiceAccepted(id)])
  }
}
