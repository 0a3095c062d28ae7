/**
  Every interleaving of the ledger's database transactions.

  API calls, backend notifications and hold-invoice waiters only touch the table
  through the closures of LedgerSteps; between two closures they hold stale copies
  of rows, of which only the id and the fixed fields are used. A run is therefore
  any sequence of closures with any arguments, together with the passing of time
  and the publishing of events already committed.
 */
module LedgerRuns {
  import opened Wrappers
  import opened Ledger
  import opened LedgerSteps
  import opened BudgetWindows

  datatype Op =
    | Invoice(appId: Option<nat>, amountMsat: nat, request: string, hash: string, known: Option<string>, toSelf: bool,
              hold: bool)
    | Pay(appId: Option<nat>, amountMsat: nat, request: string, hash: string, selfPayment: bool)
    | Keysend(appId: Option<nat>, amountMsat: nat, hash: string, preimage: string, selfPayment: bool)
    | Settle(id: nat, preimage: string, feeMsat: nat, selfPayment: bool)
    | Notify(kind: TxType, appId: Option<nat>, amountMsat: nat, request: string, hash: string, preimage: string,
             feeMsat: nat)
    | Fail(id: nat)
    | Accept(request: string, hash: string, selfPayment: bool)
    | Publish(event: Event)
    | Tick(time: Instant)

  datatype World = World(now: Instant, rows: Table, outbox: multiset<Event>, published: multiset<Event>)

  const EMPTY := World(0, [], multiset{}, multiset{})

  // An outgoing notification names no app.
  predicate Possible(op: Op) {
    op.Notify? && op.kind == Outgoing ==> op.appId == None
  }

  function Notified(op: Op, now: Instant): Row
    requires op.Notify?
  {
    Row(op.appId, op.kind, Pending, op.amountMsat, 0, 0, op.request, op.hash, None, now, None, false, false)
  }

  function Commit(w: World, rows: Table, events: seq<Event>): World {
    w.(rows := rows, outbox := w.outbox + multiset(events))
  }

  function Apply(setup: Setup, w: World, op: Op): World {
    match op
    case Invoice(appId, amount, request, hash, known, toSelf, hold) =>
      Commit(w, w.rows + [InvoiceRow(appId, amount, request, hash, known, toSelf, hold, w.now)], [])
    case Pay(appId, amount, request, hash, self) =>
      var r := InsertPayment(setup, w.rows, w.now, appId, amount, request, hash, self);
      if r.Ok? then Commit(w, r.value, []) else w
    case Keysend(appId, amount, hash, preimage, self) =>
      var r := InsertKeysend(setup, w.rows, w.now, appId, amount, hash, preimage, self);
      if r.Ok? then Commit(w, r.value, []) else w
    case Settle(id, preimage, fee, self) =>
      if id >= |w.rows| then w
      else
        var r := MarkTransactionSettled(w.rows, id, preimage, fee, self, w.now);
        Commit(w, r.rows, r.events)
    case Notify(_, _, _, _, _, preimage, fee) =>
      var r := CreateSettledTransaction(w.rows, Notified(op, w.now), preimage, fee, w.now);
      Commit(w, r.rows, r.events)
    case Fail(id) =>
      var r := MarkPaymentFailed(w.rows, id);
      Commit(w, r.rows, r.events)
    case Accept(request, hash, self) =>
      var r := MarkHoldInvoiceAccepted(w.rows, request, hash, self);
      Commit(w, r.rows, r.events)
    case Publish(e) =>
      if e in w.outbox then w.(outbox := w.outbox - multiset{e}, published := w.published + multiset{e}) else w
    case Tick(time) =>
      if time >= w.now then w.(now := time) else w
  }

  function Run(setup: Setup, w: World, ops: seq<Op>): World
  {
    if ops == [] then w
    else Apply(setup, Run(setup, w, ops[..|ops| - 1]), ops[|ops| - 1])
  }

  // ---------------------------------------------------------------- finality

  // How one row may change over time.
  predicate Evolves(before: Row, after: Row) {
    && after == before.(state := after.state, feeMsat := after.feeMsat, feeReserveMsat := after.feeReserveMsat,
                        preimage := after.preimage, settledAt := after.settledAt, selfPayment := after.selfPayment)
    && (before.state == Settled ==> after == before)
    && (before.state == Failed ==> after == before || after.state == Settled)
    && (before.state == Accepted ==> after.state != Pending)
    && (after.state == Accepted && before.state != Accepted ==> after.kind == Incoming)
  }

  predicate TableEvolves(before: Table, after: Table) {
    |before| <= |after| && forall id :: 0 <= id < |before| ==> Evolves(before[id], after[id])
  }

  lemma {:induction false} UpdateEvolves(rows: Table, id: nat, r: Row)
    requires id < |rows| && Evolves(rows[id], r)
    ensures TableEvolves(rows, rows[id := r])
  {
  }

  lemma {:induction false} SettleEvolves(rows: Table, id: nat, preimage: string, feeMsat: nat, selfPayment: bool,
                                         now: Instant)
    requires id < |rows|
    ensures TableEvolves(rows, MarkTransactionSettled(rows, id, preimage, feeMsat, selfPayment, now).rows)
  {
    var r := rows[id];
    if r.state == Settled {
      assert Matches(r, r.kind, Some(Settled), r.paymentRequest, r.paymentHash);
    } else {
      UpdateEvolves(rows, id, SettledRow(r, preimage, feeMsat, selfPayment, now));
    }
  }

  lemma {:induction false} FailEvolves(rows: Table, id: nat)
    ensures TableEvolves(rows, MarkPaymentFailed(rows, id).rows)
  {
    if id < |rows| && (rows[id].state == Pending || rows[id].state == Accepted) {
      UpdateEvolves(rows, id, rows[id].(state := Failed, feeReserveMsat := 0));
    }
  }

  lemma {:induction false} AcceptEvolves(rows: Table, request: string, hash: string, selfPayment: bool)
    ensures TableEvolves(rows, MarkHoldInvoiceAccepted(rows, request, hash, selfPayment).rows)
  {
    var found := FindAcceptable(rows, 0, request, hash);
    if found.Some? {
      UpdateEvolves(rows, found.value, rows[found.value].(state := Accepted, selfPayment := selfPayment));
    }
  }

  lemma {:induction false} GrowthEvolves(before: Table, after: Table)
    requires before <= after
    ensures TableEvolves(before, after)
  {
  }

  lemma {:induction false} ApplyEvolves(setup: Setup, w: World, op: Op)
    ensures TableEvolves(w.rows, Apply(setup, w, op).rows)
  {
    if w.rows <= Apply(setup, w, op).rows {
      GrowthEvolves(w.rows, Apply(setup, w, op).rows);
      return;
    }
    match op
    case Settle(id, preimage, fee, self) =>
      if id < |w.rows| {
        SettleEvolves(w.rows, id, preimage, fee, self, w.now);
      }
    case Fail(id) =>
      FailEvolves(w.rows, id);
    case Accept(request, hash, self) =>
      AcceptEvolves(w.rows, request, hash, self);
    case _ =>
      assert false;
  }

  /**
    Whatever happens, a settled row never changes again, a failed row can only
    become settled, and no row changes its owner, direction, amount, invoice or hash.
   */
  lemma {:induction false} Finality(setup: Setup, w: World, ops: seq<Op>)
    ensures TableEvolves(w.rows, Run(setup, w, ops).rows)
  {
    if ops == [] {
    } else {
      Finality(setup, w, ops[..|ops| - 1]);
      ApplyEvolves(setup, Run(setup, w, ops[..|ops| - 1]), ops[|ops| - 1]);
    }
  }

  // ---------------------------------------------------------------- uniqueness

  predicate SameInvoice(a: Row, b: Row) {
    a.kind == b.kind && a.paymentHash == b.paymentHash && a.paymentRequest == b.paymentRequest
  }

  predicate UniqueSettled(rows: Table) {
    forall a, b :: 0 <= a < b < |rows| && rows[a].state == Settled && rows[b].state == Settled ==>
      !SameInvoice(rows[a], rows[b])
  }

  predicate InFlight(r: Row) {
    r.kind == Outgoing && r.state == Pending && r.paymentRequest != ""
  }

  predicate UniqueInFlight(rows: Table) {
    forall a, b :: 0 <= a < b < |rows| && InFlight(rows[a]) && InFlight(rows[b]) ==> !SameInvoice(rows[a], rows[b])
  }

  lemma {:induction false} SettlingKeepsUnique(rows: Table, id: nat, preimage: string, feeMsat: nat, selfPayment: bool,
                                               now: Instant)
    requires id < |rows| && UniqueSettled(rows)
    ensures UniqueSettled(MarkTransactionSettled(rows, id, preimage, feeMsat, selfPayment, now).rows)
  {
    var r := rows[id];
    if FindSettled(rows, r).None? {
      forall other | 0 <= other < |rows|
        ensures !(rows[other].state == Settled && SameInvoice(rows[other], r))
      {
        assert !Matches(rows[other], r.kind, Some(Settled), r.paymentRequest, r.paymentHash);
      }
    }
  }

  lemma {:induction false} CreatingKeepsUnique(rows: Table, r: Row, preimage: string, feeMsat: nat, now: Instant)
    requires UniqueSettled(rows)
    ensures UniqueSettled(CreateSettledTransaction(rows, r, preimage, feeMsat, now).rows)
  {
    if FindSettled(rows, r).None? {
      forall other | 0 <= other < |rows|
        ensures !(rows[other].state == Settled && SameInvoice(rows[other], r))
      {
        assert !Matches(rows[other], r.kind, Some(Settled), r.paymentRequest, r.paymentHash);
      }
    }
  }

  lemma {:induction false} ApplyKeepsUniqueSettled(setup: Setup, w: World, op: Op)
    requires UniqueSettled(w.rows)
    ensures UniqueSettled(Apply(setup, w, op).rows)
  {
    match op
    case Settle(id, preimage, fee, self) =>
      if id < |w.rows| {
        SettlingKeepsUnique(w.rows, id, preimage, fee, self, w.now);
      }
    case Notify(_, _, _, _, _, preimage, fee) =>
      CreatingKeepsUnique(w.rows, Notified(op, w.now), preimage, fee, w.now);
    case _ =>
  }

  lemma {:induction false} ApplyKeepsUniqueInFlight(setup: Setup, w: World, op: Op)
    requires UniqueInFlight(w.rows)
    ensures UniqueInFlight(Apply(setup, w, op).rows)
  {
    var rows, rows' := w.rows, Apply(setup, w, op).rows;
    ApplyEvolves(setup, w, op);
    if |rows'| > |rows| {
      NewInFlight(setup, w, op);
      assert rows'[..|rows|] == rows;
    }
    EvolvingKeepsUniqueInFlight(rows, rows');
  }

  lemma {:induction false} EvolvingKeepsUniqueInFlight(rows: Table, rows': Table)
    requires UniqueInFlight(rows) && TableEvolves(rows, rows')
    requires forall b :: |rows| <= b < |rows'| && InFlight(rows'[b]) ==>
               forall a :: 0 <= a < b ==> !(InFlight(rows'[a]) && SameInvoice(rows'[a], rows'[b]))
    ensures UniqueInFlight(rows')
  {
    forall a, b | 0 <= a < b < |rows| && InFlight(rows'[a]) && InFlight(rows'[b])
      ensures !SameInvoice(rows'[a], rows'[b])
    {
      assert Evolves(rows[a], rows'[a]) && Evolves(rows[b], rows'[b]);
    }
  }

  // A payment is only added in flight when the duplicate check has found no other.
  lemma {:induction false} NewInFlight(setup: Setup, w: World, op: Op)
    requires |Apply(setup, w, op).rows| > |w.rows|
    ensures var rows, rows' := w.rows, Apply(setup, w, op).rows;
            && |rows'| == |rows| + 1 && rows <= rows'
            && (InFlight(rows'[|rows|]) ==> forall a :: 0 <= a < |rows| ==>
                   !(InFlight(rows[a]) && SameInvoice(rows[a], rows'[|rows|])))
  {
    var rows, rows' := w.rows, Apply(setup, w, op).rows;
    if op.Pay? {
      forall a | 0 <= a < |rows|
        ensures !(InFlight(rows[a]) && SameInvoice(rows[a], rows'[|rows|]))
      {
        assert !Matches(rows[a], Outgoing, Some(Pending), op.request, op.hash);
      }
    }
  }

  /**
    In every interleaving at most one row per direction and invoice is settled, and at most one bolt11 payment per
    invoice is in flight.
   */
  lemma {:induction false} Uniqueness(setup: Setup, w: World, ops: seq<Op>)
    requires UniqueSettled(w.rows) && UniqueInFlight(w.rows)
    ensures UniqueSettled(Run(setup, w, ops).rows) && UniqueInFlight(Run(setup, w, ops).rows)
  {
    if ops == [] {
    } else {
      Uniqueness(setup, w, ops[..|ops| - 1]);
      ApplyKeepsUniqueSettled(setup, Run(setup, w, ops[..|ops| - 1]), ops[|ops| - 1]);
      ApplyKeepsUniqueInFlight(setup, Run(setup, w, ops[..|ops| - 1]), ops[|ops| - 1]);
    }
  }
}
