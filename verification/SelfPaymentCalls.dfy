/**
  Calls that pay an invoice of this node, one database access at a time. A call settles the
  invoice's own row first and its payment's row afterwards, each in its own transaction. If it
  is a hold invoice the call marks it accepted and waits for another call to settle or fail it.
 */
module SelfPaymentCalls {
  import opened Wrappers
  import opened Ledger
  import opened LedgerSteps
  import opened LedgerRuns
  import Payments

  type Bolt11 = Payments.Bolt11

  // A request decodes to a hash and an amount.
  predicate Says(decode: string -> Option<Bolt11>, request: string, hash: string, amountMsat: nat) {
    decode(request).Some? && decode(request).value.hash == hash && decode(request).value.amountMsat == amountMsat
  }

  datatype Stage =
    | Started
    | NotOurs
    | Decided
    | Refused
    | Inserted(row: nat)
    | Found(row: nat, invoice: nat, preimage: Option<string>)
    // about to subscribe to a hold invoice and to mark it accepted
    | Waiting(row: nat, invoice: nat)
    // subscribed, with the row it marked accepted if it did
    | Parked(row: nat, accepted: Option<nat>)
    | Missed(row: nat)
    | Delivered(row: nat, proof: string)
    | Returned(success: bool)

  // A call of SendPaymentSync, between two of its database accesses.
  datatype Call = Call(appId: Option<nat>, request: string, hash: string, amountMsat: nat, stage: Stage)

  // `credited` collects the payment rows whose call has settled the invoice.
  datatype System = System(w: World, calls: seq<Call>, ghost credited: set<nat>)

  ghost function Advanced(setup: Setup, s: System, k: nat): System
    requires k < |s.calls|
  {
    var me := s.calls[k];
    var rows := s.w.rows;
    match me.stage
    case Started =>
      var found := FindRow(rows, Incoming, None, me.request, me.hash);
      s.(calls := s.calls[k := me.(stage := if found.Some? then Decided else NotOurs)])
    case Decided =>
      var r := InsertPayment(setup, rows, s.w.now, me.appId, me.amountMsat, me.request, me.hash, true);
      if r.Err? then s.(calls := s.calls[k := me.(stage := Refused)])
      else System(Commit(s.w, r.value, []), s.calls[k := me.(stage := Inserted(|rows|))], s.credited)
    case Inserted(row) =>
      var found := FindRow(rows, Incoming, Some(Pending), me.request, me.hash);
      s.(calls := s.calls[k := me.(stage :=
        if found.None? then Missed(row)
        else if rows[found.value].hold then Waiting(row, found.value)
        else if rows[found.value].preimage.None? then Missed(row)
        else Found(row, found.value, rows[found.value].preimage))])
    case Found(row, invoice, preimage) =>
      if invoice >= |rows| || preimage.None? then s
      else
        var r := MarkTransactionSettled(rows, invoice, preimage.value, 0, true, s.w.now);
        System(Commit(s.w, r.rows, r.events),
               s.calls[k := me.(stage := if r.outcome.NoPreimage? then Missed(row) else Delivered(row, preimage.value))],
               if r.outcome.SettledNow? then s.credited + {row} else s.credited)
    case Waiting(row, _) =>
      var r := MarkHoldInvoiceAccepted(rows, me.request, me.hash, true);
      System(Commit(s.w, r.rows, r.events), s.calls[k := me.(stage := Parked(row, r.accepted))], s.credited)
    case Missed(row) =>
      var r := MarkPaymentFailed(rows, row);
      System(Commit(s.w, r.rows, r.events), s.calls[k := me.(stage := Returned(false))], s.credited)
    case Delivered(row, proof) =>
      if row >= |rows| then s
      else
        var r := MarkTransactionSettled(rows, row, proof, 0, true, s.w.now);
        System(Commit(s.w, r.rows, r.events), s.calls[k := me.(stage := Returned(!r.outcome.NoPreimage?))], s.credited)
    case _ => s
  }

  // An update is about an incoming row with the call's request, and says that it is settled or that it was cancelled.
  predicate MayWake(rows: Table, me: Call, id: nat, cancelled: bool) {
    && me.stage.Parked? && id < |rows|
    && rows[id].kind == Incoming && rows[id].paymentRequest == me.request
    && (rows[id].state == Settled || (cancelled && rows[id].state == Failed))
  }

  ghost function Woken(s: System, k: nat, id: nat, cancelled: bool): System
    requires k < |s.calls| && MayWake(s.w.rows, s.calls[k], id, cancelled)
  {
    var me, r := s.calls[k], s.w.rows[id];
    s.(calls := s.calls[k := me.(stage :=
      if !cancelled && r.preimage.Some? then Delivered(me.stage.row, r.preimage.value) else Missed(me.stage.row))])
  }

  // SettleHoldInvoice marks a row it has found accepted. The payment that marked it accepted becomes credited.
  ghost function HoldSettled(s: System, id: nat, preimage: string, self: bool): System
    requires id < |s.w.rows|
  {
    var r := MarkTransactionSettled(s.w.rows, id, preimage, 0, self, s.w.now);
    s.(w := Commit(s.w, r.rows, r.events),
       credited := if r.outcome.SettledNow? && self && Backed(s.calls, s.credited, id)
                   then s.credited + {s.calls[Backer(s, id)].stage.row} else s.credited)
  }

  ghost function Backer(s: System, id: nat): (k: nat)
    requires Backed(s.calls, s.credited, id)
    ensures k < |s.calls| && Backs(s.calls[k], id, s.credited)
  {
    var k :| 0 <= k < |s.calls| && Backs(s.calls[k], id, s.credited);
    k
  }

  // The payment of some call that marked a row accepted has not yet credited it.
  ghost predicate Backed(calls: seq<Call>, credited: set<nat>, id: nat) {
    exists k :: 0 <= k < |calls| && Backs(calls[k], id, credited)
  }

  predicate Backs(me: Call, id: nat, credited: set<nat>) {
    me.stage.Parked? && me.stage.accepted == Some(id) && me.stage.row !in credited
  }

  // ---------------------------------------------------------------- the environment

  // Invoices are what their requests decode to, and the request of a hold invoice names no other
  // row; notifications are about payments to and from other nodes.
  ghost predicate Truthful(decode: string -> Option<Bolt11>, rows: Table, op: Op) {
    match op
    case Invoice(_, amount, request, hash, _, toSelf, hold) =>
      && !toSelf && request != "" && Says(decode, request, hash, amount)
      && (forall id :: 0 <= id < |rows| && rows[id].kind == Incoming && rows[id].paymentRequest == request ==>
             !hold && !rows[id].hold)
    case Pay(_, _, _, _, self) => !self
    case Keysend(_, _, _, _, self) => !self
    case Notify(kind, _, _, request, _, _, _) =>
      kind == Incoming ==> forall id :: 0 <= id < |rows| && rows[id].kind == Incoming && rows[id].hold ==>
        rows[id].paymentRequest != request
    case Accept(_, _, self) => !self
    case Settle(id, _, _, self) => id < |rows| ==> if rows[id].kind == Incoming then !self else !rows[id].selfPayment
    case Fail(id) => id < |rows| ==> !(rows[id].kind == Outgoing && rows[id].selfPayment)
    case _ => true
  }

  predicate FromRequest(decode: string -> Option<Bolt11>, me: Call) {
    && me.request != ""
    && decode(me.request).Some?
    && decode(me.request).value.hash == me.hash
    && decode(me.request).value.amountMsat <= me.amountMsat
  }

  // What a caller asks to be paid. The amount is the caller's only if the invoice has none.
  datatype Request = Request(payReq: string, amountMsat: Option<nat>, appId: Option<nat>)

  // The call that SendPaymentSync makes of a request, in the terms of what it promises of the row it inserts.
  predicate CallsFor(decode: string -> Option<Bolt11>, asked: Request, me: Call) {
    && me.stage == Started && me.appId == asked.appId
    && Payments.IsLowered(asked.payReq, me.request) && decode(me.request).Some?
    && var invoice := decode(me.request).value;
       && me.hash == invoice.hash
       && me.amountMsat == if invoice.amountMsat != 0 then invoice.amountMsat
                           else if asked.amountMsat.Some? then asked.amountMsat.value else 0
  }

  lemma {:induction false} PayingCallsFor(decode: string -> Option<Bolt11>, asked: Request)
    requires decode(Payments.ToLower(asked.payReq)).Some?
    ensures var request := Payments.ToLower(asked.payReq);
            var invoice := decode(request).value;
            CallsFor(decode, asked, Call(asked.appId, request, invoice.hash, Payments.AmountToPay(invoice, asked.amountMsat), Started))
  {
    Payments.ToLowerLowers(asked.payReq);
  }

  /** A call pays at least what its request says, for the hash it says. */
  lemma {:induction false} CallPaysItsRequest(decode: string -> Option<Bolt11>, asked: Request, me: Call)
    requires CallsFor(decode, asked, me) && decode("").None?
    ensures FromRequest(decode, me)
  {
  }

  // ---------------------------------------------------------------- totals

  function Receipt(r: Row): int { if IsReceipt(r) then r.amountMsat else 0 }

  function ExternalReceipt(r: Row): int { if IsReceipt(r) && !r.selfPayment then r.amountMsat else 0 }

  function SelfReceipt(r: Row): int { if IsReceipt(r) && r.selfPayment then r.amountMsat else 0 }

  function Spending(r: Row): int { if IsSpend(r) then Spent(r) else 0 }

  // All balances together, of apps and of the node's own wallet.
  function TotalBalanceMsat(rows: Table): int {
    Sum(rows, Receipt) - Sum(rows, Spending)
  }

  function ExternalReceiptsMsat(rows: Table): int {
    Sum(rows, ExternalReceipt)
  }

  // The amounts of some rows.
  ghost function AmountOf(rows: Table, ids: set<nat>): nat {
    if rows == [] then 0
    else AmountOf(rows[..|rows| - 1], ids) + if |rows| - 1 in ids then rows[|rows| - 1].amountMsat else 0
  }

  lemma {:induction false} AmountOfUpdate(rows: Table, ids: set<nat>, id: nat, r: Row)
    requires id < |rows| && r.amountMsat == rows[id].amountMsat
    ensures AmountOf(rows[id := r], ids) == AmountOf(rows, ids)
  {
    var last := |rows| - 1;
    if id == last {
      assert rows[id := r][..last] == rows[..last];
    } else {
      assert rows[id := r][..last] == rows[..last][id := r];
      AmountOfUpdate(rows[..last], ids, id, r);
    }
  }

  lemma {:induction false} AmountOfInsert(rows: Table, ids: set<nat>, id: nat)
    requires id < |rows| && id !in ids
    ensures AmountOf(rows, ids + {id}) == AmountOf(rows, ids) + rows[id].amountMsat
  {
    if id < |rows| - 1 {
      AmountOfInsert(rows[..|rows| - 1], ids, id);
    } else {
      AmountOfOutside(rows[..|rows| - 1], ids, id);
    }
  }

  lemma {:induction false} AmountOfOutside(rows: Table, ids: set<nat>, id: nat)
    requires id >= |rows|
    ensures AmountOf(rows, ids + {id}) == AmountOf(rows, ids)
  {
    if rows == [] {
    } else {
      AmountOfOutside(rows[..|rows| - 1], ids, id);
    }
  }

  lemma {:induction false} AmountOfSpends(rows: Table, ids: set<nat>)
    requires forall id :: 0 <= id < |rows| && id in ids ==> IsSpend(rows[id])
    ensures AmountOf(rows, ids) <= Sum(rows, Spending)
  {
    if rows == [] {
    } else {
      AmountOfSpends(rows[..|rows| - 1], ids);
    }
  }

  lemma {:induction false} AmountOfAppend(rows: Table, ids: set<nat>, r: Row)
    requires |rows| !in ids
    ensures AmountOf(rows + [r], ids) == AmountOf(rows, ids)
  {
    assert (rows + [r])[..|rows|] == rows;
  }

  // ---------------------------------------------------------------- the invariant

  // A row that may still be credited is what its request says.
  predicate InvoicesDecode(decode: string -> Option<Bolt11>, rows: Table) {
    forall id :: 0 <= id < |rows| && rows[id].kind == Incoming && rows[id].paymentRequest != "" && rows[id].state != Settled ==>
      Says(decode, rows[id].paymentRequest, rows[id].paymentHash, rows[id].amountMsat)
  }

  predicate Clash(hold: Row, other: Row) {
    hold.kind == Incoming && hold.hold && other.kind == Incoming && other.paymentRequest == hold.paymentRequest
  }

  predicate HoldRequestsUnique(rows: Table) {
    forall id, other :: 0 <= id < |rows| && 0 <= other < |rows| && id != other ==> !Clash(rows[id], rows[other])
  }

  predicate SelfAccepted(r: Row) {
    r.kind == Incoming && r.state == Accepted && r.selfPayment
  }

  ghost predicate AcceptedBacked(rows: Table, credited: set<nat>, calls: seq<Call>) {
    forall id: nat :: id < |rows| && SelfAccepted(rows[id]) ==> Backed(calls, credited, id)
  }

  predicate CreditedSpend(rows: Table, ids: set<nat>) {
    forall id :: id in ids ==> id < |rows| && IsSpend(rows[id]) && rows[id].selfPayment
  }

  // A payment's row before its invoice is settled.
  predicate Uncredited(rows: Table, credited: set<nat>, row: nat, amountMsat: nat) {
    && row < |rows| && row !in credited
    && rows[row].kind == Outgoing && rows[row].state == Pending && rows[row].selfPayment
    && rows[row].amountMsat == amountMsat
  }

  predicate StageOk(rows: Table, credited: set<nat>, me: Call) {
    match me.stage
    case Inserted(row) => Uncredited(rows, credited, row, me.amountMsat)
    case Found(row, invoice, _) =>
      && Uncredited(rows, credited, row, me.amountMsat)
      && invoice < |rows| && rows[invoice].kind == Incoming && rows[invoice].paymentRequest == me.request
      && !rows[invoice].hold
    case Waiting(row, invoice) => Uncredited(rows, credited, row, me.amountMsat) && IsHoldFor(rows, invoice, me.request)
    case Parked(row, accepted) =>
      && Uncredited(rows, {}, row, me.amountMsat)
      && (accepted.Some? ==> IsHoldFor(rows, accepted.value, me.request) && rows[accepted.value].state != Pending)
      && (row in credited ==>
             accepted.Some? && rows[accepted.value].state == Settled && rows[accepted.value].preimage.Some?)
    case Missed(row) => Uncredited(rows, credited, row, me.amountMsat)
    case Delivered(row, _) => row < |rows| && IsSpend(rows[row]) && rows[row].selfPayment
    case _ => true
  }

  predicate IsHoldFor(rows: Table, id: nat, request: string) {
    id < |rows| && rows[id].kind == Incoming && rows[id].hold && rows[id].paymentRequest == request
  }

  function RowOf(stage: Stage): Option<nat> {
    match stage
    case Inserted(row) => Some(row)
    case Found(row, _, _) => Some(row)
    case Waiting(row, _) => Some(row)
    case Parked(row, _) => Some(row)
    case Missed(row) => Some(row)
    case Delivered(row, _) => Some(row)
    case _ => None
  }

  predicate SeparateRows(calls: seq<Call>, size: nat) {
    && (forall k :: 0 <= k < |calls| && RowOf(calls[k].stage).Some? ==> RowOf(calls[k].stage).value < size)
    && (forall k, l :: 0 <= k < l < |calls| && RowOf(calls[k].stage).Some? ==>
           RowOf(calls[k].stage) != RowOf(calls[l].stage))
  }

  ghost predicate Balanced(rows: Table, credited: set<nat>) {
    CreditedSpend(rows, credited) && Sum(rows, SelfReceipt) <= AmountOf(rows, credited)
  }

  ghost predicate Good(decode: string -> Option<Bolt11>, s: System) {
    && InvoicesDecode(decode, s.w.rows) && HoldRequestsUnique(s.w.rows)
    && AcceptedBacked(s.w.rows, s.credited, s.calls)
    && Balanced(s.w.rows, s.credited)
    && SeparateRows(s.calls, |s.w.rows|)
    && (forall k :: 0 <= k < |s.calls| ==> FromRequest(decode, s.calls[k]) && StageOk(s.w.rows, s.credited, s.calls[k]))
  }

  // Updating one row without a new self-receipt keeps the balance of credits.
  lemma {:induction false} UpdateBalanced(rows: Table, credited: set<nat>, id: nat, r: Row)
    requires Balanced(rows, credited) && id < |rows| && r.amountMsat == rows[id].amountMsat
    requires SelfReceipt(r) <= SelfReceipt(rows[id])
    requires id in credited ==> IsSpend(r) && r.selfPayment
    ensures Balanced(rows[id := r], credited)
  {
    SumUpdate(rows, id, r, SelfReceipt);
    AmountOfUpdate(rows, credited, id, r);
  }

  lemma {:induction false} AppendBalanced(rows: Table, credited: set<nat>, r: Row)
    requires Balanced(rows, credited) && SelfReceipt(r) == 0
    ensures Balanced(rows + [r], credited)
  {
    SumAppend(rows, r, SelfReceipt);
    assert |rows| !in credited;
    AmountOfAppend(rows, credited, r);
  }

  // Settling the invoice of a payment credits that payment.
  lemma {:induction false} CreditBalanced(rows: Table, credited: set<nat>, row: nat, id: nat, r: Row)
    requires Balanced(rows, credited) && row !in credited && row < |rows| && IsSpend(rows[row]) && rows[row].selfPayment
    requires id < |rows| && id != row && id !in credited && r.amountMsat == rows[id].amountMsat <= rows[row].amountMsat
    ensures Balanced(rows[id := r], credited + {row})
  {
    SumUpdate(rows, id, r, SelfReceipt);
    AmountOfUpdate(rows, credited + {row}, id, r);
    AmountOfInsert(rows, credited, row);
  }

  // ---------------------------------------------------------------- other traffic

  // A change of one row that is not a payment's row of a self-payment, and no self-receipt.
  predicate ForeignUpdate(rows: Table, rows': Table, id: int) {
    && 0 <= id < |rows| == |rows'|
    && rows' == rows[id := rows'[id]] && Evolves(rows[id], rows'[id])
    && SelfReceipt(rows'[id]) <= SelfReceipt(rows[id])
    && !(rows[id].kind == Outgoing && rows[id].selfPayment)
    && (SelfAccepted(rows'[id]) ==> SelfAccepted(rows[id]))
  }

  // A new row of other traffic is no self-receipt, and an invoice is what its request says.
  predicate ForeignRow(decode: string -> Option<Bolt11>, rows: Table, r: Row) {
    && SelfReceipt(r) == 0 && !SelfAccepted(r)
    && InvoicesDecode(decode, [r])
    && (r.kind == Incoming ==> forall id :: 0 <= id < |rows| && rows[id].kind == Incoming && rows[id].paymentRequest == r.paymentRequest ==>
          !r.hold && !rows[id].hold)
  }

  lemma {:induction false} ElsewhereGrowth(setup: Setup, decode: string -> Option<Bolt11>, w: World, op: Op)
    requires Truthful(decode, w.rows, op) && |Apply(setup, w, op).rows| != |w.rows|
    ensures var rows, rows' := w.rows, Apply(setup, w, op).rows;
            |rows'| == |rows| + 1 && rows' == rows + [rows'[|rows|]] && ForeignRow(decode, rows, rows'[|rows|])
  {
  }

  lemma {:induction false} ElsewhereUpdate(setup: Setup, decode: string -> Option<Bolt11>, w: World, op: Op)
    requires Truthful(decode, w.rows, op) && |Apply(setup, w, op).rows| == |w.rows|
    requires Apply(setup, w, op).rows != w.rows
    ensures exists id :: ForeignUpdate(w.rows, Apply(setup, w, op).rows, id)
  {
    var rows, rows' := w.rows, Apply(setup, w, op).rows;
    ApplyEvolves(setup, w, op);
    match op
    case Settle(id, _, _, _) =>
      assert ForeignUpdate(rows, rows', id);
    case Fail(id) =>
      assert ForeignUpdate(rows, rows', id);
    case Accept(request, hash, _) =>
      var id := FindAcceptable(rows, 0, request, hash).value;
      assert ForeignUpdate(rows, rows', id);
    case _ =>
      assert false;
  }

  lemma {:induction false} ElsewhereKeepsGood(setup: Setup, decode: string -> Option<Bolt11>, s: System, op: Op)
    requires Good(decode, s) && Truthful(decode, s.w.rows, op)
    ensures Good(decode, s.(w := Apply(setup, s.w, op)))
  {
    var rows, rows' := s.w.rows, Apply(setup, s.w, op).rows;
    if rows' == rows {
    } else if |rows'| != |rows| {
      ElsewhereGrowth(setup, decode, s.w, op);
      ForeignRowKeepsGood(decode, s, Apply(setup, s.w, op));
    } else {
      ElsewhereUpdate(setup, decode, s.w, op);
      ForeignUpdateKeepsGood(decode, s, Apply(setup, s.w, op));
    }
  }

  lemma {:induction false} ForeignRowKeepsGood(decode: string -> Option<Bolt11>, s: System, w: World)
    requires Good(decode, s) && |w.rows| == |s.w.rows| + 1 && w.rows == s.w.rows + [w.rows[|s.w.rows|]]
    requires ForeignRow(decode, s.w.rows, w.rows[|s.w.rows|])
    ensures Good(decode, s.(w := w))
  {
    var rows := s.w.rows;
    AppendBalanced(rows, s.credited, w.rows[|rows|]);
    GrowthStages(rows, w.rows, s.credited, s.calls);
    GrowthInvoices(decode, rows, w.rows[|rows|]);
  }

  lemma {:induction false} ForeignUpdateKeepsGood(decode: string -> Option<Bolt11>, s: System, w: World)
    requires Good(decode, s) && exists id :: ForeignUpdate(s.w.rows, w.rows, id)
    ensures Good(decode, s.(w := w))
  {
    var rows := s.w.rows;
    var id :| ForeignUpdate(rows, w.rows, id);
    UpdateBalanced(rows, s.credited, id, w.rows[id]);
    UpdateStages(rows, id, w.rows[id], s.credited, s.calls);
    UpdateInvoices(decode, rows, id, w.rows[id]);
  }

  lemma {:induction false} GrowthInvoices(decode: string -> Option<Bolt11>, rows: Table, r: Row)
    requires InvoicesDecode(decode, rows) && HoldRequestsUnique(rows)
    requires r.kind == Outgoing || ForeignRow(decode, rows, r)
    ensures InvoicesDecode(decode, rows + [r]) && HoldRequestsUnique(rows + [r])
  {
    assert [r][0] == r;
  }

  lemma {:induction false} UpdateInvoices(decode: string -> Option<Bolt11>, rows: Table, id: nat, r: Row)
    requires InvoicesDecode(decode, rows) && HoldRequestsUnique(rows)
    requires id < |rows| && Evolves(rows[id], r)
    ensures InvoicesDecode(decode, rows[id := r]) && HoldRequestsUnique(rows[id := r])
  {
  }

  // Only call `k`, and only the crediting of its row, can matter to what backs a row.
  lemma {:induction false} BackingKept(rows: Table, rows': Table, credited: set<nat>, credited': set<nat>,
                                       calls: seq<Call>, k: nat, me: Call)
    requires AcceptedBacked(rows, credited, calls) && SeparateRows(calls, |rows|) && k < |calls| && |rows| <= |rows'|
    requires forall id :: 0 <= id < |rows'| && SelfAccepted(rows'[id]) ==>
               (id < |rows| && SelfAccepted(rows[id])) || Backs(me, id, credited')
    requires credited' == credited || (RowOf(calls[k].stage).Some? && credited' == credited + {RowOf(calls[k].stage).value})
    requires forall id :: 0 <= id < |rows'| && SelfAccepted(rows'[id]) && Backs(calls[k], id, credited) ==>
               Backs(me, id, credited')
    ensures AcceptedBacked(rows', credited', calls[k := me])
  {
    forall id: nat | id < |rows'| && SelfAccepted(rows'[id])
      ensures Backed(calls[k := me], credited', id)
    {
      var after := calls[k := me];
      if Backs(me, id, credited') {
        assert Backs(after[k], id, credited');
      } else {
        assert Backed(calls, credited, id);
        var l :| 0 <= l < |calls| && Backs(calls[l], id, credited);
        assert l != k && RowOf(calls[l].stage) != RowOf(calls[k].stage);
        assert Backs(after[l], id, credited');
      }
    }
  }

  lemma {:induction false} GrowthStages(rows: Table, rows': Table, credited: set<nat>, calls: seq<Call>)
    requires rows <= rows'
    requires forall k :: 0 <= k < |calls| ==> StageOk(rows, credited, calls[k])
    ensures forall k :: 0 <= k < |calls| ==> StageOk(rows', credited, calls[k])
  {
  }

  lemma {:induction false} UpdateStages(rows: Table, id: nat, r: Row, credited: set<nat>, calls: seq<Call>)
    requires id < |rows| && Evolves(rows[id], r) && !(rows[id].kind == Outgoing && rows[id].selfPayment)
    requires forall k :: 0 <= k < |calls| ==> StageOk(rows, credited, calls[k])
    ensures forall k :: 0 <= k < |calls| ==> StageOk(rows[id := r], credited, calls[k])
  {
    forall k | 0 <= k < |calls|
      ensures StageOk(rows[id := r], credited, calls[k])
    {
      assert StageOk(rows, credited, calls[k]);
    }
  }

  // ---------------------------------------------------------------- the calls

  // A call that moves on without touching its row or others' rows.
  lemma {:induction false} OnlyStageMoves(decode: string -> Option<Bolt11>, s: System, k: nat, stage: Stage)
    requires Good(decode, s) && k < |s.calls|
    requires RowOf(stage) == RowOf(s.calls[k].stage) || RowOf(stage) == None
    requires s.calls[k].stage.Parked? ==> StageOk(s.w.rows, s.credited, s.calls[k])
    requires StageOk(s.w.rows, s.credited, s.calls[k].(stage := stage))
    requires s.calls[k].stage.Parked? && s.calls[k].stage.accepted.Some? ==>
               !SelfAccepted(s.w.rows[s.calls[k].stage.accepted.value])
    ensures Good(decode, s.(calls := s.calls[k := s.calls[k].(stage := stage)]))
  {
    BackingKept(s.w.rows, s.w.rows, s.credited, s.credited, s.calls, k, s.calls[k].(stage := stage));
  }

  lemma {:induction false} InsertKeepsGood(setup: Setup, decode: string -> Option<Bolt11>, s: System, k: nat)
    requires Good(decode, s) && k < |s.calls| && s.calls[k].stage == Decided
    ensures Good(decode, Advanced(setup, s, k))
  {
    var me := s.calls[k];
    var inserted := InsertPayment(setup, s.w.rows, s.w.now, me.appId, me.amountMsat, me.request, me.hash, true);
    if inserted.Ok? {
      var r := PendingPayment(me.appId, me.amountMsat, me.request, me.hash, None, true, s.w.now);
      AppendBalanced(s.w.rows, s.credited, r);
      GrowthStages(s.w.rows, s.w.rows + [r], s.credited, s.calls);
      GrowthInvoices(decode, s.w.rows, r);
      BackingKept(s.w.rows, s.w.rows + [r], s.credited, s.credited, s.calls, k, me.(stage := Inserted(|s.w.rows|)));
    } else {
      OnlyStageMoves(decode, s, k, Refused);
    }
  }

  // Other calls keep their place when one call's row, or an invoice, changes.
  lemma {:induction false} OthersKeepPlace(decode: string -> Option<Bolt11>, s: System, k: nat, id: nat, r: Row,
                                           credited: set<nat>, l: nat)
    requires Good(decode, s) && k < |s.calls| && l < |s.calls| && l != k && RowOf(s.calls[k].stage).Some?
    requires id < |s.w.rows| && Evolves(s.w.rows[id], r)
    requires id == RowOf(s.calls[k].stage).value || r.kind == Incoming
    requires credited <= s.credited + {RowOf(s.calls[k].stage).value}
    ensures StageOk(s.w.rows[id := r], credited, s.calls[l])
  {
    assert StageOk(s.w.rows, s.credited, s.calls[l]);
    assert RowOf(s.calls[l].stage) != RowOf(s.calls[k].stage);
  }

  // The invoice of call `k` is settled to `r`.
  lemma {:induction false} CreditingKeepsGood(decode: string -> Option<Bolt11>, s: System, k: nat, r: Row,
                                              events: seq<Event>, stage: Stage)
    requires Good(decode, s) && k < |s.calls| && s.calls[k].stage.Found?
    requires StageOk(s.w.rows, s.credited, s.calls[k])
    requires var Found(row, invoice, _) := s.calls[k].stage;
             && Evolves(s.w.rows[invoice], r) && s.w.rows[invoice].state != Settled && r.state == Settled
             && stage.Delivered? && stage.row == row
    ensures var Found(row, invoice, _) := s.calls[k].stage;
            Good(decode, System(Commit(s.w, s.w.rows[invoice := r], events), s.calls[k := s.calls[k].(stage := stage)], s.credited + {row}))
  {
    var rows := s.w.rows;
    var Found(row, invoice, _) := s.calls[k].stage;
    assert invoice !in s.credited;
    CreditBalanced(rows, s.credited, row, invoice, r);
    UpdateInvoices(decode, rows, invoice, r);
    BackingKept(rows, rows[invoice := r], s.credited, s.credited + {row}, s.calls, k, s.calls[k].(stage := stage));
    forall l | 0 <= l < |s.calls| && l != k
      ensures StageOk(rows[invoice := r], s.credited + {row}, s.calls[l])
    {
      OthersKeepPlace(decode, s, k, invoice, r, s.credited + {row}, l);
    }
  }

  lemma {:induction false} UnsettledBefore(rows: Table, id: nat)
    requires id < |rows| && FindSettled(rows, rows[id]).None?
    ensures rows[id].state != Settled
  {
    var r := rows[id];
    assert !Matches(r, r.kind, Some(Settled), r.paymentRequest, r.paymentHash);
  }

  lemma {:induction false} CreditKeepsGood(setup: Setup, decode: string -> Option<Bolt11>, s: System, k: nat)
    requires Good(decode, s) && k < |s.calls| && s.calls[k].stage.Found?
    ensures Good(decode, Advanced(setup, s, k))
  {
    var me, rows := s.calls[k], s.w.rows;
    var Found(row, invoice, preimage) := me.stage;
    assert StageOk(rows, s.credited, me);
    if preimage.Some? {
      var result := MarkTransactionSettled(rows, invoice, preimage.value, 0, true, s.w.now);
      if result.outcome.SettledNow? {
        SettleEvolves(rows, invoice, preimage.value, 0, true, s.w.now);
        UnsettledBefore(rows, invoice);
        CreditingKeepsGood(decode, s, k, result.rows[invoice], result.events, Delivered(row, preimage.value));
      } else {
        OnlyStageMoves(decode, s, k, if result.outcome.NoPreimage? then Missed(row) else Delivered(row, preimage.value));
      }
    }
  }

  // A call ends with a change of its own row.
  lemma {:induction false} OwnRowChanges(decode: string -> Option<Bolt11>, s: System, k: nat, r: Row,
                                         events: seq<Event>, success: bool)
    requires Good(decode, s) && k < |s.calls| && (s.calls[k].stage.Missed? || s.calls[k].stage.Delivered?)
    requires var row := s.calls[k].stage.row;
             && row < |s.w.rows| && s.w.rows[row].kind == Outgoing && Evolves(s.w.rows[row], r)
             && (row in s.credited ==> IsSpend(r) && r.selfPayment)
    ensures Good(decode, System(Commit(s.w, s.w.rows[s.calls[k].stage.row := r], events),
                                s.calls[k := s.calls[k].(stage := Returned(success))], s.credited))
  {
    var row, rows := s.calls[k].stage.row, s.w.rows;
    UpdateBalanced(rows, s.credited, row, r);
    UpdateInvoices(decode, rows, row, r);
    BackingKept(rows, rows[row := r], s.credited, s.credited, s.calls, k, s.calls[k].(stage := Returned(success)));
    forall l | 0 <= l < |s.calls| && l != k
      ensures StageOk(rows[row := r], s.credited, s.calls[l])
    {
      OthersKeepPlace(decode, s, k, row, r, s.credited, l);
    }
  }

  lemma {:induction false} FailKeepsGood(setup: Setup, decode: string -> Option<Bolt11>, s: System, k: nat)
    requires Good(decode, s) && k < |s.calls| && s.calls[k].stage.Missed?
    ensures Good(decode, Advanced(setup, s, k))
  {
    var row, rows := s.calls[k].stage.row, s.w.rows;
    assert StageOk(rows, s.credited, s.calls[k]);
    var r := rows[row].(state := Failed, feeReserveMsat := 0);
    OwnRowChanges(decode, s, k, r, [PaymentFailed(row)], false);
  }

  lemma {:induction false} SettleKeepsGood(setup: Setup, decode: string -> Option<Bolt11>, s: System, k: nat)
    requires Good(decode, s) && k < |s.calls| && s.calls[k].stage.Delivered?
    ensures Good(decode, Advanced(setup, s, k))
  {
    var Delivered(row, proof) := s.calls[k].stage;
    var rows := s.w.rows;
    assert StageOk(rows, s.credited, s.calls[k]);
    var result := MarkTransactionSettled(rows, row, proof, 0, true, s.w.now);
    SettleEvolves(rows, row, proof, 0, true, s.w.now);
    assert result.rows == rows[row := result.rows[row]];
    OwnRowChanges(decode, s, k, result.rows[row], result.events, !result.outcome.NoPreimage?);
  }

  lemma {:induction false} LookupKeepsGood(setup: Setup, decode: string -> Option<Bolt11>, s: System, k: nat)
    requires Good(decode, s) && k < |s.calls| && (s.calls[k].stage.Started? || s.calls[k].stage.Inserted?)
    ensures Good(decode, Advanced(setup, s, k))
  {
    assert StageOk(s.w.rows, s.credited, s.calls[k]);
    OnlyStageMoves(decode, s, k, Advanced(setup, s, k).calls[k].stage);
  }

  // ---------------------------------------------------------------- hold invoices

  lemma {:induction false} AcceptKeepsGood(setup: Setup, decode: string -> Option<Bolt11>, s: System, k: nat)
    requires Good(decode, s) && k < |s.calls| && s.calls[k].stage.Waiting?
    ensures Good(decode, Advanced(setup, s, k))
  {
    var me, rows := s.calls[k], s.w.rows;
    var Waiting(row, invoice) := me.stage;
    assert StageOk(rows, s.credited, me);
    var result := MarkHoldInvoiceAccepted(rows, me.request, me.hash, true);
    var stage := Parked(row, result.accepted);
    if result.accepted.None? {
      OnlyStageMoves(decode, s, k, stage);
    } else {
      var id := result.accepted.value;
      assert id == invoice;
      var r := result.rows[id];
      AcceptEvolves(rows, me.request, me.hash, true);
      assert Evolves(rows[id], r) && result.rows == rows[id := r];
      AcceptingKeepsGood(decode, s, k, r, result.events);
    }
  }

  // The pending hold row of call `k` becomes accepted as `r`.
  lemma {:induction false} AcceptingKeepsGood(decode: string -> Option<Bolt11>, s: System, k: nat, r: Row,
                                              events: seq<Event>)
    requires Good(decode, s) && k < |s.calls| && s.calls[k].stage.Waiting? && StageOk(s.w.rows, s.credited, s.calls[k])
    requires var invoice := s.calls[k].stage.invoice; Evolves(s.w.rows[invoice], r) && r.state == Accepted && invoice !in s.credited
    ensures var Waiting(row, invoice) := s.calls[k].stage;
            Good(decode, System(Commit(s.w, s.w.rows[invoice := r], events), s.calls[k := s.calls[k].(stage := Parked(row, Some(invoice)))], s.credited))
  {
    var rows := s.w.rows;
    var Waiting(row, invoice) := s.calls[k].stage;
    UpdateBalanced(rows, s.credited, invoice, r);
    UpdateInvoices(decode, rows, invoice, r);
    BackingKept(rows, rows[invoice := r], s.credited, s.credited, s.calls, k,
                s.calls[k].(stage := Parked(row, Some(invoice))));
    forall l | 0 <= l < |s.calls| && l != k
      ensures StageOk(rows[invoice := r], s.credited, s.calls[l])
    {
      OthersKeepPlace(decode, s, k, invoice, r, s.credited, l);
    }
  }

  // The request names one hold row, so what wakes the call is what became of the row it accepted.
  lemma {:induction false} WakeKeepsGood(decode: string -> Option<Bolt11>, s: System, k: nat, id: nat, cancelled: bool)
    requires Good(decode, s) && k < |s.calls| && MayWake(s.w.rows, s.calls[k], id, cancelled)
    requires cancelled && s.calls[k].stage.accepted == Some(id) ==> s.calls[k].stage.row !in s.credited
    ensures Good(decode, Woken(s, k, id, cancelled))
  {
    var me := s.calls[k];
    assert StageOk(s.w.rows, s.credited, me);
    assert me.stage.accepted.Some? ==> me.stage.accepted.value == id;
    OnlyStageMoves(decode, s, k, Woken(s, k, id, cancelled).calls[k].stage);
  }

  lemma {:induction false} HoldSettledKeepsGood(decode: string -> Option<Bolt11>, s: System, id: nat, preimage: string)
    requires Good(decode, s) && id < |s.w.rows| && s.w.rows[id].kind == Incoming && s.w.rows[id].state == Accepted
    ensures Good(decode, HoldSettled(s, id, preimage, s.w.rows[id].selfPayment))
  {
    var rows := s.w.rows;
    var result := MarkTransactionSettled(rows, id, preimage, 0, rows[id].selfPayment, s.w.now);
    if result.outcome.SettledNow? {
      SettleEvolves(rows, id, preimage, 0, rows[id].selfPayment, s.w.now);
      var r := result.rows[id];
      UpdateInvoices(decode, rows, id, r);
      if SelfAccepted(rows[id]) {
        assert Backed(s.calls, s.credited, id);
        SelfHoldSettles(decode, s, id, r, result.events, Backer(s, id));
      } else {
        UnbackedSettles(decode, s, id, r, result.events);
      }
    }
  }

  // A row that no payment of this node credits is settled as `r`, from outside.
  lemma {:induction false} UnbackedSettles(decode: string -> Option<Bolt11>, s: System, id: nat, r: Row,
                                           events: seq<Event>)
    requires Good(decode, s) && id < |s.w.rows| && s.w.rows[id].kind == Incoming && Evolves(s.w.rows[id], r)
    requires r.state == Settled && !r.selfPayment
    ensures Good(decode, s.(w := Commit(s.w, s.w.rows[id := r], events)))
  {
    UpdateInvoices(decode, s.w.rows, id, r);
    UpdateBalanced(s.w.rows, s.credited, id, r);
    UpdateStages(s.w.rows, id, r, s.credited, s.calls);
    assert AcceptedBacked(s.w.rows[id := r], s.credited, s.calls);
  }

  // The row that call `k` accepted is settled as `r`, which credits the call's payment.
  lemma {:induction false} SelfHoldSettles(decode: string -> Option<Bolt11>, s: System, id: nat, r: Row,
                                           events: seq<Event>, k: nat)
    requires Good(decode, s) && k < |s.calls| && Backs(s.calls[k], id, s.credited)
    requires id < |s.w.rows| && SelfAccepted(s.w.rows[id]) && Evolves(s.w.rows[id], r) && r.state == Settled
    requires r.preimage.Some?
    ensures Good(decode, s.(w := Commit(s.w, s.w.rows[id := r], events), credited := s.credited + {s.calls[k].stage.row}))
  {
    var rows, me := s.w.rows, s.calls[k];
    var row := me.stage.row;
    assert StageOk(rows, s.credited, me) && FromRequest(decode, me);
    CreditBalanced(rows, s.credited, row, id, r);
    UpdateInvoices(decode, rows, id, r);
    BackingKept(rows, rows[id := r], s.credited, s.credited + {row}, s.calls, k, me);
    assert s.calls[k := me] == s.calls;
    forall l | 0 <= l < |s.calls| && l != k
      ensures StageOk(rows[id := r], s.credited + {row}, s.calls[l])
    {
      OthersKeepPlace(decode, s, k, id, r, s.credited + {row}, l);
    }
  }

  lemma {:induction false} AdvanceKeepsGood(setup: Setup, decode: string -> Option<Bolt11>, s: System, k: nat)
    requires Good(decode, s) && k < |s.calls|
    ensures Good(decode, Advanced(setup, s, k))
  {
    match s.calls[k].stage
    case Decided => InsertKeepsGood(setup, decode, s, k);
    case Found(_, _, _) => CreditKeepsGood(setup, decode, s, k);
    case Waiting(_, _) => AcceptKeepsGood(setup, decode, s, k);
    case Missed(_) => FailKeepsGood(setup, decode, s, k);
    case Delivered(_, _) => SettleKeepsGood(setup, decode, s, k);
    case Started => LookupKeepsGood(setup, decode, s, k);
    case Inserted(_) => LookupKeepsGood(setup, decode, s, k);
    case _ =>
  }

  lemma TotalFromCredits(rows: Table, credited: set<nat>)
    requires Balanced(rows, credited)
    ensures TotalBalanceMsat(rows) <= ExternalReceiptsMsat(rows)
  {
    SumDifference(rows, Receipt, SelfReceipt, ExternalReceipt);
    AmountOfSpends(rows, credited);
  }
}
