/**
  The transactions service as a caller sees it: each method runs its database
  transactions one after the other and publishes events after each commit.
  The interleaved behaviour of the same transactions is the subject of the modules
  that import LedgerRuns.
 */
module TransactionsService {
  import opened Wrappers
  import opened Ledger
  import opened LedgerSteps
  import opened LedgerRuns
  import opened Wallets
  import opened Payments
  import opened LedgerMeaning

  // The row a payment_sent notification is about: pending before failed before any other. The
  // database picks the failed row updated last.
  function SentRow(rows: Table, hash: string, lastFailed: Option<nat>): Option<nat> {
    var pending := FindRow(rows, Outgoing, Some(Pending), "", hash);
    if pending.Some? then pending
    else if lastFailed.Some? then lastFailed
    else FindRow(rows, Outgoing, None, "", hash)
  }

  // Some failed row of the hash, if there is one.
  predicate MayBeLastFailed(rows: Table, hash: string, lastFailed: Option<nat>) {
    if lastFailed.None? then FindRow(rows, Outgoing, Some(Failed), "", hash).None?
    else lastFailed.value < |rows| && Matches(rows[lastFailed.value], Outgoing, Some(Failed), "", hash)
  }

  // What a notification of a settled payment commits: its row settled, or a row for a payment not known before.
  function Noticed(rows: Table, known: Option<nat>, unknown: Row, preimage: string, feeMsat: nat,
                   now: int): SettleResult
    requires known.Some? ==> known.value < |rows|
  {
    if known.Some? then LedgerSteps.MarkTransactionSettled(rows, known.value, preimage, feeMsat, false, now)
    else CreateSettledTransaction(rows, unknown, preimage, feeMsat, now)
  }

  lemma {:induction false} NoticedEvolves(rows: Table, known: Option<nat>, unknown: Row, preimage: string,
                                          feeMsat: nat, now: int)
    requires known.Some? ==> known.value < |rows|
    ensures TableEvolves(rows, Noticed(rows, known, unknown, preimage, feeMsat, now).rows)
  {
    if known.Some? {
      SettleEvolves(rows, known.value, preimage, feeMsat, false, now);
    } else {
      GrowthEvolves(rows, Noticed(rows, known, unknown, preimage, feeMsat, now).rows);
    }
  }

  /** With a preimage, some row of the notified direction and hash is settled afterwards. */
  lemma {:induction false} NoticedIsSettled(rows: Table, known: Option<nat>, unknown: Row, preimage: string,
                                            feeMsat: nat, now: int, kind: TxType, hash: string)
    requires preimage != "" && unknown.kind == kind && unknown.paymentHash == hash
    requires known.Some? ==> known.value < |rows| && Matches(rows[known.value], kind, None, "", hash)
    ensures FindRow(Noticed(rows, known, unknown, preimage, feeMsat, now).rows, kind, Some(Settled), "", hash).Some?
  {
    var r := Noticed(rows, known, unknown, preimage, feeMsat, now);
    var id := if r.outcome.AlreadySettled? then r.outcome.existing else if known.Some? then known.value else |rows|;
    assert Matches(r.rows[id], kind, Some(Settled), "", hash);
  }

  /** A notification of a settled payment is one of the steps that runs interleave. */
  lemma {:induction false} NoticedIsStep(setup: Setup, w: World, known: Option<nat>, kind: TxType, appId: Option<nat>,
                                         amountMsat: nat, request: string, hash: string, preimage: string, feeMsat: nat)
    requires known.Some? ==> known.value < |w.rows|
    ensures var unknown := Row(appId, kind, Pending, amountMsat, 0, 0, request, hash, None, w.now, None, false, false);
            var r := Noticed(w.rows, known, unknown, preimage, feeMsat, w.now);
            var op := if known.Some? then Settle(known.value, preimage, feeMsat, false)
                      else Notify(kind, appId, amountMsat, request, hash, preimage, feeMsat);
            Apply(setup, w, op) == World(w.now, r.rows, w.outbox + multiset(r.events), w.published)
  {
  }

  /** A notified receipt gives its row's owner the amount, once. */
  lemma {:induction false} NoticedReceipt(rows: Table, known: Option<nat>, unknown: Row, preimage: string,
                                          feeMsat: nat, now: int)
    requires unknown.kind == Incoming
    requires known.Some? ==> known.value < |rows| && rows[known.value].kind == Incoming
    ensures var r := Noticed(rows, known, unknown, preimage, feeMsat, now);
            var row := if known.Some? then rows[known.value] else unknown;
            Received(rows, r.rows, row.appId, if r.outcome.SettledNow? then row.amountMsat else 0)
  {
    if known.Some? {
      SettlingPaysOwner(rows, known.value, preimage, feeMsat, false, now);
    } else {
      AppendMovesBalances(rows, SettledRow(unknown, preimage, feeMsat, false, now));
    }
  }

  class Service {
    const setup: Setup
    var now: int
    var rows: Table
    var published: seq<Event>

    constructor (setup: Setup)
      ensures this.setup == setup && rows == [] && published == []
    {
      this.setup := setup;
      now, rows, published := 0, [], [];
    }

    // ---------------------------------------------------------------- marking

    method MarkTransactionSettled(id: nat, preimage: string, feeMsat: nat, selfPayment: bool)
      returns (outcome: Settlement)
      requires id < |rows|
      modifies `rows, `published
      ensures var r := LedgerSteps.MarkTransactionSettled(old(rows), id, preimage, feeMsat, selfPayment, now);
              rows == r.rows && outcome == r.outcome && published == old(published) + r.events
    {
      if preimage == "" {
        return NoPreimage;
      }
      var existing := FindSettled(rows, rows[id]);
      if existing.Some? {
        return AlreadySettled(existing.value);
      }
      rows := rows[id := rows[id].(state := Settled, preimage := Some(preimage), feeMsat := feeMsat,
                                   feeReserveMsat := 0,
                                   settledAt := Some(now), selfPayment := selfPayment)];
      outcome := SettledNow;
      published := published + [if rows[id].kind == Incoming then PaymentReceived(id) else PaymentSent(id)];
    }

    method CreateSettledTransactionFromNotification(r: Row, preimage: string, feeMsat: nat)
      returns (outcome: Settlement)
      modifies `rows, `published
      ensures var c := CreateSettledTransaction(old(rows), r, preimage, feeMsat, now);
              rows == c.rows && outcome == c.outcome && published == old(published) + c.events
    {
      if preimage == "" {
        return NoPreimage;
      }
      var existing := FindSettled(rows, r);
      if existing.Some? {
        return AlreadySettled(existing.value);
      }
      rows := rows + [r.(state := Settled, preimage := Some(preimage), feeMsat := feeMsat, feeReserveMsat := 0,
                         settledAt := Some(now), selfPayment := false)];
      outcome := SettledNow;
      published := published + [if r.kind == Incoming then PaymentReceived(|rows| - 1) else PaymentSent(|rows| - 1)];
    }

    method MarkPaymentFailed(id: nat) returns (outcome: LedgerSteps.Failure)
      modifies `rows, `published
      ensures var r := LedgerSteps.MarkPaymentFailed(old(rows), id);
              rows == r.rows && outcome == r.outcome && published == old(published) + r.events
    {
      if id >= |rows| {
        return RowNotFound;
      }
      if rows[id].state == Failed {
        return AlreadyFailed;
      }
      if rows[id].state == Settled {
        return RefusedSettled;
      }
      rows := rows[id := rows[id].(state := Failed, feeReserveMsat := 0)];
      outcome := FailedNow;
      published := published + [PaymentFailed(id)];
    }

    // ---------------------------------------------------------------- notifications

    /**
      A payment_sent notification settles the row it is about, or adds one for a payment not known before,
      and publishes that; with a preimage, some outgoing row of the hash is settled afterwards.
     */
    method ConsumePaymentSent(invoice: string, hash: string, amountMsat: nat, preimage: string, feeMsat: nat,
                              lastFailed: Option<nat>)
      requires MayBeLastFailed(rows, hash, lastFailed)
      modifies `rows, `published
      ensures var unknown := Row(None, Outgoing, Pending, amountMsat, 0, 0, invoice, hash, None, now, None, false,
                                 false);
              var r := Noticed(old(rows), SentRow(old(rows), hash, lastFailed), unknown, preimage, feeMsat, now);
              rows == r.rows && published == old(published) + r.events
      ensures var pending := FindRow(old(rows), Outgoing, Some(Pending), "", hash);
              var about := if pending.Some? then pending else lastFailed;
              && (preimage == "" ==> rows == old(rows) && published == old(published))
              && (about.Some? && preimage != "" && NoTwinSettled(old(rows), old(rows)[about.value]) ==>
                    && OnlySettles(old(rows), rows, about.value, preimage, feeMsat, false, now)
                    && published == old(published) + [PaymentSent(about.value)])
      ensures TableEvolves(old(rows), rows)
      ensures preimage != "" ==> FindRow(rows, Outgoing, Some(Settled), "", hash).Some?
    {
      ghost var known := SentRow(rows, hash, lastFailed);
      var unknown := Row(None, Outgoing, Pending, amountMsat, 0, 0, invoice, hash, None, now, None, false, false);
      NoticedEvolves(rows, known, unknown, preimage, feeMsat, now);
      if preimage != "" {
        NoticedIsSettled(rows, known, unknown, preimage, feeMsat, now, Outgoing, hash);
      }
      if known.Some? {
        SettlingMeans(rows, known.value, preimage, feeMsat, false, now);
      }
      var found := FindRow(rows, Outgoing, Some(Pending), "", hash);
      if found.None? {
        found := lastFailed;
      }
      if found.None? {
        found := FindRow(rows, Outgoing, None, "", hash);
      }
      if found.None? {
        var _ := CreateSettledTransactionFromNotification(unknown, preimage, feeMsat);
      } else {
        var _ := MarkTransactionSettled(found.value, preimage, feeMsat, false);
      }
    }

    /**
      A payment_failed notification fails the first pending payment of the hash and nothing else, and gives its payer
      back all it weighed.
     */
    method ConsumePaymentFailed(hash: string)
      modifies `rows, `published
      ensures var found := FindRow(old(rows), Outgoing, Some(Pending), "", hash);
              && (found.None? ==> rows == old(rows) && published == old(published))
              && (found.Some? ==>
                   && rows == old(rows)[found.value := old(rows)[found.value].(state := Failed, feeReserveMsat := 0)]
                   && published == old(published) + [PaymentFailed(found.value)]
                   && forall who :: WalletBalanceMsat(rows, who) == WalletBalanceMsat(old(rows), who) + Released(who, old(rows)[found.value]))
    {
      var found := FindRow(rows, Outgoing, Some(Pending), "", hash);
      if found.Some? {
        FailingReleases(rows, found.value);
        var _ := MarkPaymentFailed(found.value);
      }
    }

    /**
      A payment_received notification settles the first incoming row of the hash, or adds one for a payment not known
      before, and publishes that; its owner receives the amount exactly if it had not been settled.
     */
    method ConsumePaymentReceived(appId: Option<nat>, invoice: string, hash: string, amountMsat: nat, preimage: string,
                                  feeMsat: nat)
      modifies `rows, `published
      ensures var unknown := Row(appId, Incoming, Pending, amountMsat, 0, 0, invoice, hash, None, now, None, false,
                                 false);
              var known := FindRow(old(rows), Incoming, None, "", hash);
              var r := Noticed(old(rows), known, unknown, preimage, feeMsat, now);
              var row := if known.Some? then old(rows)[known.value] else unknown;
              && rows == r.rows && published == old(published) + r.events
              && Received(old(rows), rows, row.appId, if r.outcome.SettledNow? then row.amountMsat else 0)
      ensures TableEvolves(old(rows), rows)
      ensures preimage != "" ==> FindRow(rows, Incoming, Some(Settled), "", hash).Some?
    {
      var known := FindRow(rows, Incoming, None, "", hash);
      var unknown := Row(appId, Incoming, Pending, amountMsat, 0, 0, invoice, hash, None, now, None, false, false);
      NoticedEvolves(rows, known, unknown, preimage, feeMsat, now);
      NoticedReceipt(rows, known, unknown, preimage, feeMsat, now);
      if preimage != "" {
        NoticedIsSettled(rows, known, unknown, preimage, feeMsat, now, Incoming, hash);
      }
      if known.None? {
        var _ := CreateSettledTransactionFromNotification(unknown, preimage, feeMsat);
      } else {
        var _ := MarkTransactionSettled(known.value, preimage, feeMsat, false);
      }
    }

    // ---------------------------------------------------------------- hold invoices

    /**
      Settles the first accepted hold invoice of the preimage's hash and credits its owner. It succeeds exactly
      when there is one and, unless it is paid from this node, the node settles it.
     */
    method SettleHoldInvoice(preimage: string, hashOf: string -> Option<string>, nodeSettles: bool)
      returns (settled: bool)
      modifies `rows, `published
      ensures settled <==>
                && preimage != "" && hashOf(preimage).Some?
                && var found := FindRow(old(rows), Incoming, Some(Accepted), "", hashOf(preimage).value);
                   found.Some? && (old(rows)[found.value].selfPayment || nodeSettles)
      ensures !settled ==> rows == old(rows) && published == old(published)
      ensures settled ==>
                var id := FindRow(old(rows), Incoming, Some(Accepted), "", hashOf(preimage).value).value;
                var r := old(rows)[id];
                && Received(old(rows), rows, r.appId, if Unsettled(old(rows), r) then r.amountMsat else 0)
                && (if Unsettled(old(rows), r)
                    then rows == old(rows)[id := SettledRow(r, preimage, 0, r.selfPayment, now)] && published == old(published) + [PaymentReceived(id)]
                    else rows == old(rows) && published == old(published))
    {
      if hashOf(preimage).None? {
        return false;
      }
      var found := FindRow(rows, Incoming, Some(Accepted), "", hashOf(preimage).value);
      if found.None? || (!rows[found.value].selfPayment && !nodeSettles) {
        return false;
      }
      SettlingPaysOwner(rows, found.value, preimage, 0, rows[found.value].selfPayment, now);
      var outcome := MarkTransactionSettled(found.value, preimage, 0, rows[found.value].selfPayment);
      settled := !outcome.NoPreimage?;
    }

    /**
      Cancels the first accepted hold invoice of a hash: its row fails, both events are published in order, no balance
      changes.
     */
    method CancelHoldInvoice(hash: string, nodeCancels: bool) returns (cancelled: bool)
      modifies `rows, `published
      ensures var found := FindRow(old(rows), Incoming, Some(Accepted), "", hash);
              && (cancelled <==> found.Some? && (old(rows)[found.value].selfPayment || nodeCancels))
              && (cancelled ==>
                   && rows == old(rows)[found.value := old(rows)[found.value].(state := Failed, feeReserveMsat := 0)]
                   && published == old(published) + [PaymentFailed(found.value), HoldInvoiceCanceled(found.value)])
      ensures !cancelled ==> rows == old(rows) && published == old(published)
      ensures forall who :: WalletBalanceMsat(rows, who) == WalletBalanceMsat(old(rows), who)
    {
      var found := FindRow(rows, Incoming, Some(Accepted), "", hash);
      if found.None? || (!rows[found.value].selfPayment && !nodeCancels) {
        return false;
      }
      UpdateMovesBalances(rows, found.value, rows[found.value].(state := Failed, feeReserveMsat := 0));
      var outcome := MarkPaymentFailed(found.value);
      if outcome.FailedNow? {
        published := published + [HoldInvoiceCanceled(found.value)];
      }
      return true;
    }

    // ---------------------------------------------------------------- paying

    /**
      Adds, for whole amounts of at least a satoshi, the row of the invoice the node makes, as the node describes it.
     */
    method MakeInvoice(appId: Option<nat>, amountMsat: nat, answer: Option<NewInvoice>) returns (id: Option<nat>)
      modifies `rows
      ensures id.Some? <==> amountMsat % 1000 == 0 && amountMsat >= 1000 && answer.Some?
      ensures id.None? ==> rows == old(rows)
      ensures id.Some? ==>
                && id.value == |old(rows)| && |rows| == |old(rows)| + 1 && rows[..|old(rows)|] == old(rows)
                && IsInvoiceMade(rows[|old(rows)|], appId, answer.value, now)
                && rows[|old(rows)|] == MadeRow(appId, answer.value, now)
    {
      if amountMsat % 1000 != 0 || amountMsat < 1000 || answer.None? {
        return None;
      }
      id := Some(|rows|);
      rows := rows + [MadeRow(appId, answer.value, now)];
    }

    /**
      Settles the pending invoice a payment of this node is for; exactly its owner's balance grows, by its amount,
      unless the invoice had been settled.
     */
    method InterceptSelfPayment(request: string, hash: string) returns (result: Intercepted)
      modifies `rows, `published
      ensures var found := FindRow(old(rows), Incoming, Some(Pending), request, hash);
              && (result.NotFound? <==> found.None?)
              && (result.Held? <==> found.Some? && old(rows)[found.value].hold)
              && (result.NoPreimageKnown? <==>
                    found.Some? && !old(rows)[found.value].hold
                    && (old(rows)[found.value].preimage == None || old(rows)[found.value].preimage == Some("")))
              && (result.Credited? ==>
                    && Some(result.proof) == old(rows)[found.value].preimage
                    && (if Unsettled(old(rows), old(rows)[found.value])
                        then rows == old(rows)[found.value := SettledRow(old(rows)[found.value], result.proof, 0, true, now)]
                             && published == old(published) + [PaymentReceived(found.value)]
                        else rows == old(rows) && published == old(published))
                    && InvoiceCredited(old(rows), rows, found, true)
                    && published == old(published) + CreditEvents(old(rows), found, true))
      ensures !result.Credited? ==> rows == old(rows) && published == old(published)
    {
      var found := InvoiceToCredit(rows, request, hash);
      if found.None? {
        return NotFound;
      }
      var r := rows[found.value];
      if r.hold {
        return Held;
      }
      if r.preimage.None? {
        return NoPreimageKnown;
      }
      SettleEvolves(rows, found.value, r.preimage.value, 0, true, now);
      SettlingPaysOwner(rows, found.value, r.preimage.value, 0, true, now);
      var outcome := MarkTransactionSettled(found.value, r.preimage.value, 0, true);
      return if outcome.NoPreimage? then NoPreimageKnown else Credited(r.preimage.value);
    }

    /**
      Carries out an inserted payment: to an invoice of this node if `self`, through the node otherwise. `own` is a
      keysend's preimage.
     */
    method PayInserted(id: nat, request: string, hash: string, self: bool, answer: PayAnswer, own: Option<string>)
      returns (outcome: SendOutcome)
      requires id < |rows| && rows[id].kind == Outgoing && rows[id].state == Pending && own != Some("")
      modifies `rows, `published
      ensures old(published) <= published
      ensures CarriedOut(old(rows), rows, published[|old(published)|..], id, InvoiceToCredit(old(rows), request, hash),
                         self, answer, own, outcome)
    {
      ghost var start, credit := rows, InvoiceToCredit(rows, request, hash);
      var held, answered := AskForProof(request, hash, self, answer);
      if held {
        NothingCarriedOut(start, id, credit, self, answer, own, Suspended(id));
        return Suspended(id);
      }
      if answered.None? {
        FailInserted(id, credit, self, answer, own);
        return NotSent(id);
      }
      var proof := if own.Some? then own.value else answered.value;
      if proof == "" {
        NothingCarriedOut(start, id, credit, self, answer, own, NoProof(id));
        return NoProof(id);
      }
      ghost var credited := published;
      SettleInserted(start, id, credit, self, answer, own, proof);
      assert published[|old(published)|..] == CreditEvents(start, credit, self) + published[|credited|..];
      return Paid(id);
    }

    // Settles the invoice if it is one of this node's, and asks the node otherwise; the answer is the preimage of a
    // success.
    method AskForProof(request: string, hash: string, self: bool, answer: PayAnswer)
      returns (held: bool, proof: Option<string>)
      modifies `rows, `published
      ensures var credit := InvoiceToCredit(old(rows), request, hash);
              && (held <==> self && credit.Some? && old(rows)[credit.value].hold)
              && (held ==> proof == None)
              && (self && proof.Some? ==>
                     credit.Some? && Some(proof.value) == old(rows)[credit.value].preimage && proof.value != "")
              && (self && proof.None? && !held ==>
                    credit.None? || old(rows)[credit.value].preimage == None || old(rows)[credit.value].preimage == Some(""))
              && (!self ==> proof == if answer.Success? then Some(answer.preimage) else None)
              && (proof.Some? ==> InvoiceCredited(old(rows), rows, credit, self))
              && (proof.Some? ==> published == old(published) + CreditEvents(old(rows), credit, self))
              && (proof.None? ==> rows == old(rows) && published == old(published))
    {
      if !self {
        GrowthEvolves(rows, rows);
        return false, if answer.Success? then Some(answer.preimage) else None;
      }
      var result := InterceptSelfPayment(request, hash);
      return result.Held?, if result.Credited? then Some(result.proof) else None;
    }

    // The payment of a table in which nothing has been credited.
    method FailInserted(id: nat, ghost credit: Option<nat>, self: bool, answer: PayAnswer, ghost own: Option<string>)
      requires id < |rows| && rows[id].kind == Outgoing && rows[id].state == Pending
      requires credit.Some? ==> credit.value < |rows|
      requires AnswerOf(rows, id, credit, self, answer, own) == NotSent(id)
      modifies `rows, `published
      ensures old(published) <= published
      ensures CarriedOut(old(rows), rows, published[|old(published)|..], id, credit, self, answer, own, NotSent(id))
    {
      FailureCarriedOut(rows, id, credit, self, answer, own);
      ghost var events := LedgerSteps.MarkPaymentFailed(rows, id).events;
      var _ := MarkPaymentFailed(id);
      assert published[|old(published)|..] == events;
    }

    // The payment of a table whose invoice, if it is one of this node's, has been credited.
    method SettleInserted(ghost start: Table, id: nat, ghost credit: Option<nat>, self: bool, answer: PayAnswer,
                          ghost own: Option<string>, proof: string)
      requires id < |start| && start[id].kind == Outgoing && start[id].state == Pending && own != Some("")
      requires credit.Some? ==> credit.value < |start|
      requires AnswerOf(start, id, credit, self, answer, own) == Paid(id) && InvoiceCredited(start, rows, credit, self)
      requires ProofOf(start, credit, self, answer, own) == Some(proof)
      modifies `rows, `published
      ensures old(published) <= published
      ensures CarriedOut(start, rows, CreditEvents(start, credit, self) + published[|old(published)|..], id, credit,
                         self, answer, own, Paid(id))
    {
      var fee := if !self && answer.Success? then answer.feeMsat else 0;
      SuccessCarriedOut(start, rows, id, credit, self, answer, own, now);
      ghost var events := LedgerSteps.MarkTransactionSettled(rows, id, proof, fee, self, now).events;
      var _ := MarkTransactionSettled(id, proof, fee, self);
      assert published[|old(published)|..] == events;
    }

    /**
      Pays an invoice. A refusal changes nothing and a failure no balance; a success moves exactly the amount and
      the fee, to the invoice's owner when the invoice is one of this node's (PaymentMovesAmount).
     */
    method SendPaymentSync(payReq: string, amountMsat: Option<nat>, appId: Option<nat>,
                           decode: string -> Option<Bolt11>, answer: PayAnswer)
      returns (outcome: SendOutcome)
      modifies `rows, `published
      ensures outcome.Undecodable? <==> decode(ToLower(payReq)).None?
      ensures outcome.Expired? <==> decode(ToLower(payReq)).Some? && decode(ToLower(payReq)).value.expired
      ensures outcome.Undecodable? || outcome.Expired? || outcome.Refused? ==>
                rows == old(rows) && published == old(published)
      ensures |rows| == |old(rows)| || |rows| == |old(rows)| + 1
      ensures |rows| > |old(rows)| ==>
                var r := rows[|old(rows)|];
                && IsLowered(payReq, r.paymentRequest) && decode(r.paymentRequest).Some?
                && var invoice := decode(r.paymentRequest).value;
                   IsPaymentFor(old(rows), r, appId, if invoice.amountMsat != 0 then invoice.amountMsat
                                                     else if amountMsat.Some? then amountMsat.value else 0,
                                r.paymentRequest, invoice.hash, now)
      ensures old(published) <= published
      ensures decode(ToLower(payReq)).Some? && !decode(ToLower(payReq)).value.expired ==>
                PaymentResult(setup, old(rows), now, rows, published[|old(published)|..], appId,
                              AmountToPay(decode(ToLower(payReq)).value, amountMsat),
                              ToLower(payReq), decode(ToLower(payReq)).value.hash, answer, outcome)
    {
      var request := ToLower(payReq);
      if decode(request).None? {
        return Undecodable;
      }
      var invoice := decode(request).value;
      if invoice.expired {
        return Expired;
      }
      outcome := InsertAndPay(request, invoice.hash, AmountToPay(invoice, amountMsat), appId, answer);
      ToLowerLowers(payReq);
      PaymentAddsItsRow(setup, old(rows), now, rows, published[|old(published)|..], appId,
                        AmountToPay(invoice, amountMsat), request, invoice.hash, answer, outcome);
    }

    /** The part of a payment that touches the ledger: checked and inserted as one transaction, then carried out. */
    method InsertAndPay(request: string, hash: string, amountMsat: nat, appId: Option<nat>, answer: PayAnswer)
      returns (outcome: SendOutcome)
      modifies `rows, `published
      ensures old(published) <= published
      ensures PaymentResult(setup, old(rows), now, rows, published[|old(published)|..], appId, amountMsat, request,
                            hash, answer, outcome)
      ensures !outcome.Undecodable? && !outcome.Expired?
    {
      var self := FindRow(rows, Incoming, None, request, hash).Some?;
      var inserted := InsertPayment(setup, rows, now, appId, amountMsat, request, hash, self);
      if inserted.Err? {
        return Refused(inserted.error);
      }
      rows := inserted.value;
      outcome := PayInserted(|rows| - 1, request, hash, self, answer, None);
    }

    /**
      Pays without an invoice, under the hash of a preimage given or drawn. A refusal changes nothing and a failure
      no balance; under a hash not used before a success moves exactly amount and fee (KeysendMovesAmount).
     */
    method SendKeysend(amountMsat: nat, given: string, drawn: string, decodeHex: string -> Option<seq<bv8>>,
                       sha256: seq<bv8> -> string, self: bool, recipient: Option<nat>, appId: Option<nat>, answer: PayAnswer)
      returns (outcome: SendOutcome)
      requires drawn != ""
      modifies `rows, `published
      ensures var preimage := if given == "" then drawn else given;
              var bytes := decodeHex(preimage);
              if bytes.None? then outcome == BadPreimage && rows == old(rows)
              else if |bytes.value| != 32 then outcome == Nothing && rows == old(rows)
              else old(published) <= published
                   && KeysendResult(setup, old(rows), now, rows, published[|old(published)|..], appId, amountMsat,
                                    preimage, sha256(bytes.value), self, recipient, answer, outcome)
      ensures var preimage := if given == "" then drawn else given;
              var bytes := decodeHex(preimage);
              if outcome.BadPreimage? || outcome.Nothing? || outcome.Refused? then rows == old(rows) && published == old(published)
              else
                && bytes.Some? && |bytes.value| == 32
                && IsKeysend(old(rows), rows, appId, amountMsat, sha256(bytes.value), self, recipient, now)
      ensures old(published) <= published
    {
      var preimage := if given == "" then drawn else given;
      var bytes := decodeHex(preimage);
      if bytes.None? {
        return BadPreimage;
      }
      if |bytes.value| != 32 {
        return Nothing;
      }
      var hash := sha256(bytes.value);
      outcome := InsertAndSend(amountMsat, preimage, hash, self, recipient, appId, answer);
      KeysendAddsItsRows(setup, old(rows), now, rows, published[|old(published)|..], appId, amountMsat, preimage, hash,
                         self, recipient, answer, outcome);
    }

    method InsertAndSend(amountMsat: nat, preimage: string, hash: string, self: bool, recipient: Option<nat>,
                         appId: Option<nat>, answer: PayAnswer)
      returns (outcome: SendOutcome)
      requires preimage != ""
      modifies `rows, `published
      ensures old(published) <= published
      ensures KeysendResult(setup, old(rows), now, rows, published[|old(published)|..], appId, amountMsat, preimage, hash,
                            self, recipient, answer, outcome)
      ensures !outcome.BadPreimage? && !outcome.Nothing? && (outcome.Refused? ==> published == old(published))
    {
      var inserted := InsertKeysend(setup, rows, now, appId, amountMsat, hash, preimage, self);
      if inserted.Err? {
        return Refused(inserted.error);
      }
      var id := |rows|;
      rows := inserted.value;
      if self {
        rows := rows + [InvoiceRow(recipient, amountMsat, "", hash, Some(preimage), true, false, now)];
      }
      outcome := PayInserted(id, "", hash, self, answer, Some(preimage));
    }

    method CheckApps(from: Option<nat>, to: Option<nat>) returns (error: Option<TransferError>)
      ensures error.None? <==> CanTransfer(setup, from) && CanTransfer(setup, to)
      ensures error.Some? ==> error == Some(AppMissing) || error == Some(AppNotIsolated)
      ensures error == Some(AppMissing) ==>
                (from.Some? && from.value !in setup.apps) || (to.Some? && to.value !in setup.apps)
    {
      for i := 0 to 2
        invariant i >= 1 ==> CanTransfer(setup, from)
        invariant i >= 2 ==> CanTransfer(setup, to)
      {
        var appId := if i == 0 then from else to;
        if appId.Some? {
          if appId.value !in setup.apps {
            return Some(AppMissing);
          }
          if !setup.apps[appId.value].isolated {
            return Some(AppNotIsolated);
          }
        }
      }
      return None;
    }

    /**
      Moves an amount between two wallets by an invoice for one paid by the other. Whatever the node makes of the
      request, the call is the payment of it by the payer. If the invoice is the only one of its hash, it succeeds
      exactly
      when the checks pass; then exactly the amount moves, and otherwise no balance changes.
     */
    method Transfer(from: Option<nat>, to: Option<nat>, amountMsat: nat, made: Option<NewInvoice>,
                    decode: string -> Option<Bolt11>, answer: PayAnswer)
      returns (error: Option<TransferError>)
      modifies `rows, `published
      ensures error == Some(AppMissing) || error == Some(AppNotIsolated)
              <==> !CanTransfer(setup, from) || !CanTransfer(setup, to)
      ensures error == Some(NoInvoice) <==>
                && CanTransfer(setup, from)
                && CanTransfer(setup, to)
                && !(amountMsat % 1000 == 0 && amountMsat >= 1000 && made.Some?)
      ensures error.Some? && !error.value.NotPaid? ==> rows == old(rows) && published == old(published)
      ensures old(published) <= published
      ensures error.None? || error.value.NotPaid? ==>
                && made.Some?
                && TransferResult(setup, old(rows), now, rows, published[|old(published)|..], from, to, made.value,
                                  decode, answer, error)
      ensures made.Some? && NamesOneInvoice(old(rows), made.value, amountMsat, decode) ==>
                && Transferred(old(rows), rows, if error.None? then from else None,
                               if error.None? then amountMsat else 0, 0,
                               to, if error.None? then amountMsat else 0)
                && (error.None? <==>
                      && CanTransfer(setup, from) && CanTransfer(setup, to)
                      && amountMsat % 1000 == 0 && amountMsat >= 1000 && made.value.preimage != ""
                      && decode(made.value.request).Some? && !decode(made.value.request).value.expired
                      && MayPay(setup, old(rows), now, from, amountMsat))
    {
      error := CheckApps(from, to);
      if error.Some? {
        return;
      }
      ghost var before := rows;
      error := MakeAndPay(from, to, amountMsat, made, decode, answer);
      if made.Some? && NamesOneInvoice(before, made.value, amountMsat, decode) && error != Some(NoInvoice) {
        TransferMovesAmount(setup, before, now, rows, published[|old(published)|..], from, to, amountMsat, made.value,
                            decode, answer, error);
      }
    }

    method MakeAndPay(from: Option<nat>, to: Option<nat>, amountMsat: nat, made: Option<NewInvoice>,
                      decode: string -> Option<Bolt11>, answer: PayAnswer)
      returns (error: Option<TransferError>)
      modifies `rows, `published
      ensures error.None? || error == Some(NoInvoice) || (error.value.NotPaid? && !error.value.outcome.Paid?)
      ensures error == Some(NoInvoice) <==> !(amountMsat % 1000 == 0 && amountMsat >= 1000 && made.Some?)
      ensures error == Some(NoInvoice) ==> rows == old(rows) && published == old(published)
      ensures old(published) <= published
      ensures error != Some(NoInvoice) ==>
                && made.Some?
                && TransferResult(setup, old(rows), now, rows, published[|old(published)|..], from, to, made.value,
                                  decode, answer, error)
    {
      var id := MakeInvoice(to, amountMsat, made);
      if id.None? {
        return Some(NoInvoice);
      }
      assert rows == old(rows) + [MadeRow(to, made.value, now)];
      error := PayMade(old(rows), from, to, made.value, decode, answer);
    }

    // The payment of the invoice just made.
    method PayMade(ghost before: Table, from: Option<nat>, ghost to: Option<nat>, made: NewInvoice,
                   decode: string -> Option<Bolt11>, answer: PayAnswer)
      returns (error: Option<TransferError>)
      requires rows == before + [MadeRow(to, made, now)]
      modifies `rows, `published
      ensures error.None? || (error.value.NotPaid? && !error.value.outcome.Paid?)
      ensures old(published) <= published
      ensures TransferResult(setup, before, now, rows, published[|old(published)|..], from, to, made, decode, answer,
                             error)
    {
      var outcome := SendPaymentSync(made.request, None, from, decode, answer);
      error := if outcome.Paid? then None else Some(NotPaid(outcome));
      SentIsTransfer(setup, before, now, rows, published[|old(published)|..], from, to, made, decode, answer, outcome);
    }
  }
}
