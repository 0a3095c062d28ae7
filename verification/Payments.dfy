/**
  What a payment does to the ledger from the check to its end: how it ends, what becomes of
  its row, and how every wallet's balance moves.
 */
module Payments {
  import opened Wrappers
  import opened Ledger
  import opened Queries
  import opened LedgerSteps
  import opened LedgerRuns
  import opened BudgetWindows
  import opened Wallets
  import opened LedgerMeaning

  // ---------------------------------------------------------------- requests and answers

  datatype Bolt11 = Bolt11(hash: string, amountMsat: nat, expired: bool)

  // What the node answers to a payment, and the invoice it makes.
  datatype PayAnswer = Success(preimage: string, feeMsat: nat) | Failure

  datatype NewInvoice = NewInvoice(
    request: string, hash: string, preimage: string, kind: TxType, amountMsat: nat, feesPaidMsat: int)

  datatype SendOutcome =
    | Undecodable
    | BadPreimage
    // neither an error nor a transaction
    | Nothing
    | Expired
    | Refused(error: PayError)
    | NotSent(id: nat)
    | NoProof(id: nat)
    // blocked on a hold invoice of this node
    | Suspended(id: nat)
    | Paid(id: nat)

  datatype Intercepted = NotFound | NoPreimageKnown | Held | Credited(proof: string)

  function LowerChar(c: char): char {
    if 'A' <= c <= 'Z' then ((c as int) + 32) as char else c
  }

  function ToLower(s: string): string {
    seq(|s|, i requires 0 <= i < |s| => LowerChar(s[i]))
  }

  // The same text without upper-case letters.
  predicate IsLowered(s: string, t: string) {
    |t| == |s| && forall i :: 0 <= i < |s| ==>
      if 'A' <= s[i] <= 'Z' then t[i] as int == s[i] as int + 32 else t[i] == s[i]
  }

  lemma {:induction false} ToLowerLowers(s: string)
    ensures IsLowered(s, ToLower(s))
  {
  }

  lemma {:induction false} LoweredHasNoUpperCase(s: string, t: string)
    requires IsLowered(s, t)
    ensures forall i :: 0 <= i < |t| ==> !('A' <= t[i] <= 'Z')
    ensures (forall i :: 0 <= i < |s| ==> !('A' <= s[i] <= 'Z')) ==> t == s
  {
  }

  function AmountToPay(invoice: Bolt11, amountMsat: Option<nat>): nat {
    if amountMsat.Some? && invoice.amountMsat == 0 then amountMsat.value else invoice.amountMsat
  }

  datatype TransferError = AppMissing | AppNotIsolated | NoInvoice | NotPaid(outcome: SendOutcome)

  // The pending incoming row a self-payment would settle.
  function InvoiceToCredit(rows: Table, request: string, hash: string): Option<nat> {
    FindRow(rows, Incoming, Some(Pending), request, hash)
  }

  lemma {:induction false} AppendKeepsLookup(rows: Table, r: Row, request: string, hash: string)
    requires r.kind == Outgoing
    ensures InvoiceToCredit(rows + [r], request, hash) == InvoiceToCredit(rows, request, hash)
    ensures InvoiceToCredit(rows, request, hash).Some? ==>
              var invoice := rows[InvoiceToCredit(rows, request, hash).value];
              FindSettled(rows + [r], invoice) == FindSettled(rows, invoice)
  {
    SameLookup(rows, r, Incoming, Some(Pending), request, hash);
    if InvoiceToCredit(rows, request, hash).Some? {
      var invoice := rows[InvoiceToCredit(rows, request, hash).value];
      SameLookup(rows, r, Incoming, Some(Settled), invoice.paymentRequest, invoice.paymentHash);
    }
  }

  lemma {:induction false} SameLookup(rows: Table, r: Row, kind: TxType, state: Option<TxState>, request: string,
                                      hash: string)
    requires r.kind != kind
    ensures FindRow(rows + [r], kind, state, request, hash) == FindRow(rows, kind, state, request, hash)
  {
    var a, b := FindRow(rows, kind, state, request, hash), FindRow(rows + [r], kind, state, request, hash);
    if a.Some? {
      assert Matches((rows + [r])[a.value], kind, state, request, hash);
    }
    if b.Some? {
      assert Matches(rows[b.value], kind, state, request, hash);
    }
  }

  // ---------------------------------------------------------------- carrying out an inserted payment

  // How a payment ends, given the invoice it would credit and the node's answer; `own` is the preimage of a keysend.
  function AnswerOf(rows: Table, id: nat, credit: Option<nat>, self: bool, answer: PayAnswer,
                    own: Option<string>): SendOutcome
    requires credit.Some? ==> credit.value < |rows|
  {
    if self then
      if credit.None? then NotSent(id)
      else if rows[credit.value].hold then Suspended(id)
      else if rows[credit.value].preimage == None || rows[credit.value].preimage == Some("") then NotSent(id)
      else Paid(id)
    else if answer.Failure? then NotSent(id)
    else if own.None? && answer.preimage == "" then NoProof(id)
    else Paid(id)
  }

  // The preimage and the fee a successful payment is settled with.
  function ProofOf(rows: Table, credit: Option<nat>, self: bool, answer: PayAnswer, own: Option<string>): Option<string>
    requires credit.Some? ==> credit.value < |rows|
  {
    if own.Some? then own
    else if self then if credit.Some? then rows[credit.value].preimage else None
    else if answer.Success? then Some(answer.preimage) else None
  }

  function FeeOf(self: bool, answer: PayAnswer): nat {
    if self || answer.Failure? then 0 else answer.feeMsat
  }

  // An invoice counts as settled if some row settled it before.
  predicate Unsettled(rows: Table, r: Row) {
    FindSettled(rows, r).None?
  }

  // How a payment that went through moves a balance: the invoice's owner receives its amount,
  // and the payer's reserve becomes the fee, each unless that side had been settled before.
  function Moved(rows: Table, id: nat, credit: Option<nat>, self: bool, feeMsat: nat, who: Option<nat>): int
    requires id < |rows| && (credit.Some? ==> credit.value < |rows|)
  {
    (if self && credit.Some? && Unsettled(rows, rows[credit.value]) && who == rows[credit.value].appId then rows[credit.value].amountMsat else 0)
    + (if Unsettled(rows, rows[id]) && who == rows[id].appId then Spent(rows[id]) - rows[id].amountMsat - feeMsat else 0)
  }

  // What crediting an invoice of this node announces.
  function CreditEvents(rows: Table, credit: Option<nat>, self: bool): seq<Event>
    requires credit.Some? ==> credit.value < |rows|
  {
    if self && credit.Some? && Unsettled(rows, rows[credit.value]) then [PaymentReceived(credit.value)] else []
  }

  // What carrying out the payment in row `id` does, from the table it was inserted in.
  ghost predicate CarriedOut(before: Table, after: Table, raised: seq<Event>, id: nat, credit: Option<nat>, self: bool,
                             answer: PayAnswer, own: Option<string>, outcome: SendOutcome)
    requires id < |before| && (credit.Some? ==> credit.value < |before|)
  {
    && raised == (if outcome.NotSent? then [PaymentFailed(id)]
                  else if outcome.Paid? then
                    CreditEvents(before, credit, self) + if Unsettled(before, before[id]) then [PaymentSent(id)] else []
                  else [])
    && |after| == |before| && TableEvolves(before, after)
    && after[id].selfPayment == (if after[id].state == Settled then self else before[id].selfPayment)
    && outcome == AnswerOf(before, id, credit, self, answer, own)
    && after[id].state == (if outcome.NotSent? then Failed else if outcome.Paid? && Unsettled(before, before[id]) then Settled else Pending)
    && (after[id].state == Settled ==>
          after[id].preimage == ProofOf(before, credit, self, answer, own) && after[id].feeMsat == FeeOf(self, answer))
    && forall who :: WalletBalanceMsat(after, who) == WalletBalanceMsat(before, who)
         + if outcome.NotSent? then Released(who, before[id])
           else if outcome.Paid? then Moved(before, id, credit, self, FeeOf(self, answer), who)
           else 0
  }

  // The table once the invoice, if it is one of this node's, has been settled.
  ghost predicate InvoiceCredited(before: Table, middle: Table, credit: Option<nat>, self: bool) {
    && |middle| == |before| && TableEvolves(before, middle)
    && (forall id :: 0 <= id < |before| && before[id].kind == Outgoing ==> middle[id] == before[id])
    && if self && credit.Some? && credit.value < |before|
       then Received(before, middle, before[credit.value].appId,
                     if Unsettled(before, before[credit.value]) then before[credit.value].amountMsat else 0)
       else middle == before
  }

  lemma {:induction false} OutgoingLookupKept(before: Table, middle: Table, id: nat)
    requires |middle| == |before| && TableEvolves(before, middle) && id < |before| && before[id].kind == Outgoing
    requires forall other :: 0 <= other < |before| && before[other].kind == Outgoing ==> middle[other] == before[other]
    ensures FindSettled(middle, middle[id]) == FindSettled(before, before[id])
  {
    var r := before[id];
    forall other | 0 <= other < |before|
      ensures Matches(middle[other], Outgoing, Some(Settled), r.paymentRequest, r.paymentHash)
              <==> Matches(before[other], Outgoing, Some(Settled), r.paymentRequest, r.paymentHash)
    {
      assert Evolves(before[other], middle[other]);
    }
    var a, b := FindSettled(before, r), FindSettled(middle, r);
    assert a.Some? <==> b.Some?;
  }

  lemma {:induction false} FailureCarriedOut(before: Table, id: nat, credit: Option<nat>, self: bool,
                                             answer: PayAnswer, own: Option<string>)
    requires id < |before| && before[id].state == Pending && before[id].kind == Outgoing
    requires (credit.Some? ==> credit.value < |before|)
    requires AnswerOf(before, id, credit, self, answer, own) == NotSent(id)
    ensures CarriedOut(before, MarkPaymentFailed(before, id).rows, MarkPaymentFailed(before, id).events, id, credit,
                       self, answer, own, NotSent(id))
  {
    FailingReleases(before, id);
    FailEvolves(before, id);
  }

  lemma {:induction false} NothingCarriedOut(before: Table, id: nat, credit: Option<nat>, self: bool, answer: PayAnswer,
                                             own: Option<string>, outcome: SendOutcome)
    requires id < |before| && before[id].state == Pending && (credit.Some? ==> credit.value < |before|)
    requires AnswerOf(before, id, credit, self, answer, own) == outcome && (outcome.Suspended? || outcome.NoProof?)
    ensures CarriedOut(before, before, [], id, credit, self, answer, own, outcome)
  {
    GrowthEvolves(before, before);
  }

  lemma {:induction false} SuccessCarriedOut(before: Table, middle: Table, id: nat, credit: Option<nat>, self: bool,
                                             answer: PayAnswer, own: Option<string>, now: int)
    requires id < |before| && before[id].state == Pending && before[id].kind == Outgoing
    requires (credit.Some? ==> credit.value < |before|)
    requires AnswerOf(before, id, credit, self, answer, own) == Paid(id) && own != Some("")
    requires InvoiceCredited(before, middle, credit, self)
    ensures ProofOf(before, credit, self, answer, own).Some?
    ensures var proof := ProofOf(before, credit, self, answer, own).value;
            var r := MarkTransactionSettled(middle, id, proof, FeeOf(self, answer), self, now);
            !r.outcome.NoPreimage?
            && CarriedOut(before, r.rows, CreditEvents(before, credit, self) + r.events, id, credit, self, answer, own,
                          Paid(id))
  {
    var proof, fee := ProofOf(before, credit, self, answer, own).value, FeeOf(self, answer);
    OutgoingLookupKept(before, middle, id);
    SettlingOpenPayment(middle, id, proof, fee, self, now);
    SuccessMovesBalances(before, middle, MarkTransactionSettled(middle, id, proof, fee, self, now).rows, id, credit,
                         self, fee);
    EvolvesTransitive(before, middle, MarkTransactionSettled(middle, id, proof, fee, self, now).rows);
  }

  lemma {:induction false} SettlingOpenPayment(rows: Table, id: nat, proof: string, fee: nat, self: bool, now: int)
    requires id < |rows| && rows[id].kind == Outgoing && rows[id].state == Pending && proof != ""
    ensures var r := MarkTransactionSettled(rows, id, proof, fee, self, now);
            && !r.outcome.NoPreimage? && |r.rows| == |rows| && TableEvolves(rows, r.rows)
            && (if Unsettled(rows, rows[id])
                then r.rows[id].state == Settled && r.rows[id].preimage == Some(proof) && r.rows[id].feeMsat == fee
                     && r.rows[id].selfPayment == self && r.events == [PaymentSent(id)]
                else r.rows == rows && r.events == [])
            && forall who :: WalletBalanceMsat(r.rows, who) == WalletBalanceMsat(rows, who)
                 + if Unsettled(rows, rows[id]) && who == rows[id].appId then Spent(rows[id]) - rows[id].amountMsat - fee else 0
  {
    SettlingChargesPayer(rows, id, proof, fee, self, now);
    SettleEvolves(rows, id, proof, fee, self, now);
  }

  lemma {:induction false} SuccessMovesBalances(before: Table, middle: Table, after: Table, id: nat,
                                                credit: Option<nat>, self: bool, fee: nat)
    requires id < |before| && (credit.Some? ==> credit.value < |before|) && (self ==> credit.Some?)
    requires InvoiceCredited(before, middle, credit, self)
    requires forall who :: WalletBalanceMsat(after, who) == WalletBalanceMsat(middle, who)
               + if Unsettled(before, before[id]) && who == before[id].appId then Spent(before[id]) - before[id].amountMsat - fee else 0
    ensures forall who :: WalletBalanceMsat(after, who) == WalletBalanceMsat(before, who) + Moved(before, id, credit, self, fee, who)
  {
  }

  lemma {:induction false} EvolvesTransitive(a: Table, b: Table, c: Table)
    requires TableEvolves(a, b) && TableEvolves(b, c)
    ensures TableEvolves(a, c)
  {
    forall id | 0 <= id < |a|
      ensures Evolves(a[id], c[id])
    {
      assert Evolves(a[id], b[id]) && Evolves(b[id], c[id]);
    }
  }

  // ---------------------------------------------------------------- whole payments

  ghost predicate PaymentResult(setup: Setup, before: Table, now: int, after: Table, raised: seq<Event>,
                                appId: Option<nat>, amountMsat: nat,
                                request: string, hash: string, answer: PayAnswer, outcome: SendOutcome) {
    var self := FindRow(before, Incoming, None, request, hash).Some?;
    match InsertPayment(setup, before, now, appId, amountMsat, request, hash, self)
    case Err(error) => outcome == Refused(error) && after == before && raised == []
    case Ok(inserted) =>
      CarriedOut(inserted, after, raised, |before|, InvoiceToCredit(inserted, request, hash), self, answer, None,
                 outcome)
  }

  // The table a keysend is carried out in: its row and, between wallets of this node, the receiving row.
  function KeysendInserted(inserted: Table, recipient: Option<nat>, amountMsat: nat, hash: string, preimage: string,
                           self: bool, now: int): Table {
    if self then inserted + [InvoiceRow(recipient, amountMsat, "", hash, Some(preimage), true, false, now)]
    else inserted
  }

  ghost predicate KeysendResult(setup: Setup, before: Table, now: int, after: Table, raised: seq<Event>,
                                appId: Option<nat>, amountMsat: nat, preimage: string,
                                hash: string, self: bool, recipient: Option<nat>, answer: PayAnswer, outcome: SendOutcome) {
    match InsertKeysend(setup, before, now, appId, amountMsat, hash, preimage, self)
    case Err(error) => outcome == Refused(error) && after == before && raised == []
    case Ok(inserted) =>
      var start := KeysendInserted(inserted, recipient, amountMsat, hash, preimage, self, now);
      CarriedOut(start, after, raised, |before|, InvoiceToCredit(start, "", hash), self, answer, Some(preimage),
                 outcome)
  }

  // What a row says of the payment it is for: payer, amount, invoice and time, and whether the invoice is one of this
  // node's.
  ghost predicate IsPaymentFor(rows: Table, r: Row, appId: Option<nat>, amountMsat: nat, request: string, hash: string,
                               now: int) {
    && r.kind == Outgoing && r.appId == appId && r.amountMsat == amountMsat && r.createdAt == now
    && r.paymentRequest == request && r.paymentHash == hash
    && (r.selfPayment <==> exists id ::
          0 <= id < |rows| && rows[id].kind == Incoming && (request == "" || rows[id].paymentRequest == request)
          && (hash == "" || rows[id].paymentHash == hash))
  }

  /** Unless it is refused a payment adds one row, which is for what was to be paid. */
  lemma {:induction false} PaymentAddsItsRow(setup: Setup, before: Table, now: int, after: Table, raised: seq<Event>,
                                             appId: Option<nat>, amountMsat: nat, request: string, hash: string,
                                             answer: PayAnswer, outcome: SendOutcome)
    requires PaymentResult(setup, before, now, after, raised, appId, amountMsat, request, hash, answer, outcome)
    ensures |after| == |before| + if outcome.Refused? then 0 else 1
    ensures !outcome.Refused? ==> IsPaymentFor(before, after[|before|], appId, amountMsat, request, hash, now)
  {
    var self := FindRow(before, Incoming, None, request, hash).Some?;
    if !outcome.Refused? {
      InsertedShape(setup, before, now, appId, amountMsat, request, hash, self);
      var payment := PendingPayment(appId, amountMsat, request, hash, None, self, now);
      assert Evolves((before + [payment])[|before|], after[|before|]);
      LookupIsExists(before, request, hash);
    }
  }

  // What the rows of a keysend say of it, whatever has become of it since.
  ghost predicate IsKeysend(before: Table, after: Table, appId: Option<nat>, amountMsat: nat, hash: string, self: bool,
                            recipient: Option<nat>, now: int) {
    var n := |before|;
    && |after| == n + (if self then 2 else 1)
    && after[n].(state := Pending, feeMsat := 0, feeReserveMsat := 0, preimage := None, settledAt := None)
       == Row(appId, Outgoing, Pending, amountMsat, 0, 0, "", hash, None, now, None, self, false)
    && (self ==> after[n + 1].(state := Pending, feeMsat := 0, feeReserveMsat := 0, preimage := None, settledAt := None)
                 == Row(recipient, Incoming, Pending, amountMsat, 0, 0, "", hash, None, now, None,
                        after[n + 1].selfPayment, false))
  }

  lemma {:induction false} KeysendAddsItsRows(setup: Setup, before: Table, now: int, after: Table, raised: seq<Event>,
                                              appId: Option<nat>, amountMsat: nat, preimage: string, hash: string,
                                              self: bool, recipient: Option<nat>, answer: PayAnswer, outcome: SendOutcome)
    requires KeysendResult(setup, before, now, after, raised, appId, amountMsat, preimage, hash, self, recipient,
                           answer, outcome)
    ensures outcome.Refused? ==> after == before
    ensures !outcome.Refused? ==> IsKeysend(before, after, appId, amountMsat, hash, self, recipient, now)
  {
    if !outcome.Refused? {
      var payment := PendingPayment(appId, amountMsat, "", hash, Some(preimage), self, now);
      var start := KeysendInserted(before + [payment], recipient, amountMsat, hash, preimage, self, now);
      assert Evolves(start[|before|], after[|before|]);
      if self {
        assert Evolves(start[|before| + 1], after[|before| + 1]);
      }
    }
  }

  lemma {:induction false} LookupIsExists(rows: Table, request: string, hash: string)
    ensures FindRow(rows, Incoming, None, request, hash).Some?
            <==> exists id :: 0 <= id < |rows| && rows[id].kind == Incoming
                   && (request == "" || rows[id].paymentRequest == request)
                   && (hash == "" || rows[id].paymentHash == hash)
  {
    forall id | 0 <= id < |rows|
      ensures Matches(rows[id], Incoming, None, request, hash)
              <==> rows[id].kind == Incoming
                   && (request == "" || rows[id].paymentRequest == request)
                   && (hash == "" || rows[id].paymentHash == hash)
    {
    }
  }

  // A payment between wallets, or out of the node, of exactly an amount and a fee.
  ghost predicate Transferred(before: Table, after: Table, from: Option<nat>, amountMsat: nat, feeMsat: nat,
                              to: Option<nat>, received: nat) {
    forall who :: WalletBalanceMsat(after, who) == WalletBalanceMsat(before, who)
      + (if who == to then received else 0) - (if who == from then amountMsat + feeMsat else 0)
  }

  lemma {:induction false} InsertedIsUnpaid(before: Table, payment: Row)
    requires payment.kind == Outgoing && payment.state == Pending
    requires FindRow(before, Outgoing, Some(Settled), payment.paymentRequest, payment.paymentHash).None?
    ensures Unsettled(before + [payment], payment)
  {
    forall id | 0 <= id < |before + [payment]|
      ensures !Matches((before + [payment])[id], Outgoing, Some(Settled), payment.paymentRequest, payment.paymentHash)
    {
      assert id < |before| ==> (before + [payment])[id] == before[id];
    }
  }

  // Until it is carried out a payment only weighs on its payer.
  lemma {:induction false} InsertedReserves(before: Table, payment: Row)
    requires payment.kind == Outgoing && payment.state == Pending
    ensures forall who :: WalletBalanceMsat(before + [payment], who) == WalletBalanceMsat(before, who) - Released(who, payment)
  {
    AppendMovesBalances(before, payment);
  }

  /**
    A payment that is refused or fails leaves every balance as it was. One that goes through moves
    exactly amount and fee, and the amount of the invoice to its owner if that is one of this node's
    and had not been settled before.
   */
  lemma {:induction false} PaymentMovesAmount(setup: Setup, before: Table, now: int, after: Table, raised: seq<Event>,
                                              appId: Option<nat>, amountMsat: nat,
                           request: string, hash: string, answer: PayAnswer, outcome: SendOutcome)
    requires PaymentResult(setup, before, now, after, raised, appId, amountMsat, request, hash, answer, outcome)
    ensures outcome.Refused? || outcome.NotSent? ==> SameBalances(before, after)
    ensures outcome.Paid? ==>
              var self := FindRow(before, Incoming, None, request, hash).Some?;
              var credit := InvoiceToCredit(before, request, hash);
              && outcome == Paid(|before|) && |after| == |before| + 1 && after[|before|].state == Settled
              && (self ==> credit.Some?)
              && Transferred(before, after, appId, amountMsat, FeeOf(self, answer),
                             if self then before[credit.value].appId else None,
                             if self && Unsettled(before, before[credit.value]) then before[credit.value].amountMsat else 0)
  {
    var self := FindRow(before, Incoming, None, request, hash).Some?;
    if InsertPayment(setup, before, now, appId, amountMsat, request, hash, self).Ok? {
      var payment := PendingPayment(appId, amountMsat, request, hash, None, self, now);
      InsertedShape(setup, before, now, appId, amountMsat, request, hash, self);
      InsertedMovesAmount(before, payment, after, raised, self, answer, outcome);
    }
  }

  lemma {:induction false} InsertedShape(setup: Setup, before: Table, now: int, appId: Option<nat>, amountMsat: nat,
                                         request: string, hash: string, self: bool)
    requires InsertPayment(setup, before, now, appId, amountMsat, request, hash, self).Ok?
    ensures InsertPayment(setup, before, now, appId, amountMsat, request, hash, self)
         == Ok(before + [PendingPayment(appId, amountMsat, request, hash, None, self, now)])
    ensures FindRow(before, Outgoing, Some(Settled), request, hash).None?
  {
  }

  // The payment has been inserted unpaid and then carried out.
  lemma {:induction false} InsertedMovesAmount(before: Table, payment: Row, after: Table, raised: seq<Event>,
                                               self: bool, answer: PayAnswer, outcome: SendOutcome)
    requires payment.kind == Outgoing && payment.state == Pending && payment.feeMsat == 0
    requires FindRow(before, Outgoing, Some(Settled), payment.paymentRequest, payment.paymentHash).None?
    requires var start := before + [payment];
             CarriedOut(start, after, raised, |before|,
                        InvoiceToCredit(start, payment.paymentRequest, payment.paymentHash),
                        self, answer, None, outcome)
    ensures outcome.NotSent? ==> SameBalances(before, after)
    ensures outcome.Paid? ==>
              var credit := InvoiceToCredit(before, payment.paymentRequest, payment.paymentHash);
              && outcome == Paid(|before|) && |after| == |before| + 1 && after[|before|].state == Settled
              && (self ==> credit.Some?)
              && Transferred(before, after, payment.appId, payment.amountMsat, FeeOf(self, answer),
                             if self then before[credit.value].appId else None,
                             if self && Unsettled(before, before[credit.value]) then before[credit.value].amountMsat else 0)
  {
    InsertedReserves(before, payment);
    AppendKeepsLookup(before, payment, payment.paymentRequest, payment.paymentHash);
    InsertedIsUnpaid(before, payment);
  }

  ghost predicate HashUnused(rows: Table, hash: string) {
    hash != "" && forall id :: 0 <= id < |rows| ==> rows[id].paymentHash != hash
  }

  // Under an unused hash a keysend's rows are what its own hash finds.
  lemma {:induction false} KeysendFindsOwnRows(before: Table, payment: Row, receipt: Row, self: bool)
    requires HashUnused(before, payment.paymentHash) && receipt.paymentHash == payment.paymentHash
    requires payment.kind == Outgoing && payment.state == Pending && payment.paymentRequest == ""
    requires receipt.kind == Incoming && receipt.state == Pending && receipt.paymentRequest == ""
    ensures var start := if self then before + [payment] + [receipt] else before + [payment];
            && Unsettled(start, payment)
            && (self ==>
                   InvoiceToCredit(start, "", payment.paymentHash) == Some(|before| + 1) && Unsettled(start, receipt))
  {
    var start := if self then before + [payment] + [receipt] else before + [payment];
    forall id | 0 <= id < |start|
      ensures !Matches(start[id], Outgoing, Some(Settled), "", payment.paymentHash)
      ensures !Matches(start[id], Incoming, Some(Settled), "", payment.paymentHash)
      ensures Matches(start[id], Incoming, Some(Pending), "", payment.paymentHash) ==> id == |before| + 1
    {
      assert id < |before| ==> start[id] == before[id];
    }
    if self {
      assert Matches(start[|before| + 1], Incoming, Some(Pending), "", payment.paymentHash);
    }
  }

  /**
    A keysend that is refused or fails leaves every balance as it was. Under a hash not used before it
    succeeds exactly when the node sends it or it stays on this node, and then moves exactly amount and fee.
   */
  lemma {:induction false} KeysendMovesAmount(setup: Setup, before: Table, now: int, after: Table, raised: seq<Event>,
                                              appId: Option<nat>, amountMsat: nat, preimage: string,
                           hash: string, self: bool, recipient: Option<nat>, answer: PayAnswer, outcome: SendOutcome)
    requires KeysendResult(setup, before, now, after, raised, appId, amountMsat, preimage, hash, self, recipient,
                           answer, outcome)
    requires preimage != ""
    ensures outcome.Refused? || outcome.NotSent? ==> SameBalances(before, after)
    ensures HashUnused(before, hash) && !outcome.Refused? ==>
              outcome == if self || answer.Success? then Paid(|before|) else NotSent(|before|)
    ensures HashUnused(before, hash) && outcome.Paid? ==>
              Transferred(before, after, appId, amountMsat, FeeOf(self, answer), recipient,
                          if self then amountMsat else 0)
  {
    var inserted := InsertKeysend(setup, before, now, appId, amountMsat, hash, preimage, self);
    if inserted.Ok? {
      var payment := PendingPayment(appId, amountMsat, "", hash, Some(preimage), self, now);
      var receipt := InvoiceRow(recipient, amountMsat, "", hash, Some(preimage), true, false, now);
      KeysendReserves(before, payment, receipt, self);
      if HashUnused(before, hash) {
        KeysendFindsOwnRows(before, payment, receipt, self);
      }
    }
  }

  // The receiving row of a keysend weighs on nobody yet.
  lemma {:induction false} KeysendReserves(before: Table, payment: Row, receipt: Row, self: bool)
    requires payment.kind == Outgoing && payment.state == Pending && receipt.kind == Incoming
    requires receipt.state == Pending
    ensures var start := if self then before + [payment] + [receipt] else before + [payment];
            forall who :: WalletBalanceMsat(start, who) == WalletBalanceMsat(before, who) - Released(who, payment)
  {
    InsertedReserves(before, payment);
    AppendMovesBalances(before + [payment], receipt);
  }

  // ---------------------------------------------------------------- transfers

  predicate CanTransfer(setup: Setup, appId: Option<nat>) {
    appId.Some? ==> appId.value in setup.apps && setup.apps[appId.value].isolated
  }

  // The node makes an invoice with a hash of its own, and its request says so.
  predicate NamesOneInvoice(rows: Table, invoice: NewInvoice, amountMsat: nat, decode: string -> Option<Bolt11>) {
    && invoice.kind == Incoming && invoice.amountMsat == amountMsat
    && invoice.hash != "" && invoice.request != "" && ToLower(invoice.request) == invoice.request
    && (forall id :: 0 <= id < |rows| ==> rows[id].paymentHash != invoice.hash)
    && var decoded := decode(invoice.request);
       decoded.Some? ==> decoded.value.hash == invoice.hash && decoded.value.amountMsat == amountMsat
  }

  // A pending row that says what the node says of the invoice it has made.
  predicate IsInvoiceMade(r: Row, appId: Option<nat>, made: NewInvoice, now: int) {
    && r.appId == appId && r.kind == made.kind && r.state == Pending && r.amountMsat == made.amountMsat
    && (made.feesPaidMsat >= 0 ==> r.feeMsat == made.feesPaidMsat) && (made.feesPaidMsat < 0 ==> r.feeMsat == 0)
    && r.feeReserveMsat == 0 && r.paymentRequest == made.request && r.paymentHash == made.hash
    && (made.preimage == "" ==> r.preimage == None) && (made.preimage != "" ==> r.preimage == Some(made.preimage))
    && r.createdAt == now && r.settledAt == None && !r.selfPayment && !r.hold
  }

  // The row of an invoice the node has made.
  function MadeRow(appId: Option<nat>, made: NewInvoice, now: int): Row {
    Row(appId, made.kind, Pending, made.amountMsat, if made.feesPaidMsat > 0 then made.feesPaidMsat else 0, 0,
        made.request, made.hash, if made.preimage == "" then None else Some(made.preimage), now, None, false, false)
  }

  // A transfer is the payment of the invoice it has made.
  ghost predicate TransferResult(setup: Setup, before: Table, now: int, after: Table, raised: seq<Event>,
                                 from: Option<nat>, to: Option<nat>,
                                 made: NewInvoice, decode: string -> Option<Bolt11>, answer: PayAnswer, error: Option<TransferError>) {
    var start := before + [MadeRow(to, made, now)];
    var request := ToLower(made.request);
    if decode(request).None? then error == Some(NotPaid(Undecodable)) && after == start && raised == []
    else if decode(request).value.expired then error == Some(NotPaid(Expired)) && after == start && raised == []
    else
      && (error.Some? ==> error.value.NotPaid?)
      && PaymentResult(setup, start, now, after, raised, from, AmountToPay(decode(request).value, None), request,
                       decode(request).value.hash, answer, if error.None? then Paid(|start|) else error.value.outcome)
  }

  // The payment of the invoice made, undecodable, expired or carried out, is the transfer.
  lemma {:induction false} SentIsTransfer(setup: Setup, before: Table, now: int, after: Table, raised: seq<Event>,
                                          from: Option<nat>, to: Option<nat>, made: NewInvoice,
                                          decode: string -> Option<Bolt11>, answer: PayAnswer, outcome: SendOutcome)
    requires var start, request := before + [MadeRow(to, made, now)], ToLower(made.request);
             && (outcome.Undecodable? <==> decode(request).None?)
             && (outcome.Expired? <==> decode(request).Some? && decode(request).value.expired)
             && (outcome.Undecodable? || outcome.Expired? ==> after == start && raised == [])
             && (decode(request).Some? && !decode(request).value.expired ==>
                   PaymentResult(setup, start, now, after, raised, from, AmountToPay(decode(request).value, None), request,
                                 decode(request).value.hash, answer, outcome))
    requires outcome.Paid? ==> outcome.id == |before| + 1
    ensures TransferResult(setup, before, now, after, raised, from, to, made, decode, answer,
                           if outcome.Paid? then None else Some(NotPaid(outcome)))
  {
  }

  // A pending invoice with a new hash is what its own hash finds, and changes no check.
  lemma {:induction false} OneInvoice(setup: Setup, rows: Table, invoice: Row, now: int, payer: Option<nat>)
    requires invoice.kind == Incoming && invoice.state == Pending && invoice.paymentHash != ""
    requires forall id :: 0 <= id < |rows| ==> rows[id].paymentHash != invoice.paymentHash
    ensures var after, request, hash := rows + [invoice], invoice.paymentRequest, invoice.paymentHash;
            && FindRow(after, Incoming, None, request, hash) == Some(|rows|)
            && InvoiceToCredit(after, request, hash) == Some(|rows|)
            && FindSettled(after, invoice) == None
            && FindRow(after, Outgoing, Some(Settled), request, hash) == None
            && FindRow(after, Outgoing, Some(Pending), request, hash) == None
    ensures forall amount, self :: ValidateCanPay(setup, rows + [invoice], now, payer, amount, self) == ValidateCanPay(setup, rows, now, payer, amount, self)
  {
    assert Matches((rows + [invoice])[|rows|], Incoming, None, invoice.paymentRequest, invoice.paymentHash);
    assert Matches((rows + [invoice])[|rows|], Incoming, Some(Pending), invoice.paymentRequest, invoice.paymentHash);
    if payer.Some? {
      SumAppend(rows, invoice, ReceivedBy(payer.value));
      SumAppend(rows, invoice, SpentBy(payer.value));
      if payer.value in setup.payPermissions {
        SumAppend(rows, invoice, SpentSince(payer.value, StartOfBudget(setup.payPermissions[payer.value].renewal, now, setup.zone)));
      }
    }
  }

  /**
    A transfer by the only invoice of its hash succeeds exactly when it is affordable; it moves exactly the amount or
    nothing.
   */
  lemma {:induction false} TransferMovesAmount(setup: Setup, before: Table, now: int, after: Table, raised: seq<Event>,
                                               from: Option<nat>, to: Option<nat>, amountMsat: nat,
                            made: NewInvoice, decode: string -> Option<Bolt11>, answer: PayAnswer, error: Option<TransferError>)
    requires TransferResult(setup, before, now, after, raised, from, to, made, decode, answer, error)
    requires NamesOneInvoice(before, made, amountMsat, decode)
    requires error.Some? && error.value.NotPaid? ==> !error.value.outcome.Paid?
    ensures Transferred(before, after, if error.None? then from else None, if error.None? then amountMsat else 0, 0,
                        to, if error.None? then amountMsat else 0)
    ensures error.None? <==>
              && made.preimage != "" && decode(made.request).Some? && !decode(made.request).value.expired
              && MayPay(setup, before, now, from, amountMsat)
  {
    var invoice := MadeRow(to, made, now);
    var start := before + [invoice];
    AppendMovesBalances(before, invoice);
    OneInvoice(setup, before, invoice, now, from);
    CheckMeans(setup, before, now, from, amountMsat, true);
    if decode(made.request).Some? && !decode(made.request).value.expired {
      var outcome := if error.None? then Paid(|start|) else error.value.outcome;
      PaymentMovesAmount(setup, start, now, after, raised, from, amountMsat, made.request, made.hash, answer, outcome);
      TransferEnds(setup, before, now, after, raised, from, amountMsat, invoice, answer, outcome);
    }
  }

  // How the payment of a transfer's invoice ends.
  lemma {:induction false} TransferEnds(setup: Setup, before: Table, now: int, after: Table, raised: seq<Event>,
                                        from: Option<nat>, amountMsat: nat, invoice: Row,
                     answer: PayAnswer, outcome: SendOutcome)
    requires invoice.kind == Incoming && invoice.state == Pending && !invoice.hold && invoice.preimage != Some("")
    requires HashUnused(before, invoice.paymentHash)
    requires PaymentResult(setup, before + [invoice], now, after, raised, from, amountMsat, invoice.paymentRequest,
                           invoice.paymentHash, answer, outcome)
    ensures var refusal := ValidateCanPay(setup, before, now, from, amountMsat, true);
            outcome == if refusal.Some? then Refused(refusal.value)
                       else if invoice.preimage == None then NotSent(|before| + 1)
                       else Paid(|before| + 1)
  {
    var start := before + [invoice];
    OneInvoice(setup, before, invoice, now, from);
    var payment := PendingPayment(from, amountMsat, invoice.paymentRequest, invoice.paymentHash, None, true, now);
    AppendKeepsLookup(start, payment, invoice.paymentRequest, invoice.paymentHash);
  }
}
