/**
  The interleaved call that pays an invoice of this node and the call of the service are the same
  call: left alone, the one does to the ledger what the other promises.
 */
module UndisturbedCalls {
  import opened Wrappers
  import opened Ledger
  import opened LedgerSteps
  import opened LedgerRuns
  import opened Payments
  import opened Wallets
  import SPC = SelfPaymentCalls

  // The k-th call goes from one database access to the next while nothing else happens.
  ghost predicate GoesOn(setup: Setup, trace: seq<SPC.System>, k: nat, i: nat)
    requires i + 1 < |trace|
  {
    k < |trace[i].calls| && trace[i + 1] == SPC.Advanced(setup, trace[i], k)
  }

  ghost predicate Undisturbed(setup: Setup, trace: seq<SPC.System>, k: nat) {
    forall i :: 0 <= i < |trace| - 1 ==> GoesOn(setup, trace, k, i)
  }

  // Where a call stands, and what of the ledger has changed since, with which events.
  ghost predicate Stands(s: SPC.System, t: SPC.System, k: nat, stage: SPC.Stage, rows: Table, raised: seq<Event>) {
    && k < |s.calls|
    && t.calls == s.calls[k := s.calls[k].(stage := stage)]
    && t.w == World(s.w.now, rows, s.w.outbox + multiset(raised), s.w.published)
  }

  lemma {:induction false} InsertsAlone(setup: Setup, s: SPC.System, k: nat)
    requires k < |s.calls| && s.calls[k].stage.Started?
    requires FindRow(s.w.rows, Incoming, None, s.calls[k].request, s.calls[k].hash).Some?
    ensures var me, t := s.calls[k], SPC.Advanced(setup, SPC.Advanced(setup, s, k), k);
            match InsertPayment(setup, s.w.rows, s.w.now, me.appId, me.amountMsat, me.request, me.hash, true)
            case Err(_) => Stands(s, t, k, SPC.Refused, s.w.rows, [])
            case Ok(inserted) => Stands(s, t, k, SPC.Inserted(|s.w.rows|), inserted, [])
  {
    assert s.w.outbox + multiset([]) == s.w.outbox;
  }

  // A call whose invoice is not one of this node's has nothing to do here.
  lemma {:induction false} OthersStop(setup: Setup, s: SPC.System, k: nat)
    requires k < |s.calls| && s.calls[k].stage.Started?
    ensures FindRow(s.w.rows, Incoming, None, s.calls[k].request, s.calls[k].hash).None? ==>
              var t := SPC.Advanced(setup, s, k);
              Stands(s, t, k, SPC.NotOurs, s.w.rows, []) && SPC.Advanced(setup, t, k) == t
  {
    assert s.w.outbox + multiset([]) == s.w.outbox;
  }

  // A call that has inserted its payment looks for the invoice.
  lemma {:induction false} LooksAlone(setup: Setup, s: SPC.System, k: nat, row: nat, answer: PayAnswer)
    requires k < |s.calls| && s.calls[k].stage == SPC.Inserted(row)
    ensures var rows, credit := s.w.rows, InvoiceToCredit(s.w.rows, s.calls[k].request, s.calls[k].hash);
            Stands(s, SPC.Advanced(setup, s, k), k,
                   match AnswerOf(rows, row, credit, true, answer, None)
                   case Suspended(_) => SPC.Waiting(row, credit.value)
                   case Paid(_) => SPC.Found(row, credit.value, rows[credit.value].preimage)
                   case _ => if credit.Some? && rows[credit.value].preimage == Some("") then SPC.Found(row, credit.value, Some(""))
                             else SPC.Missed(row),
                   rows, [])
  {
    assert s.w.outbox + multiset([]) == s.w.outbox;
  }

  lemma {:induction false} CreditsAlone(setup: Setup, s: SPC.System, k: nat, row: nat, invoice: nat, preimage: string)
    requires k < |s.calls| && s.calls[k].stage == SPC.Found(row, invoice, Some(preimage)) && invoice < |s.w.rows|
    requires s.w.rows[invoice].kind == Incoming
    ensures var t := SPC.Advanced(setup, s, k);
            && (preimage == "" ==> Stands(s, t, k, SPC.Missed(row), s.w.rows, []))
            && (preimage != "" ==>
                  && Stands(s, t, k, SPC.Delivered(row, preimage), t.w.rows,
                            CreditEvents(s.w.rows, Some(invoice), true))
                  && InvoiceCredited(s.w.rows, t.w.rows, Some(invoice), true))
  {
    assert s.w.outbox + multiset([]) == s.w.outbox;
    if preimage != "" {
      SettleEvolves(s.w.rows, invoice, preimage, 0, true, s.w.now);
      SettlingPaysOwner(s.w.rows, invoice, preimage, 0, true, s.w.now);
    }
  }

  lemma {:induction false} ReturnsAlone(setup: Setup, s: SPC.System, k: nat, row: nat)
    requires k < |s.calls| && row < |s.w.rows|
    ensures s.calls[k].stage == SPC.Missed(row) ==>
              var r := LedgerSteps.MarkPaymentFailed(s.w.rows, row);
              Stands(s, SPC.Advanced(setup, s, k), k, SPC.Returned(false), r.rows, r.events)
    ensures s.calls[k].stage.Delivered? && s.calls[k].stage.row == row && s.calls[k].stage.proof != "" ==>
              var r := LedgerSteps.MarkTransactionSettled(s.w.rows, row, s.calls[k].stage.proof, 0, true, s.w.now);
              Stands(s, SPC.Advanced(setup, s, k), k, SPC.Returned(true), r.rows, r.events)
  {
  }

  // What the payment is to have done once its call is back.
  ghost predicate Done(s: SPC.System, t: SPC.System, k: nat, row: nat, answer: PayAnswer, outcome: SendOutcome,
                       raised: seq<Event>) {
    && k < |s.calls| && row < |s.w.rows|
    && Stands(s, t, k, SPC.Returned(outcome.Paid?), t.w.rows, raised)
    && CarriedOut(s.w.rows, t.w.rows, raised, row, InvoiceToCredit(s.w.rows, s.calls[k].request, s.calls[k].hash), true,
                  answer, None, outcome)
  }

  lemma {:induction false} ThenReturns(s: SPC.System, t: SPC.System, u: SPC.System, k: nat, a: SPC.Stage, b: SPC.Stage,
                                       rows: Table, rows': Table, first: seq<Event>, next: seq<Event>)
    requires Stands(s, t, k, a, rows, first) && Stands(t, u, k, b, rows', next)
    ensures Stands(s, u, k, b, rows', first + next)
  {
    assert multiset(first + next) == multiset(first) + multiset(next);
  }

  lemma {:induction false} FailsAlone(s: SPC.System, looked: SPC.System, t: SPC.System, k: nat, row: nat,
                                      answer: PayAnswer)
    requires k < |s.calls| && row < |s.w.rows| && s.w.rows[row].kind == Outgoing && s.w.rows[row].state == Pending
    requires AnswerOf(s.w.rows, row, InvoiceToCredit(s.w.rows, s.calls[k].request, s.calls[k].hash), true, answer, None) == NotSent(row)
    requires Stands(s, looked, k, SPC.Missed(row), s.w.rows, [])
    requires var r := LedgerSteps.MarkPaymentFailed(looked.w.rows, row);
             Stands(looked, t, k, SPC.Returned(false), r.rows, r.events)
    ensures var r := LedgerSteps.MarkPaymentFailed(s.w.rows, row); Done(s, t, k, row, answer, NotSent(row), r.events)
  {
    var r := LedgerSteps.MarkPaymentFailed(s.w.rows, row);
    ThenReturns(s, looked, t, k, SPC.Missed(row), SPC.Returned(false), s.w.rows, r.rows, [], r.events);
    assert [] + r.events == r.events;
    FailureCarriedOut(s.w.rows, row, InvoiceToCredit(s.w.rows, s.calls[k].request, s.calls[k].hash), true, answer,
                      None);
  }

  lemma {:induction false} PaysAlone(s: SPC.System, credited: SPC.System, t: SPC.System, k: nat, row: nat,
                                     answer: PayAnswer, preimage: string)
    returns (raised: seq<Event>)
    requires k < |s.calls| && row < |s.w.rows| && s.w.rows[row].kind == Outgoing && s.w.rows[row].state == Pending
    requires var credit := InvoiceToCredit(s.w.rows, s.calls[k].request, s.calls[k].hash);
             && AnswerOf(s.w.rows, row, credit, true, answer, None) == Paid(row)
             && credit.Some? && s.w.rows[credit.value].preimage == Some(preimage)
             && Stands(s, credited, k, SPC.Delivered(row, preimage), credited.w.rows,
                       CreditEvents(s.w.rows, credit, true))
             && InvoiceCredited(s.w.rows, credited.w.rows, credit, true)
    requires var r := LedgerSteps.MarkTransactionSettled(credited.w.rows, row, preimage, 0, true, s.w.now);
             Stands(credited, t, k, SPC.Returned(true), r.rows, r.events)
    ensures Done(s, t, k, row, answer, Paid(row), raised)
  {
    var credit := InvoiceToCredit(s.w.rows, s.calls[k].request, s.calls[k].hash);
    var r := LedgerSteps.MarkTransactionSettled(credited.w.rows, row, preimage, 0, true, s.w.now);
    raised := CreditEvents(s.w.rows, credit, true) + r.events;
    ThenReturns(s, credited, t, k, SPC.Delivered(row, preimage), SPC.Returned(true), credited.w.rows, r.rows,
                CreditEvents(s.w.rows, credit, true), r.events);
    SuccessCarriedOut(s.w.rows, credited.w.rows, row, credit, true, answer, None, s.w.now);
  }

  lemma {:induction false} InsertsNext(setup: Setup, trace: seq<SPC.System>, k: nat)
    requires |trace| > 2 && Undisturbed(setup, trace, k) && k < |trace[0].calls| && trace[0].calls[k].stage.Started?
    requires FindRow(trace[0].w.rows, Incoming, None, trace[0].calls[k].request, trace[0].calls[k].hash).Some?
    ensures var me, s, t := trace[0].calls[k], trace[0], trace[2];
            match InsertPayment(setup, s.w.rows, s.w.now, me.appId, me.amountMsat, me.request, me.hash, true)
            case Err(_) => Stands(s, t, k, SPC.Refused, s.w.rows, [])
            case Ok(inserted) => Stands(s, t, k, SPC.Inserted(|s.w.rows|), inserted, [])
  {
    assert GoesOn(setup, trace, k, 0) && GoesOn(setup, trace, k, 1);
    InsertsAlone(setup, trace[0], k);
  }

  // A call that is refused or has returned does nothing more.
  lemma {:induction false} RestsNext(setup: Setup, trace: seq<SPC.System>, k: nat, i: nat)
    requires i + 1 < |trace| && Undisturbed(setup, trace, k) && k < |trace[i].calls|
    requires trace[i].calls[k].stage.Refused? || trace[i].calls[k].stage.Returned?
    ensures trace[i + 1] == trace[i]
  {
    assert GoesOn(setup, trace, k, i);
  }

  lemma {:induction false} LooksNext(setup: Setup, trace: seq<SPC.System>, k: nat, i: nat, row: nat, answer: PayAnswer)
    requires i + 1 < |trace| && Undisturbed(setup, trace, k)
    requires k < |trace[i].calls| && trace[i].calls[k].stage == SPC.Inserted(row)
    ensures var s := trace[i];
            var rows, credit := s.w.rows, InvoiceToCredit(s.w.rows, s.calls[k].request, s.calls[k].hash);
            Stands(s, trace[i + 1], k,
                   match AnswerOf(rows, row, credit, true, answer, None)
                   case Suspended(_) => SPC.Waiting(row, credit.value)
                   case Paid(_) => SPC.Found(row, credit.value, rows[credit.value].preimage)
                   case _ => if credit.Some? && rows[credit.value].preimage == Some("") then SPC.Found(row, credit.value, Some(""))
                             else SPC.Missed(row),
                   rows, [])
  {
    assert GoesOn(setup, trace, k, i);
    LooksAlone(setup, trace[i], k, row, answer);
  }

  lemma {:induction false} CreditsNext(setup: Setup, trace: seq<SPC.System>, k: nat, i: nat, row: nat, invoice: nat,
                                       preimage: string)
    requires i + 1 < |trace| && Undisturbed(setup, trace, k) && k < |trace[i].calls|
    requires trace[i].calls[k].stage == SPC.Found(row, invoice, Some(preimage)) && invoice < |trace[i].w.rows|
    requires trace[i].w.rows[invoice].kind == Incoming
    ensures var s, t := trace[i], trace[i + 1];
            && (preimage == "" ==> Stands(s, t, k, SPC.Missed(row), s.w.rows, []))
            && (preimage != "" ==>
                  && Stands(s, t, k, SPC.Delivered(row, preimage), t.w.rows,
                            CreditEvents(s.w.rows, Some(invoice), true))
                  && InvoiceCredited(s.w.rows, t.w.rows, Some(invoice), true))
  {
    assert GoesOn(setup, trace, k, i);
    CreditsAlone(setup, trace[i], k, row, invoice, preimage);
  }

  lemma {:induction false} ReturnsNext(setup: Setup, trace: seq<SPC.System>, k: nat, i: nat, row: nat)
    requires i + 1 < |trace| && Undisturbed(setup, trace, k) && k < |trace[i].calls| && row < |trace[i].w.rows|
    ensures var s, t := trace[i], trace[i + 1];
            && (s.calls[k].stage == SPC.Missed(row) ==>
                  var r := LedgerSteps.MarkPaymentFailed(s.w.rows, row);
                  Stands(s, t, k, SPC.Returned(false), r.rows, r.events))
            && (s.calls[k].stage.Delivered? && s.calls[k].stage.row == row && s.calls[k].stage.proof != "" ==>
                  var r := LedgerSteps.MarkTransactionSettled(s.w.rows, row, s.calls[k].stage.proof, 0, true, s.w.now);
                  Stands(s, t, k, SPC.Returned(true), r.rows, r.events))
  {
    assert GoesOn(setup, trace, k, i);
    ReturnsAlone(setup, trace[i], k, row);
  }

  // An inserted payment is carried out by the next three accesses.
  lemma {:induction false} CarriesOut(setup: Setup, trace: seq<SPC.System>, k: nat, row: nat, answer: PayAnswer)
    returns (raised: seq<Event>)
    requires |trace| == 6 && Undisturbed(setup, trace, k) && k < |trace[2].calls|
    requires var s := trace[2];
             && s.calls[k].stage == SPC.Inserted(row) && row < |s.w.rows|
             && s.w.rows[row].kind == Outgoing && s.w.rows[row].state == Pending
    ensures var s := trace[2];
            var credit := InvoiceToCredit(s.w.rows, s.calls[k].request, s.calls[k].hash);
            var outcome := AnswerOf(s.w.rows, row, credit, true, answer, None);
            if outcome.Suspended? then Stands(s, trace[3], k, SPC.Waiting(row, credit.value), s.w.rows, [])
            else Done(s, trace[5], k, row, answer, outcome, raised)
  {
    var s := trace[2];
    var credit := InvoiceToCredit(s.w.rows, s.calls[k].request, s.calls[k].hash);
    raised := [];
    LooksNext(setup, trace, k, 2, row, answer);
    match AnswerOf(s.w.rows, row, credit, true, answer, None)
    case Suspended(_) =>
    case Paid(_) =>
      var preimage := s.w.rows[credit.value].preimage.value;
      CreditsNext(setup, trace, k, 3, row, credit.value, preimage);
      ReturnsNext(setup, trace, k, 4, row);
      ThenReturns(s, trace[3], trace[4], k, trace[3].calls[k].stage, SPC.Delivered(row, preimage), s.w.rows,
                  trace[4].w.rows, [], CreditEvents(s.w.rows, credit, true));
      assert [] + CreditEvents(s.w.rows, credit, true) == CreditEvents(s.w.rows, credit, true);
      raised := PaysAlone(s, trace[4], trace[5], k, row, answer, preimage);
    case _ =>
      raised := MissesAlone(setup, trace, k, row, answer);
  }

  lemma {:induction false} MissesAlone(setup: Setup, trace: seq<SPC.System>, k: nat, row: nat, answer: PayAnswer)
    returns (raised: seq<Event>)
    requires |trace| == 6 && Undisturbed(setup, trace, k) && k < |trace[2].calls|
    requires var s := trace[2];
             && s.calls[k].stage == SPC.Inserted(row) && row < |s.w.rows|
             && s.w.rows[row].kind == Outgoing && s.w.rows[row].state == Pending
             && AnswerOf(s.w.rows, row, InvoiceToCredit(s.w.rows, s.calls[k].request, s.calls[k].hash), true, answer,
                         None)
                == NotSent(row)
    ensures Done(trace[2], trace[5], k, row, answer, NotSent(row), raised)
  {
    var s := trace[2];
    var credit := InvoiceToCredit(s.w.rows, s.calls[k].request, s.calls[k].hash);
    raised := LedgerSteps.MarkPaymentFailed(s.w.rows, row).events;
    LooksNext(setup, trace, k, 2, row, answer);
    if credit.Some? && s.w.rows[credit.value].preimage == Some("") {
      CreditsNext(setup, trace, k, 3, row, credit.value, "");
      ThenReturns(s, trace[3], trace[4], k, trace[3].calls[k].stage, SPC.Missed(row), s.w.rows, s.w.rows, [], []);
      ReturnsNext(setup, trace, k, 4, row);
      FailsAlone(s, trace[4], trace[5], k, row, answer);
    } else {
      ReturnsNext(setup, trace, k, 3, row);
      FailsAlone(s, trace[3], trace[4], k, row, answer);
      RestsNext(setup, trace, k, 4);
    }
  }

  // A call that started in `s` stands in `t` as its payment has ended, and the payment is as SendPaymentSync promises.
  ghost predicate Pays(setup: Setup, s: SPC.System, t: SPC.System, k: nat, answer: PayAnswer, outcome: SendOutcome,
                       raised: seq<Event>) {
    && k < |s.calls| && k < |t.calls|
    && Stands(s, t, k, t.calls[k].stage, t.w.rows, raised)
    && EndsAs(t.calls[k].stage, outcome)
    && var me := s.calls[k];
       PaymentResult(setup, s.w.rows, s.w.now, t.w.rows, raised, me.appId, me.amountMsat, me.request, me.hash, answer,
                     outcome)
  }

  predicate EndsAs(stage: SPC.Stage, outcome: SendOutcome) {
    match outcome
    case Refused(_) => stage.Refused?
    case Suspended(row) => stage.Waiting? && stage.row == row
    case NotSent(_) => stage == SPC.Returned(false)
    case Paid(_) => stage == SPC.Returned(true)
    case _ => false
  }

  lemma {:induction false} RefusedAlone(setup: Setup, trace: seq<SPC.System>, k: nat, answer: PayAnswer,
                                        error: PayError)
    requires |trace| == 6 && Undisturbed(setup, trace, k) && k < |trace[0].calls|
    requires var s, me := trace[0], trace[0].calls[k];
             && FindRow(s.w.rows, Incoming, None, me.request, me.hash).Some?
             && InsertPayment(setup, s.w.rows, s.w.now, me.appId, me.amountMsat, me.request, me.hash, true) == Err(error)
    requires Stands(trace[0], trace[2], k, SPC.Refused, trace[0].w.rows, [])
    ensures Pays(setup, trace[0], trace[5], k, answer, Refused(error), [])
  {
    RestsNext(setup, trace, k, 2);
    RestsNext(setup, trace, k, 3);
    RestsNext(setup, trace, k, 4);
  }

  lemma {:induction false} InsertedAlone(setup: Setup, s: SPC.System, inserted: SPC.System, t: SPC.System, k: nat,
                                         answer: PayAnswer, outcome: SendOutcome, raised: seq<Event>)
    requires k < |s.calls| && k < |t.calls|
    requires var me := s.calls[k];
             && FindRow(s.w.rows, Incoming, None, me.request, me.hash).Some?
             && InsertPayment(setup, s.w.rows, s.w.now, me.appId, me.amountMsat, me.request, me.hash, true) == Ok(inserted.w.rows)
             && |inserted.w.rows| == |s.w.rows| + 1
             && CarriedOut(inserted.w.rows, t.w.rows, raised, |s.w.rows|,
                           InvoiceToCredit(inserted.w.rows, me.request, me.hash), true, answer, None, outcome)
    requires Stands(s, inserted, k, SPC.Inserted(|s.w.rows|), inserted.w.rows, [])
    requires Stands(inserted, t, k, t.calls[k].stage, t.w.rows, raised) && EndsAs(t.calls[k].stage, outcome)
    ensures Pays(setup, s, t, k, answer, outcome, raised)
  {
    ThenReturns(s, inserted, t, k, SPC.Inserted(|s.w.rows|), t.calls[k].stage, inserted.w.rows, t.w.rows, [], raised);
    assert [] + raised == raised;
  }

  /**
    Left alone from its start for five database accesses, a call paying an invoice of this node does to the
    ledger what SendPaymentSync promises, raises the same events and returns the same; paying a hold invoice it
    has after three accesses inserted its payment and is about to wait.
   */
  lemma {:induction false} UndisturbedCallPays(setup: Setup, trace: seq<SPC.System>, k: nat, answer: PayAnswer)
    returns (outcome: SendOutcome, raised: seq<Event>)
    requires |trace| == 6 && Undisturbed(setup, trace, k) && k < |trace[0].calls| && trace[0].calls[k].stage.Started?
    requires FindRow(trace[0].w.rows, Incoming, None, trace[0].calls[k].request, trace[0].calls[k].hash).Some?
    ensures Pays(setup, trace[0], if outcome.Suspended? then trace[3] else trace[5], k, answer, outcome, raised)
  {
    var s, me := trace[0], trace[0].calls[k];
    InsertsNext(setup, trace, k);
    match InsertPayment(setup, s.w.rows, s.w.now, me.appId, me.amountMsat, me.request, me.hash, true)
    case Err(error) =>
      outcome, raised := Refused(error), [];
      RefusedAlone(setup, trace, k, answer, error);
    case Ok(inserted) =>
      InsertedShape(setup, s.w.rows, s.w.now, me.appId, me.amountMsat, me.request, me.hash, true);
      var credit := InvoiceToCredit(inserted, me.request, me.hash);
      outcome := AnswerOf(inserted, |s.w.rows|, credit, true, answer, None);
      raised := CarriesOut(setup, trace, k, |s.w.rows|, answer);
      if outcome.Suspended? {
        raised := [];
        NothingCarriedOut(inserted, |s.w.rows|, credit, true, answer, None, outcome);
        InsertedAlone(setup, s, trace[2], trace[3], k, answer, outcome, raised);
      } else {
        InsertedAlone(setup, s, trace[2], trace[5], k, answer, outcome, raised);
      }
  }
}
