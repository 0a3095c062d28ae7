/**
  Events: each settlement is announced exactly once, each failure at most once,
  and never before the transaction it reports has committed.
 */
module EventAccounting {
  import opened Wrappers
  import opened Ledger
  import opened LedgerSteps
  import opened LedgerRuns

  // Events of committed transactions, published or not yet.
  function Raised(w: World): multiset<Event> {
    w.outbox + w.published
  }

  // What the table owes about a row: one announcement of its settlement, by direction.
  function SentOwed(rows: Table, id: nat): nat {
    if id < |rows| && rows[id].kind == Outgoing && rows[id].state == Settled then 1 else 0
  }

  function ReceivedOwed(rows: Table, id: nat): nat {
    if id < |rows| && rows[id].kind == Incoming && rows[id].state == Settled then 1 else 0
  }

  // A row that has failed is owed one failed event; one that settled may have failed before.
  predicate FailureAnnounced(rows: Table, events: multiset<Event>, id: nat) {
    if id >= |rows| then events[PaymentFailed(id)] == 0
    else
      match rows[id].state
      case Failed => events[PaymentFailed(id)] == 1
      case Settled => events[PaymentFailed(id)] <= 1
      case _ => events[PaymentFailed(id)] == 0
  }

  ghost predicate Accounted(w: World) {
    && (forall id: nat :: Raised(w)[PaymentSent(id)] == SentOwed(w.rows, id))
    && (forall id: nat :: Raised(w)[PaymentReceived(id)] == ReceivedOwed(w.rows, id))
    && (forall id: nat :: FailureAnnounced(w.rows, Raised(w), id))
  }

  // A transaction raises exactly the events its changes owe.
  ghost predicate Pays(before: Table, after: Table, events: seq<Event>) {
    && (forall id: nat :: multiset(events)[PaymentSent(id)] == SentOwed(after, id) - SentOwed(before, id))
    && (forall id: nat :: multiset(events)[PaymentReceived(id)] == ReceivedOwed(after, id) - ReceivedOwed(before, id))
    && (forall id: nat :: multiset(events)[PaymentFailed(id)] == if JustFailed(before, after, id) then 1 else 0)
    && (forall id: nat :: HoldInvoiceCanceled(id) !in events)
    && TableEvolves(before, after)
    && (forall id: nat :: |before| <= id < |after| ==> after[id].state != Failed)
  }

  predicate JustFailed(before: Table, after: Table, id: nat) {
    id < |before| && id < |after| && before[id].state != Failed && after[id].state == Failed
  }

  lemma {:induction false} SettlePays(rows: Table, id: nat, preimage: string, feeMsat: nat, selfPayment: bool, now: int)
    requires id < |rows|
    ensures var r := MarkTransactionSettled(rows, id, preimage, feeMsat, selfPayment, now); Pays(rows, r.rows, r.events)
  {
    SettleEvolves(rows, id, preimage, feeMsat, selfPayment, now);
    var r := rows[id];
    if r.state == Settled {
      assert Matches(r, r.kind, Some(Settled), r.paymentRequest, r.paymentHash);
    }
  }

  lemma {:induction false} CreatePays(rows: Table, r: Row, preimage: string, feeMsat: nat, now: int)
    ensures var c := CreateSettledTransaction(rows, r, preimage, feeMsat, now); Pays(rows, c.rows, c.events)
  {
    GrowthEvolves(rows, CreateSettledTransaction(rows, r, preimage, feeMsat, now).rows);
  }

  lemma {:induction false} FailPays(rows: Table, id: nat)
    ensures var r := MarkPaymentFailed(rows, id); Pays(rows, r.rows, r.events)
  {
    FailEvolves(rows, id);
  }

  lemma {:induction false} AcceptPays(rows: Table, request: string, hash: string, selfPayment: bool)
    ensures var r := MarkHoldInvoiceAccepted(rows, request, hash, selfPayment); Pays(rows, r.rows, r.events)
  {
    AcceptEvolves(rows, request, hash, selfPayment);
  }

  lemma {:induction false} InsertPays(rows: Table, r: Row)
    requires r.state == Pending
    ensures Pays(rows, rows + [r], [])
  {
    GrowthEvolves(rows, rows + [r]);
  }

  lemma {:induction false} PayingKeepsAccounts(w: World, rows: Table, events: seq<Event>)
    requires Accounted(w) && Pays(w.rows, rows, events)
    ensures Accounted(Commit(w, rows, events))
  {
    var w' := Commit(w, rows, events);
    assert forall e :: Raised(w')[e] == Raised(w)[e] + multiset(events)[e];
    forall id: nat
      ensures FailureAnnounced(rows, Raised(w'), id)
    {
      assert FailureAnnounced(w.rows, Raised(w), id);
      if id < |w.rows| {
        assert Evolves(w.rows[id], rows[id]);
      }
    }
  }

  // Every step but publishing and the passing of time is a commit that pays its events.
  lemma {:induction false} ApplyPays(setup: Setup, w: World, op: Op) returns (rows: Table, events: seq<Event>)
    requires !op.Publish? && !op.Tick?
    ensures Apply(setup, w, op) == Commit(w, rows, events) && Pays(w.rows, rows, events)
  {
    match op
    case Settle(id, preimage, fee, self) =>
      if id < |w.rows| {
        SettlePays(w.rows, id, preimage, fee, self, w.now);
        var r := MarkTransactionSettled(w.rows, id, preimage, fee, self, w.now);
        rows, events := r.rows, r.events;
      } else {
        GrowthEvolves(w.rows, w.rows);
        rows, events := w.rows, [];
      }
    case Notify(_, _, _, _, _, preimage, fee) =>
      CreatePays(w.rows, Notified(op, w.now), preimage, fee, w.now);
      var r := CreateSettledTransaction(w.rows, Notified(op, w.now), preimage, fee, w.now);
      rows, events := r.rows, r.events;
    case Fail(id) =>
      FailPays(w.rows, id);
      rows, events := MarkPaymentFailed(w.rows, id).rows, MarkPaymentFailed(w.rows, id).events;
    case Accept(request, hash, self) =>
      AcceptPays(w.rows, request, hash, self);
      var r := MarkHoldInvoiceAccepted(w.rows, request, hash, self);
      rows, events := r.rows, r.events;
    case Publish(_) =>
      assert false;
    case Tick(_) =>
      assert false;
    case _ =>
      InsertingPays(setup, w, op);
      rows, events := Apply(setup, w, op).rows, [];
  }

  lemma {:induction false} InsertingPays(setup: Setup, w: World, op: Op)
    requires op.Invoice? || op.Pay? || op.Keysend?
    ensures var rows := Apply(setup, w, op).rows;
            Apply(setup, w, op) == Commit(w, rows, []) && Pays(w.rows, rows, [])
  {
    var rows := Apply(setup, w, op).rows;
    if rows == w.rows {
      GrowthEvolves(w.rows, w.rows);
    } else {
      InsertPays(w.rows, rows[|w.rows|]);
    }
  }

  lemma {:induction false} ApplyKeepsAccounts(setup: Setup, w: World, op: Op)
    requires Accounted(w)
    ensures Accounted(Apply(setup, w, op))
  {
    if op.Publish? || op.Tick? {
      assert Raised(Apply(setup, w, op)) == Raised(w);
    } else {
      var rows, events := ApplyPays(setup, w, op);
      PayingKeepsAccounts(w, rows, events);
    }
  }

  /** However calls, notifications and publications interleave, the events raised are those the table owes. */
  lemma {:induction false} EventsAreAccounted(setup: Setup, w: World, ops: seq<Op>)
    requires Accounted(w)
    ensures Accounted(Run(setup, w, ops))
  {
    if ops == [] {
    } else {
      EventsAreAccounted(setup, w, ops[..|ops| - 1]);
      ApplyKeepsAccounts(setup, Run(setup, w, ops[..|ops| - 1]), ops[|ops| - 1]);
    }
  }

  /**
    From an empty ledger: what has been published about a row is always true of
    the committed table, and once nothing is left to publish every settled row has
    been announced exactly once, as sent or received by its direction, and every
    failed row exactly once.
   */
  lemma {:induction false} PublishedEventsMatchTable(setup: Setup, ops: seq<Op>, id: nat)
    ensures var w := Run(setup, EMPTY, ops);
            && (w.published[PaymentSent(id)] > 0 ==>
                   id < |w.rows| && w.rows[id].kind == Outgoing && w.rows[id].state == Settled)
            && (w.published[PaymentReceived(id)] > 0 ==>
                   id < |w.rows| && w.rows[id].kind == Incoming && w.rows[id].state == Settled)
            && (w.published[PaymentFailed(id)] > 0 ==>
                   id < |w.rows| && (w.rows[id].state == Failed || w.rows[id].state == Settled))
            && w.published[PaymentFailed(id)] <= 1
            && (w.outbox == multiset{} ==>
                 && w.published[PaymentSent(id)] == SentOwed(w.rows, id)
                 && w.published[PaymentReceived(id)] == ReceivedOwed(w.rows, id)
                 && FailureAnnounced(w.rows, w.published, id))
  {
    EventsAreAccounted(setup, EMPTY, ops);
    var w := Run(setup, EMPTY, ops);
    assert FailureAnnounced(w.rows, Raised(w), id);
    assert Raised(w)[PaymentSent(id)] == SentOwed(w.rows, id);
    assert Raised(w)[PaymentReceived(id)] == ReceivedOwed(w.rows, id);
    if w.outbox == multiset{} {
      assert Raised(w) == w.published;
    }
  }

  /** Whatever is left to publish can be published, any part of it and so all of it. */
  lemma {:induction false} OutboxCanBeDrained(setup: Setup, w: World, part: multiset<Event>) returns (ops: seq<Op>)
    requires part <= w.outbox
    ensures forall i :: 0 <= i < |ops| ==> ops[i].Publish?
    ensures Run(setup, w, ops) == World(w.now, w.rows, w.outbox - part, w.published + part)
    decreases |part|
  {
    if part == multiset{} {
      ops := [];
    } else {
      var e :| e in part;
      var rest := part - multiset{e};
      var before := OutboxCanBeDrained(setup, w, rest);
      ops := before + [Publish(e)];
      assert ops[..|before|] == before;
      PublishingOneMore(w.outbox, w.published, part, e);
    }
  }

  lemma {:induction false} PublishingOneMore(outbox: multiset<Event>, published: multiset<Event>, part: multiset<Event>,
                                             e: Event)
    requires part <= outbox && e in part
    ensures var rest := part - multiset{e};
            && e in outbox - rest
            && outbox - rest - multiset{e} == outbox - part && published + rest + multiset{e} == published + part
  {
  }
}
