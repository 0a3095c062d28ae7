/**
  Self-paid hold invoices. The payer subscribes to updates of the invoice, marks
  it accepted and waits; another call settles or cancels the invoice later, looking
  its row up first and marking it afterwards. Everything is interleaved at every
  database access, subscription and publication.
 */
module HoldPayments {
  import opened Wrappers
  import opened Ledger
  import opened LedgerSteps
  import opened LedgerRuns
  import opened EventAccounting
  import opened LedgerMeaning

  datatype Stage =
    // about to subscribe
    | Entered
    // subscribed, asking the node for its block height
    | Subscribed
    // subscribed, about to mark the invoice accepted
    | Ready
    // blocked on the settled and canceled channels
    | Awaiting
    // told that the invoice was settled, with its preimage, or not to be settled
    | Told(why: Option<Event>, preimage: Option<string>)
    | Finished(why: Option<Event>, preimage: Option<string>)

  // `late` records the rows that had already ended when it subscribed, `accepted` the one it marked accepted.
  datatype Waiter = Waiter(row: nat, request: string, hash: string, stage: Stage, inbox: set<Event>,
                           late: set<nat>, accepted: Option<nat>)

  // A call of SettleHoldInvoice or CancelHoldInvoice that has found an accepted row.
  datatype HoldCall =
    | Settling(id: nat, preimage: string, selfPayment: bool)
    | Cancelling(id: nat)
    | Returned

  datatype System = System(w: World, waiters: seq<Waiter>, calls: seq<HoldCall>)

  const START := System(EMPTY, [], [])

  datatype Move =
    | Intercept(row: nat)
    | Subscribe(k: nat)
    | NodeInfo(k: nat, available: bool)
    | MarkAccepted(k: nat)
    | Receive(k: nat, event: Event)
    | Finish(k: nat)
    | FindToSettle(preimage: string)
    | FindToCancel(hash: string)
    | Mark(call: nat)
    | Deliver(event: Event)
    | Elsewhere(op: Op)

  // ---------------------------------------------------------------- the consumer of hold invoice updates

  function Subject(e: Event): Option<nat> {
    match e
    case PaymentReceived(id) => Some(id)
    case HoldInvoiceCanceled(id) => Some(id)
    case _ => None
  }

  // ConsumeEvent of the waiter's subscriber: updates are told apart by payment request.
  predicate Wakes(rows: Table, e: Event, request: string) {
    && Subject(e).Some?
    && Subject(e).value < |rows|
    && rows[Subject(e).value].paymentRequest == request
  }

  predicate Listening(me: Waiter) {
    me.stage == Subscribed || me.stage == Ready || me.stage == Awaiting
  }

  function Heard(rows: Table, e: Event, me: Waiter): Waiter {
    if Listening(me) && Wakes(rows, e, me.request) then me.(inbox := me.inbox + {e}) else me
  }

  // ---------------------------------------------------------------- steps

  predicate MayIntercept(s: System, row: nat) {
    && row < |s.w.rows|
    && s.w.rows[row].kind == Outgoing && s.w.rows[row].state == Pending && s.w.rows[row].selfPayment
    && (forall k :: 0 <= k < |s.waiters| ==> s.waiters[k].row != row)
    && var r := s.w.rows[row];
    var found := FindRow(s.w.rows, Incoming, Some(Pending), r.paymentRequest, r.paymentHash);
    found.Some? && s.w.rows[found.value].hold
  }

  ghost function Step(setup: Setup, sha256: string -> string, s: System, move: Move): System {
    var rows := s.w.rows;
    match move
    case Intercept(row) =>
      if MayIntercept(s, row)
      then s.(waiters := s.waiters + [Waiter(row, rows[row].paymentRequest, rows[row].paymentHash, Entered, {}, {},
                                             None)])
      else s
    case Subscribe(k) =>
      if k < |s.waiters| && s.waiters[k].stage == Entered
      then Moved(s, k, s.waiters[k].(stage := Subscribed, late := Ended(rows)))
      else s
    case NodeInfo(k, available) =>
      if k < |s.waiters| && s.waiters[k].stage == Subscribed
      then Moved(s, k, s.waiters[k].(stage := if available then Ready else Told(None, None)))
      else s
    case MarkAccepted(k) =>
      if k < |s.waiters| && s.waiters[k].stage == Ready
      then
        var r := MarkHoldInvoiceAccepted(rows, s.waiters[k].request, s.waiters[k].hash, true);
        s.(w := Commit(s.w, r.rows, r.events),
           waiters := s.waiters[k := s.waiters[k].(stage := Awaiting, accepted := r.accepted)])
      else s
    case Receive(k, e) =>
      if k < |s.waiters| && s.waiters[k].stage == Awaiting && e in s.waiters[k].inbox && Subject(e).Some? && Subject(e).value < |rows|
      then Moved(s, k, s.waiters[k].(stage := Told(Some(e), if e.PaymentReceived? then rows[e.id].preimage else None)))
      else s
    case Finish(k) =>
      if k < |s.waiters| && s.waiters[k].stage.Told? && s.waiters[k].row < |rows|
      then
        var me := s.waiters[k];
        var done := me.(stage := Finished(me.stage.why, me.stage.preimage));
        if me.stage.preimage.Some? then
          var r := MarkTransactionSettled(rows, me.row, me.stage.preimage.value, 0, true, s.w.now);
          s.(w := Commit(s.w, r.rows, r.events), waiters := s.waiters[k := done])
        else
          var r := MarkPaymentFailed(rows, me.row);
          s.(w := Commit(s.w, r.rows, r.events), waiters := s.waiters[k := done])
      else s
    case FindToSettle(preimage) =>
      var found := FindRow(rows, Incoming, Some(Accepted), "", sha256(preimage));
      if found.None? then s else s.(calls := s.calls + [Settling(found.value, preimage, rows[found.value].selfPayment)])
    case FindToCancel(hash) =>
      var found := FindRow(rows, Incoming, Some(Accepted), "", hash);
      if found.None? then s else s.(calls := s.calls + [Cancelling(found.value)])
    case Mark(c) =>
      if c < |s.calls| then Marked(s, c) else s
    case Deliver(e) =>
      if e in s.w.outbox
      then s.(w := Apply(setup, s.w, Publish(e)),
              waiters := seq(|s.waiters|, k requires 0 <= k < |s.waiters| => Heard(rows, e, s.waiters[k])))
      else s
    case Elsewhere(op) => s.(w := Apply(setup, s.w, op))
  }

  // The second half of a settle or cancel call, which relies on its earlier look at the row.
  function Marked(s: System, c: nat): System
    requires c < |s.calls|
  {
    var done := s.(calls := s.calls[c := Returned]);
    match s.calls[c]
    case Settling(id, preimage, self) =>
      if id >= |s.w.rows| then s
      else
        var r := MarkTransactionSettled(s.w.rows, id, preimage, 0, self, s.w.now);
        done.(w := Commit(s.w, r.rows, r.events))
    case Cancelling(id) =>
      var r := MarkPaymentFailed(s.w.rows, id);
      done.(w := Commit(s.w, r.rows, if r.outcome.FailedNow? then r.events + [HoldInvoiceCanceled(id)] else r.events))
    case Returned => s
  }

  function Moved(s: System, k: nat, me: Waiter): System
    requires k < |s.waiters|
  {
    s.(waiters := s.waiters[k := me])
  }

  function Ended(rows: Table): set<nat> {
    set id | 0 <= id < |rows| && (rows[id].state == Settled || rows[id].state == Failed)
  }

  ghost function Play(setup: Setup, sha256: string -> string, s: System, moves: seq<Move>): System {
    if moves == [] then s
    else Step(setup, sha256, Play(setup, sha256, s, moves[..|moves| - 1]), moves[|moves| - 1])
  }

  // ---------------------------------------------------------------- the environment

  // Other traffic leaves the payments of self-payments to their calls, and the node never reports a cancelled invoice
  // as received.
  predicate Truthful(rows: Table, op: Op) {
    match op
    case Settle(id, _, _, _) => id < |rows| ==>
      if rows[id].kind == Incoming then rows[id].state != Failed else !rows[id].selfPayment
    case Fail(id) => id < |rows| ==> rows[id].kind == Outgoing && !rows[id].selfPayment
    case Publish(_) => false
    case _ => true
  }

  ghost predicate TruthfulPlay(setup: Setup, sha256: string -> string, s: System, moves: seq<Move>) {
    forall i :: 0 <= i < |moves| && moves[i].Elsewhere? ==>
      Truthful(Play(setup, sha256, s, moves[..i]).w.rows, moves[i].op)
  }

  // A settle call marks a row that a cancel call has failed since it was looked up.
  predicate Spoils(s: System, move: Move) {
    && move.Mark? && move.call < |s.calls| && s.calls[move.call].Settling?
    && var call := s.calls[move.call];
       && call.id < |s.w.rows| && s.w.rows[call.id].state == Failed
       && call.preimage != "" && FindSettled(s.w.rows, s.w.rows[call.id]).None?
  }

  ghost predicate NothingSpoilt(setup: Setup, sha256: string -> string, s: System, moves: seq<Move>) {
    forall i :: 0 <= i < |moves| ==> !Spoils(Play(setup, sha256, s, moves[..i]), moves[i])
  }

  // ---------------------------------------------------------------- the invariant

  // What an update says is so, and stays so.
  predicate True(rows: Table, e: Event) {
    match e
    case PaymentReceived(id) => id < |rows| && rows[id].kind == Incoming && rows[id].state == Settled && rows[id].preimage.Some?
    case HoldInvoiceCanceled(id) => id < |rows| && rows[id].kind == Incoming && rows[id].state == Failed
    case _ => true
  }

  // An invoice that has ended has its last update on the way or in the inbox.
  predicate NotMissed(w: World, inbox: set<Event>, id: nat) {
    id < |w.rows| ==>
      match w.rows[id].state
      case Settled => PaymentReceived(id) in w.outbox || PaymentReceived(id) in inbox
      case Failed => HoldInvoiceCanceled(id) in w.outbox || HoldInvoiceCanceled(id) in inbox
      case _ => true
  }

  predicate ForInvoice(rows: Table, id: nat, request: string) {
    id < |rows| && rows[id].kind == Incoming && rows[id].paymentRequest == request
  }

  // What the waiter was told was an update for its invoice, and still holds.
  predicate Justified(rows: Table, request: string, why: Option<Event>, preimage: Option<string>) {
    && (why.Some? ==> Subject(why.value).Some? && True(rows, why.value) && Wakes(rows, why.value, request))
    && (preimage.Some? ==>
           why.Some? && why.value.PaymentReceived? && why.value.id < |rows| && rows[why.value.id].preimage == preimage)
  }

  // A payment for the same invoice has settled.
  predicate PaidFor(rows: Table, row: nat)
    requires row < |rows|
  {
    exists id :: 0 <= id < |rows| && Matches(rows[id], rows[row].kind, Some(Settled), rows[row].paymentRequest,
                                             rows[row].paymentHash)
  }

  // Without a preimage the payment has failed, with one the invoice is paid for.
  predicate EndedAsTold(rows: Table, row: nat, preimage: Option<string>)
    requires row < |rows|
  {
    && (preimage == None ==> rows[row].state == Failed)
    && (preimage.Some? && preimage.value != "" ==> PaidFor(rows, row))
  }

  predicate RowAsStage(rows: Table, me: Waiter)
    requires me.row < |rows|
  {
    match me.stage
    case Told(why, preimage) => rows[me.row].state == Pending && Justified(rows, me.request, why, preimage)
    case Finished(why, preimage) =>
      && Justified(rows, me.request, why, preimage)
      && (rows[me.row].state == Settled ==> preimage.Some? && rows[me.row].preimage == preimage)
      && EndedAsTold(rows, me.row, preimage)
    case _ => rows[me.row].state == Pending
  }

  ghost predicate WaiterOk(w: World, me: Waiter) {
    && me.row < |w.rows|
    && w.rows[me.row].kind == Outgoing && w.rows[me.row].selfPayment && w.rows[me.row].paymentRequest == me.request
    && RowAsStage(w.rows, me)
    && (forall e :: e in me.inbox ==> True(w.rows, e) && Wakes(w.rows, e, me.request))
    && (forall id :: id in me.late ==> id in Ended(w.rows))
    && (Listening(me) ==> forall id :: ForInvoice(w.rows, id, me.request) && id !in me.late ==>
           NotMissed(w, me.inbox, id))
    && (me.stage == Entered ==> me.accepted == None)
    && (me.accepted.Some? ==> ForInvoice(w.rows, me.accepted.value, me.request) && me.accepted.value !in me.late)
  }

  // What has been raised is so, and every cancellation of an invoice has been raised.
  ghost predicate AnnouncementsHold(w: World) {
    && (forall e :: e in Raised(w) ==> True(w.rows, e))
    && (forall id: nat :: id < |w.rows| && w.rows[id].kind == Incoming && w.rows[id].state == Failed ==>
           HoldInvoiceCanceled(id) in Raised(w))
  }

  predicate CallOk(rows: Table, call: HoldCall) {
    call.Returned? || (call.id < |rows| && rows[call.id].kind == Incoming && rows[call.id].state != Pending)
  }

  ghost predicate Good(s: System) {
    && AnnouncementsHold(s.w)
    && (forall c :: 0 <= c < |s.calls| ==> CallOk(s.w.rows, s.calls[c]))
    && (forall k, l :: 0 <= k < l < |s.waiters| ==> s.waiters[k].row != s.waiters[l].row)
    && (forall k :: 0 <= k < |s.waiters| ==> WaiterOk(s.w, s.waiters[k]))
  }

  // A commit that announces every invoice it ends, ends none it had cancelled, and changes no payment of a
  // self-payment but `mine`.
  ghost predicate Announced(before: Table, after: Table, events: seq<Event>, mine: Option<nat>) {
    && TableEvolves(before, after)
    && (forall e :: e in events ==> True(after, e))
    && (forall id :: 0 <= id < |before| && before[id].kind == Incoming && before[id].state == Failed ==>
           after[id] == before[id])
    && (forall id: nat :: id < |after| && after[id].kind == Incoming && (id >= |before| || before[id].state != after[id].state) ==>
          match after[id].state
          case Settled => PaymentReceived(id) in events
          case Failed => HoldInvoiceCanceled(id) in events
          case _ => true)
    && (forall id :: 0 <= id < |before| && before[id].kind == Outgoing && before[id].selfPayment && Some(id) != mine ==> after[id] == before[id])
  }

  lemma {:induction false} TruthKept(before: Table, after: Table, events: seq<Event>, mine: Option<nat>, e: Event)
    requires Announced(before, after, events, mine) && True(before, e)
    ensures True(after, e)
  {
    if Subject(e).Some? {
      assert Evolves(before[Subject(e).value], after[Subject(e).value]);
    }
  }

  lemma {:induction false} WaiterKept(w: World, after: Table, events: seq<Event>, mine: Option<nat>, me: Waiter)
    requires WaiterOk(w, me) && Announced(w.rows, after, events, mine)
    requires Some(me.row) != mine
    ensures WaiterOk(Commit(w, after, events), me)
  {
    assert Evolves(w.rows[me.row], after[me.row]);
    WaiterBasicsKept(w, after, events, mine, me);
    WaiterHearsKept(w, after, events, mine, me);
    if me.stage.Told? || me.stage.Finished? {
      JustifiedKept(w.rows, after, events, mine, me.request, me.stage.why, me.stage.preimage);
      PaidForKept(w.rows, after, me.row);
    }
  }

  lemma {:induction false} PaidForKept(before: Table, after: Table, row: nat)
    requires TableEvolves(before, after) && row < |before|
    ensures PaidFor(before, row) ==> PaidFor(after, row)
  {
    if PaidFor(before, row) {
      var id :| 0 <= id < |before| && Matches(before[id], before[row].kind, Some(Settled), before[row].paymentRequest,
                                              before[row].paymentHash);
      assert Evolves(before[id], after[id]) && Evolves(before[row], after[row]);
      assert Matches(after[id], after[row].kind, Some(Settled), after[row].paymentRequest, after[row].paymentHash);
    }
  }

  lemma {:induction false} SettlingPaysFor(rows: Table, row: nat, preimage: string, now: int)
    requires row < |rows| && preimage != ""
    ensures PaidFor(MarkTransactionSettled(rows, row, preimage, 0, true, now).rows, row)
  {
    var r := MarkTransactionSettled(rows, row, preimage, 0, true, now);
    var id := if r.outcome.AlreadySettled? then r.outcome.existing else row;
    assert Matches(r.rows[id], rows[row].kind, Some(Settled), rows[row].paymentRequest, rows[row].paymentHash);
  }

  lemma {:induction false} JustifiedKept(before: Table, after: Table, events: seq<Event>, mine: Option<nat>,
                                         request: string, why: Option<Event>, preimage: Option<string>)
    requires Announced(before, after, events, mine) && Justified(before, request, why, preimage)
    ensures Justified(after, request, why, preimage)
  {
    if why.Some? {
      TruthKept(before, after, events, mine, why.value);
      assert Evolves(before[Subject(why.value).value], after[Subject(why.value).value]);
    }
  }

  lemma {:induction false} WaiterBasicsKept(w: World, after: Table, events: seq<Event>, mine: Option<nat>, me: Waiter)
    requires WaiterOk(w, me) && Announced(w.rows, after, events, mine)
    ensures forall e :: e in me.inbox ==> True(after, e) && Wakes(after, e, me.request)
    ensures forall id :: id in me.late ==> id in Ended(after)
    ensures me.accepted.Some? ==> ForInvoice(after, me.accepted.value, me.request)
  {
    forall e | e in me.inbox
      ensures True(after, e) && Wakes(after, e, me.request)
    {
      TruthKept(w.rows, after, events, mine, e);
      assert Evolves(w.rows[Subject(e).value], after[Subject(e).value]);
    }
    forall id | id in me.late
      ensures id in Ended(after)
    {
      assert Evolves(w.rows[id], after[id]);
    }
    if me.accepted.Some? {
      assert Evolves(w.rows[me.accepted.value], after[me.accepted.value]);
    }
  }

  lemma {:induction false} WaiterHearsKept(w: World, after: Table, events: seq<Event>, mine: Option<nat>, me: Waiter)
    requires WaiterOk(w, me) && Announced(w.rows, after, events, mine)
    ensures Listening(me) ==> forall id :: ForInvoice(after, id, me.request) && id !in me.late ==>
              NotMissed(Commit(w, after, events), me.inbox, id)
  {
    if Listening(me) {
      forall id: nat | ForInvoice(after, id, me.request) && id !in me.late
        ensures NotMissed(Commit(w, after, events), me.inbox, id)
      {
        if id < |w.rows| {
          assert Evolves(w.rows[id], after[id]);
          assert NotMissed(w, me.inbox, id);
        }
      }
    }
  }

  lemma {:induction false} AnnouncementsKept(w: World, after: Table, events: seq<Event>, mine: Option<nat>)
    requires AnnouncementsHold(w) && Announced(w.rows, after, events, mine)
    ensures AnnouncementsHold(Commit(w, after, events))
  {
    assert forall e :: e in Raised(Commit(w, after, events)) <==> e in Raised(w) || e in events;
    forall e | e in Raised(w)
      ensures True(after, e)
    {
      TruthKept(w.rows, after, events, mine, e);
    }
  }

  lemma {:induction false} CallsKept(before: Table, after: Table, calls: seq<HoldCall>)
    requires TableEvolves(before, after) && forall c :: 0 <= c < |calls| ==> CallOk(before, calls[c])
    ensures forall c :: 0 <= c < |calls| ==> CallOk(after, calls[c])
  {
    forall c | 0 <= c < |calls|
      ensures CallOk(after, calls[c])
    {
      assert CallOk(before, calls[c]);
      assert calls[c].Returned? || Evolves(before[calls[c].id], after[calls[c].id]);
    }
  }

  lemma {:induction false} CommitKeepsGood(s: System, after: Table, events: seq<Event>, mine: Option<nat>)
    requires Good(s) && Announced(s.w.rows, after, events, mine)
    ensures AnnouncementsHold(Commit(s.w, after, events))
    ensures forall c :: 0 <= c < |s.calls| ==> CallOk(after, s.calls[c])
    ensures forall k :: 0 <= k < |s.waiters| && Some(s.waiters[k].row) != mine ==>
              WaiterOk(Commit(s.w, after, events), s.waiters[k])
  {
    AnnouncementsKept(s.w, after, events, mine);
    CallsKept(s.w.rows, after, s.calls);
    forall k | 0 <= k < |s.waiters| && Some(s.waiters[k].row) != mine
      ensures WaiterOk(Commit(s.w, after, events), s.waiters[k])
    {
      WaiterKept(s.w, after, events, mine, s.waiters[k]);
    }
  }

  // ---------------------------------------------------------------- the transactions announce

  lemma {:induction false} GrowthAnnounced(rows: Table, after: Table)
    requires rows <= after && forall id :: |rows| <= id < |after| ==> after[id].state == Pending
    ensures Announced(rows, after, [], None)
  {
    GrowthEvolves(rows, after);
  }

  lemma {:induction false} SettleAnnounced(rows: Table, id: nat, preimage: string, feeMsat: nat, self: bool, now: int,
                                           mine: Option<nat>)
    requires id < |rows|
    requires if rows[id].kind == Incoming then rows[id].state != Failed else mine == Some(id) || !rows[id].selfPayment
    ensures var r := MarkTransactionSettled(rows, id, preimage, feeMsat, self, now); Announced(rows, r.rows, r.events, mine)
  {
    SettleEvolves(rows, id, preimage, feeMsat, self, now);
  }

  lemma {:induction false} CreateAnnounced(rows: Table, r: Row, preimage: string, feeMsat: nat, now: int)
    ensures var c := CreateSettledTransaction(rows, r, preimage, feeMsat, now); Announced(rows, c.rows, c.events, None)
  {
    GrowthEvolves(rows, CreateSettledTransaction(rows, r, preimage, feeMsat, now).rows);
  }

  lemma {:induction false} FailAnnounced(rows: Table, id: nat, mine: Option<nat>)
    requires id < |rows| ==> rows[id].kind == Outgoing && (mine == Some(id) || !rows[id].selfPayment)
    ensures var r := MarkPaymentFailed(rows, id); Announced(rows, r.rows, r.events, mine)
  {
    FailEvolves(rows, id);
  }

  lemma {:induction false} CancelAnnounced(rows: Table, id: nat)
    requires id < |rows| && rows[id].kind == Incoming && rows[id].state == Accepted
    ensures var r := MarkPaymentFailed(rows, id); Announced(rows, r.rows, r.events + [HoldInvoiceCanceled(id)], None)
  {
    FailEvolves(rows, id);
  }

  lemma {:induction false} AcceptAnnounced(rows: Table, request: string, hash: string, self: bool)
    ensures var r := MarkHoldInvoiceAccepted(rows, request, hash, self); Announced(rows, r.rows, r.events, None)
  {
    AcceptEvolves(rows, request, hash, self);
  }

  // ---------------------------------------------------------------- every move keeps the invariant

  // Any other step but the passing of time is a commit that announces what it ends.
  lemma {:induction false} ElsewhereAnnounced(setup: Setup, w: World, op: Op) returns (after: Table, events: seq<Event>)
    requires Truthful(w.rows, op) && !op.Tick?
    ensures Apply(setup, w, op) == Commit(w, after, events) && Announced(w.rows, after, events, None)
  {
    after, events := Apply(setup, w, op).rows, [];
    match op
    case Settle(id, preimage, fee, self) =>
      if id < |w.rows| {
        SettleAnnounced(w.rows, id, preimage, fee, self, w.now, None);
        events := MarkTransactionSettled(w.rows, id, preimage, fee, self, w.now).events;
      } else {
        GrowthAnnounced(w.rows, w.rows);
      }
    case Notify(_, _, _, _, _, preimage, fee) =>
      CreateAnnounced(w.rows, Notified(op, w.now), preimage, fee, w.now);
      events := CreateSettledTransaction(w.rows, Notified(op, w.now), preimage, fee, w.now).events;
    case Fail(id) =>
      FailAnnounced(w.rows, id, None);
      events := MarkPaymentFailed(w.rows, id).events;
    case Accept(request, hash, self) =>
      AcceptAnnounced(w.rows, request, hash, self);
      events := MarkHoldInvoiceAccepted(w.rows, request, hash, self).events;
    case Publish(_) =>
      assert false;
    case _ =>
      GrowthAnnounced(w.rows, after);
  }

  lemma {:induction false} ElsewhereKeepsGood(setup: Setup, s: System, op: Op)
    requires Good(s) && Truthful(s.w.rows, op)
    ensures Good(s.(w := Apply(setup, s.w, op)))
  {
    if op.Tick? {
      TickKeepsGood(s, Apply(setup, s.w, op));
    } else {
      var after, events := ElsewhereAnnounced(setup, s.w, op);
      CommitKeepsGood(s, after, events, None);
    }
  }

  lemma {:induction false} TickKeepsGood(s: System, w: World)
    requires Good(s) && w == s.w.(now := w.now)
    ensures Good(s.(w := w))
  {
    forall k | 0 <= k < |s.waiters|
      ensures WaiterOk(w, s.waiters[k])
    {
      assert WaiterOk(s.w, s.waiters[k]);
    }
  }

  // One waiter's own change, with or without a commit; the others only see the commit.
  lemma {:induction false} OneWaiterMoves(s: System, after: Table, events: seq<Event>, mine: Option<nat>, k: nat,
                                          me: Waiter)
    requires Good(s) && k < |s.waiters| && me.row == s.waiters[k].row
    requires Announced(s.w.rows, after, events, mine) && (mine == None || mine == Some(me.row))
    requires WaiterOk(Commit(s.w, after, events), me)
    ensures Good(s.(w := Commit(s.w, after, events), waiters := s.waiters[k := me]))
  {
    CommitKeepsGood(s, after, events, mine);
  }

  lemma {:induction false} MoveOnly(s: System, k: nat, me: Waiter)
    requires Good(s) && k < |s.waiters| && me.row == s.waiters[k].row && WaiterOk(s.w, me)
    ensures Good(Moved(s, k, me))
  {
  }

  lemma {:induction false} InterceptKeepsGood(s: System, row: nat)
    requires Good(s) && MayIntercept(s, row)
    ensures Good(s.(waiters := s.waiters + [Waiter(row, s.w.rows[row].paymentRequest, s.w.rows[row].paymentHash,
                                                   Entered, {}, {}, None)]))
  {
  }

  lemma {:induction false} AcceptKeepsGood(s: System, k: nat)
    requires Good(s) && k < |s.waiters| && s.waiters[k].stage == Ready
    ensures var r := MarkHoldInvoiceAccepted(s.w.rows, s.waiters[k].request, s.waiters[k].hash, true);
            Good(s.(w := Commit(s.w, r.rows, r.events),
                    waiters := s.waiters[k := s.waiters[k].(stage := Awaiting, accepted := r.accepted)]))
  {
    var me := s.waiters[k];
    var r := MarkHoldInvoiceAccepted(s.w.rows, me.request, me.hash, true);
    AcceptAnnounced(s.w.rows, me.request, me.hash, true);
    WaiterKept(s.w, r.rows, r.events, None, me);
    OneWaiterMoves(s, r.rows, r.events, None, k, me.(stage := Awaiting, accepted := r.accepted));
  }

  lemma {:induction false} FinishKeepsGood(setup: Setup, sha256: string -> string, s: System, k: nat)
    requires Good(s) && k < |s.waiters| && s.waiters[k].stage.Told?
    ensures Good(Step(setup, sha256, s, Finish(k)))
  {
    var me := s.waiters[k];
    assert WaiterOk(s.w, me);
    if me.stage.preimage.Some? {
      PaidFinishes(s, k);
    } else {
      FailedFinishes(s, k);
    }
  }

  lemma {:induction false} PaidFinishes(s: System, k: nat)
    requires Good(s) && k < |s.waiters| && s.waiters[k].stage.Told? && s.waiters[k].stage.preimage.Some?
    requires WaiterOk(s.w, s.waiters[k])
    ensures var me := s.waiters[k];
            var r := MarkTransactionSettled(s.w.rows, me.row, me.stage.preimage.value, 0, true, s.w.now);
            var done := me.(stage := Finished(me.stage.why, me.stage.preimage));
            Good(s.(w := Commit(s.w, r.rows, r.events), waiters := s.waiters[k := done]))
  {
    var me := s.waiters[k];
    var preimage := me.stage.preimage.value;
    var r := MarkTransactionSettled(s.w.rows, me.row, preimage, 0, true, s.w.now);
    var done := me.(stage := Finished(me.stage.why, me.stage.preimage));
    SettleAnnounced(s.w.rows, me.row, preimage, 0, true, s.w.now, Some(me.row));
    if preimage != "" {
      SettlingPaysFor(s.w.rows, me.row, preimage, s.w.now);
    }
    FinishedOk(s.w, r.rows, r.events, me, done);
    OneWaiterMoves(s, r.rows, r.events, Some(me.row), k, done);
  }

  lemma {:induction false} FailedFinishes(s: System, k: nat)
    requires Good(s) && k < |s.waiters| && s.waiters[k].stage.Told? && s.waiters[k].stage.preimage.None?
    requires WaiterOk(s.w, s.waiters[k])
    ensures var me := s.waiters[k];
            var r := MarkPaymentFailed(s.w.rows, me.row);
            var done := me.(stage := Finished(me.stage.why, None));
            Good(s.(w := Commit(s.w, r.rows, r.events), waiters := s.waiters[k := done]))
  {
    var me := s.waiters[k];
    var r := MarkPaymentFailed(s.w.rows, me.row);
    var done := me.(stage := Finished(me.stage.why, None));
    FailAnnounced(s.w.rows, me.row, Some(me.row));
    FinishedOk(s.w, r.rows, r.events, me, done);
    OneWaiterMoves(s, r.rows, r.events, Some(me.row), k, done);
  }

  lemma {:induction false} FinishedOk(w: World, after: Table, events: seq<Event>, me: Waiter, done: Waiter)
    requires WaiterOk(w, me) && me.stage.Told? && done == me.(stage := Finished(me.stage.why, me.stage.preimage))
    requires Announced(w.rows, after, events, Some(me.row))
    requires after[me.row].selfPayment
    requires after[me.row].state == Settled ==> me.stage.preimage.Some? && after[me.row].preimage == me.stage.preimage
    requires EndedAsTold(after, me.row, me.stage.preimage)
    ensures WaiterOk(Commit(w, after, events), done)
  {
    assert Evolves(w.rows[me.row], after[me.row]);
    WaiterBasicsKept(w, after, events, Some(me.row), me);
    JustifiedKept(w.rows, after, events, Some(me.row), me.request, me.stage.why, me.stage.preimage);
  }

  // `outbox` is what is left to publish once `e` has been delivered.
  lemma {:induction false} HeardOk(w: World, published: World, e: Event, me: Waiter)
    requires WaiterOk(w, me) && True(w.rows, e)
    requires published.rows == w.rows && published.outbox == w.outbox - multiset{e}
    ensures WaiterOk(published, Heard(w.rows, e, me))
  {
    var heard := Heard(w.rows, e, me);
    if Listening(me) {
      forall id: nat | ForInvoice(w.rows, id, me.request) && id !in me.late
        ensures NotMissed(published, heard.inbox, id)
      {
        assert NotMissed(w, me.inbox, id);
      }
    }
  }

  lemma {:induction false} DeliverKeepsGood(setup: Setup, sha256: string -> string, s: System, e: Event)
    requires Good(s) && e in s.w.outbox
    ensures Good(Step(setup, sha256, s, Deliver(e)))
  {
    PublishingKeepsAnnouncements(setup, s.w, e);
    HeardKeepsGood(s, Apply(setup, s.w, Publish(e)), e);
  }

  lemma {:induction false} PublishingKeepsAnnouncements(setup: Setup, w: World, e: Event)
    requires AnnouncementsHold(w) && e in w.outbox
    ensures AnnouncementsHold(Apply(setup, w, Publish(e))) && True(w.rows, e)
  {
    assert e in Raised(w);
    assert Raised(Apply(setup, w, Publish(e))) == Raised(w);
  }

  lemma {:induction false} HeardKeepsGood(s: System, w: World, e: Event)
    requires Good(s) && True(s.w.rows, e) && AnnouncementsHold(w)
    requires w.rows == s.w.rows && w.outbox == s.w.outbox - multiset{e}
    ensures Good(s.(w := w, waiters := seq(|s.waiters|, k requires 0 <= k < |s.waiters| => Heard(s.w.rows, e, s.waiters[k]))))
  {
    forall k | 0 <= k < |s.waiters|
      ensures WaiterOk(w, Heard(s.w.rows, e, s.waiters[k]))
    {
      HeardOk(s.w, w, e, s.waiters[k]);
    }
  }

  lemma {:induction false} FoundKeepsGood(s: System, call: HoldCall)
    requires Good(s) && CallOk(s.w.rows, call)
    ensures Good(s.(calls := s.calls + [call]))
  {
  }

  lemma {:induction false} FindKeepsGood(setup: Setup, sha256: string -> string, s: System, move: Move)
    requires Good(s) && (move.FindToSettle? || move.FindToCancel?)
    ensures Good(Step(setup, sha256, s, move))
  {
    var found := FindRow(s.w.rows, Incoming, Some(Accepted), "",
                         if move.FindToSettle? then sha256(move.preimage) else move.hash);
    if found.Some? {
      FoundKeepsGood(s, if move.FindToSettle? then Settling(found.value, move.preimage, s.w.rows[found.value].selfPayment)
                        else Cancelling(found.value));
    }
  }

  lemma {:induction false} CommitOfCall(s: System, c: nat, after: Table, events: seq<Event>)
    requires Good(s) && c < |s.calls| && Announced(s.w.rows, after, events, None)
    ensures Good(s.(w := Commit(s.w, after, events), calls := s.calls[c := Returned]))
  {
    CommitKeepsGood(s, after, events, None);
  }

  lemma {:induction false} CancelMarkKeepsGood(s: System, c: nat)
    requires Good(s) && c < |s.calls| && s.calls[c].Cancelling?
    ensures Good(Marked(s, c))
  {
    var id := s.calls[c].id;
    assert CallOk(s.w.rows, s.calls[c]);
    var r := MarkPaymentFailed(s.w.rows, id);
    if r.outcome.FailedNow? {
      CancelAnnounced(s.w.rows, id);
      CommitOfCall(s, c, r.rows, r.events + [HoldInvoiceCanceled(id)]);
    } else {
      GrowthAnnounced(s.w.rows, s.w.rows);
      CommitOfCall(s, c, s.w.rows, []);
    }
  }

  /**
    The mark of a settle call keeps payers, invoices and announcements in agreement exactly when it does not settle a
    cancelled row.
   */
  lemma {:induction false} SettleMarkKeepsGoodIff(s: System, c: nat)
    requires Good(s) && c < |s.calls| && s.calls[c].Settling?
    ensures Good(Marked(s, c)) <==> !Spoils(s, Mark(c))
  {
    var Settling(id, preimage, self) := s.calls[c];
    assert CallOk(s.w.rows, s.calls[c]);
    var rows := s.w.rows;
    var r := MarkTransactionSettled(rows, id, preimage, 0, self, s.w.now);
    if Spoils(s, Mark(c)) {
      var e := HoldInvoiceCanceled(id);
      assert e in Raised(s.w);
      assert e in Raised(Marked(s, c).w) && !True(r.rows, e);
    } else if rows[id].state == Failed {
      assert r.rows == rows && r.events == [];
      GrowthAnnounced(rows, rows);
      CommitOfCall(s, c, rows, []);
    } else {
      SettleAnnounced(rows, id, preimage, 0, self, s.w.now, None);
      CommitOfCall(s, c, r.rows, r.events);
    }
  }

  lemma {:induction false} SubscribeKeepsGood(s: System, k: nat)
    requires Good(s) && k < |s.waiters| && s.waiters[k].stage == Entered
    ensures Good(Moved(s, k, s.waiters[k].(stage := Subscribed, late := Ended(s.w.rows))))
  {
    assert WaiterOk(s.w, s.waiters[k]);
    MoveOnly(s, k, s.waiters[k].(stage := Subscribed, late := Ended(s.w.rows)));
  }

  lemma {:induction false} WaiterStepKeepsGood(setup: Setup, sha256: string -> string, s: System, move: Move)
    requires Good(s) && (move.Subscribe? || move.NodeInfo? || move.MarkAccepted? || move.Receive? || move.Finish?)
    requires Step(setup, sha256, s, move) != s
    ensures Good(Step(setup, sha256, s, move))
  {
    match move
    case Subscribe(k) => SubscribeKeepsGood(s, k);
    case NodeInfo(k, available) =>
      assert WaiterOk(s.w, s.waiters[k]);
      MoveOnly(s, k, s.waiters[k].(stage := if available then Ready else Told(None, None)));
    case MarkAccepted(k) => AcceptKeepsGood(s, k);
    case Receive(k, e) =>
      assert WaiterOk(s.w, s.waiters[k]);
      MoveOnly(s, k, s.waiters[k].(stage := Told(Some(e), if e.PaymentReceived? then s.w.rows[e.id].preimage else None)));
    case Finish(k) => FinishKeepsGood(setup, sha256, s, k);
    case _ => assert false;
  }

  lemma {:induction false} MarkKeepsGood(s: System, c: nat)
    requires Good(s) && c < |s.calls| && !Spoils(s, Mark(c))
    ensures Good(Marked(s, c))
  {
    match s.calls[c]
    case Settling(_, _, _) => SettleMarkKeepsGoodIff(s, c);
    case Cancelling(_) => CancelMarkKeepsGood(s, c);
    case Returned =>
  }

  lemma {:induction false} StepKeepsGood(setup: Setup, sha256: string -> string, s: System, move: Move)
    requires Good(s) && !Spoils(s, move)
    requires move.Elsewhere? ==> Truthful(s.w.rows, move.op)
    ensures Good(Step(setup, sha256, s, move))
  {
    if Step(setup, sha256, s, move) == s {
      return;
    }
    match move
    case Intercept(row) => InterceptKeepsGood(s, row);
    case FindToSettle(_) => FindKeepsGood(setup, sha256, s, move);
    case FindToCancel(_) => FindKeepsGood(setup, sha256, s, move);
    case Mark(c) => MarkKeepsGood(s, c);
    case Deliver(e) => DeliverKeepsGood(setup, sha256, s, e);
    case Elsewhere(op) => ElsewhereKeepsGood(setup, s, op);
    case _ => WaiterStepKeepsGood(setup, sha256, s, move);
  }

  /**
    Of all steps exactly one breaks the agreement: a settle call that settles a row cancelled since it was looked up.
   */
  lemma {:induction false} StepKeepsGoodIff(setup: Setup, sha256: string -> string, s: System, move: Move)
    requires Good(s)
    requires move.Elsewhere? ==> Truthful(s.w.rows, move.op)
    ensures Good(Step(setup, sha256, s, move)) <==> !Spoils(s, move)
  {
    if Spoils(s, move) {
      SettleMarkKeepsGoodIff(s, move.call);
      assert Step(setup, sha256, s, move) == Marked(s, move.call);
    } else {
      StepKeepsGood(setup, sha256, s, move);
    }
  }

  lemma {:induction false} PlayStaysGood(setup: Setup, sha256: string -> string, s: System, moves: seq<Move>)
    requires Good(s) && TruthfulPlay(setup, sha256, s, moves) && NothingSpoilt(setup, sha256, s, moves)
    ensures Good(Play(setup, sha256, s, moves))
  {
    if moves == [] {
    } else {
      var init := moves[..|moves| - 1];
      assert forall i :: 0 <= i < |init| ==> init[..i] == moves[..i];
      PlayStaysGood(setup, sha256, s, init);
      StepKeepsGood(setup, sha256, Play(setup, sha256, s, init), moves[|moves| - 1]);
    }
  }

  // ---------------------------------------------------------------- what payers and payees agree on

  ghost predicate InvoiceSettledWith(rows: Table, request: string, preimage: Option<string>) {
    exists id :: 0 <= id < |rows| && rows[id].kind == Incoming && rows[id].paymentRequest == request
                 && rows[id].state == Settled && rows[id].preimage == preimage
  }

  ghost predicate InvoiceCancelled(rows: Table, request: string) {
    exists id :: 0 <= id < |rows| && rows[id].kind == Incoming && rows[id].paymentRequest == request && rows[id].state == Failed
  }

  // A payer's row is settled only if the invoice's row is settled with the same preimage;
  // a payer that reports a cancellation has failed, as has the invoice; and a payer told
  // that the invoice was settled, with a preimage, has paid for it.
  ghost predicate Agreement(rows: Table, me: Waiter) {
    && me.row < |rows|
    && (rows[me.row].state == Settled ==> InvoiceSettledWith(rows, me.request, rows[me.row].preimage))
    && (me.stage.Finished? && me.stage.why.Some? && me.stage.why.value.HoldInvoiceCanceled? ==>
          rows[me.row].state == Failed && InvoiceCancelled(rows, me.request))
    && (me.stage.Finished? && me.stage.preimage.Some? && me.stage.preimage.value != "" ==>
          PaidFor(rows, me.row) && InvoiceSettledWith(rows, me.request, me.stage.preimage))
  }

  /**
    From an empty ledger, after any interleaving in which no settle call marks a cancelled row, payers and payees
    agree.
   */
  lemma {:induction false} PayerAndPayeeAgree(setup: Setup, sha256: string -> string, moves: seq<Move>, k: nat)
    requires TruthfulPlay(setup, sha256, START, moves) && NothingSpoilt(setup, sha256, START, moves)
    requires k < |Play(setup, sha256, START, moves).waiters|
    ensures var end := Play(setup, sha256, START, moves); Agreement(end.w.rows, end.waiters[k])
  {
    PlayStaysGood(setup, sha256, START, moves);
    var end := Play(setup, sha256, START, moves);
    assert WaiterOk(end.w, end.waiters[k]);
  }

  // Each settle or cancel call is one step: what it finds it marks at once.
  ghost predicate CallsUnbroken(setup: Setup, sha256: string -> string, s: System, moves: seq<Move>) {
    forall i :: 0 <= i < |moves| && moves[i].Mark? ==>
      && i > 0 && (moves[i - 1].FindToSettle? || moves[i - 1].FindToCancel?)
      && var before := Play(setup, sha256, s, moves[..i - 1]);
         moves[i].call == |before.calls|
  }

  // What has just been found is still accepted.
  lemma {:induction false} JustFoundIsAccepted(setup: Setup, sha256: string -> string, s: System, find: Move)
    requires find.FindToSettle? || find.FindToCancel?
    ensures !Spoils(Step(setup, sha256, s, find), Mark(|s.calls|))
  {
  }

  /**
    Calls that are one step each never mark a cancelled row, so with them payers and payees agree in every
    interleaving.
   */
  lemma {:induction false} UnbrokenCallsSpoilNothing(setup: Setup, sha256: string -> string, s: System,
                                                     moves: seq<Move>)
    requires CallsUnbroken(setup, sha256, s, moves)
    ensures NothingSpoilt(setup, sha256, s, moves)
  {
    forall i | 0 <= i < |moves|
      ensures !Spoils(Play(setup, sha256, s, moves[..i]), moves[i])
    {
      if moves[i].Mark? {
        var before := Play(setup, sha256, s, moves[..i - 1]);
        assert moves[..i][..i - 1] == moves[..i - 1];
        assert Play(setup, sha256, s, moves[..i]) == Step(setup, sha256, before, moves[i - 1]);
        JustFoundIsAccepted(setup, sha256, before, moves[i - 1]);
        assert moves[i] == Mark(|before.calls|);
      }
    }
  }

  /**
    A payer that has subscribed misses no ending of an invoice that had not ended by then, whoever
    accepted it: once nothing is left to publish, the update is in its inbox.
   */
  lemma {:induction false} TerminalUpdateNotMissed(setup: Setup, sha256: string -> string, moves: seq<Move>, k: nat,
                                                   id: nat)
    requires TruthfulPlay(setup, sha256, START, moves) && NothingSpoilt(setup, sha256, START, moves)
    requires var end := Play(setup, sha256, START, moves);
             && k < |end.waiters| && Listening(end.waiters[k]) && end.w.outbox == multiset{}
             && ForInvoice(end.w.rows, id, end.waiters[k].request) && id !in end.waiters[k].late
    ensures var end := Play(setup, sha256, START, moves);
            && (end.w.rows[id].state == Settled ==> PaymentReceived(id) in end.waiters[k].inbox)
            && (end.w.rows[id].state == Failed ==> HoldInvoiceCanceled(id) in end.waiters[k].inbox)
  {
    PlayStaysGood(setup, sha256, START, moves);
    var end := Play(setup, sha256, START, moves);
    assert WaiterOk(end.w, end.waiters[k]);
    assert NotMissed(end.w, end.waiters[k].inbox, id);
  }

  /**
    A cancel call that slips between the two halves of a settle call: the cancelled row stays failed
    exactly when the settle call has no preimage or the invoice is settled by another row.
   */
  lemma {:induction false} OverlappingCallsAgreeIff(rows: Table, id: nat, preimage: string, self: bool, now: int)
    requires id < |rows| && rows[id].kind == Incoming && rows[id].state == Accepted
    ensures var cancelled := MarkPaymentFailed(rows, id);
            && cancelled.outcome == FailedNow
            && (MarkTransactionSettled(cancelled.rows, id, preimage, 0, self, now).rows[id].state == Failed
                <==> preimage == "" || FindSettled(rows, rows[id]).Some?)
  {
    var after := MarkPaymentFailed(rows, id).rows;
    var r := rows[id];
    forall other | 0 <= other < |rows|
      ensures Matches(after[other], r.kind, Some(Settled), r.paymentRequest, r.paymentHash)
              <==> Matches(rows[other], r.kind, Some(Settled), r.paymentRequest, r.paymentHash)
    {
    }
    var a, b := FindSettled(rows, r), FindSettled(after, after[id]);
    assert a.Some? <==> b.Some?;
  }

  // ---------------------------------------------------------------- payers that are not disturbed

  /** A payer told that its invoice was settled settles its payment with the invoice's preimage. */
  lemma {:induction false} SettledPayerSettles(setup: Setup, sha256: string -> string, s: System, k: nat, id: nat)
    requires k < |s.waiters| && s.waiters[k].stage == Awaiting && PaymentReceived(id) in s.waiters[k].inbox
    requires s.waiters[k].row < |s.w.rows| && NoTwinSettled(s.w.rows, s.w.rows[s.waiters[k].row])
    requires id < |s.w.rows| && s.w.rows[id].preimage.Some? && s.w.rows[id].preimage.value != ""
    ensures var t := Step(setup, sha256, Step(setup, sha256, s, Receive(k, PaymentReceived(id))), Finish(k));
            var row, preimage := s.waiters[k].row, s.w.rows[id].preimage;
            && OnlySettles(s.w.rows, t.w.rows, row, preimage.value, 0, true, s.w.now)
            && t.w.outbox == s.w.outbox + multiset{if s.w.rows[row].kind == Incoming then PaymentReceived(row) else PaymentSent(row)}
            && t.waiters == s.waiters[k := s.waiters[k].(stage := Finished(Some(PaymentReceived(id)), preimage))]
  {
    var row := s.waiters[k].row;
    SettlingMeans(s.w.rows, row, s.w.rows[id].preimage.value, 0, true, s.w.now);
  }

  // The payer's payment has failed and its call is over.
  predicate FailedAndFinished(s: System, t: System, k: nat, why: Option<Event>)
    requires k < |s.waiters| && s.waiters[k].row < |s.w.rows|
  {
    var row := s.waiters[k].row;
    && t.w.rows == s.w.rows[row := s.w.rows[row].(state := Failed, feeReserveMsat := 0)]
    && t.w.outbox == s.w.outbox + multiset{PaymentFailed(row)}
    && t.waiters == s.waiters[k := s.waiters[k].(stage := Finished(why, None))]
  }

  /** A payer told that its invoice was cancelled fails its payment. */
  lemma {:induction false} CancelledPayerFails(setup: Setup, sha256: string -> string, s: System, k: nat, id: nat)
    requires k < |s.waiters| && s.waiters[k].row < |s.w.rows| && s.w.rows[s.waiters[k].row].state == Pending
    requires s.waiters[k].stage == Awaiting && HoldInvoiceCanceled(id) in s.waiters[k].inbox && id < |s.w.rows|
    ensures var told := Step(setup, sha256, s, Receive(k, HoldInvoiceCanceled(id)));
            FailedAndFinished(s, Step(setup, sha256, told, Finish(k)), k, Some(HoldInvoiceCanceled(id)))
  {
    FailingMeans(s.w.rows, s.waiters[k].row);
  }

  /** So does one that cannot learn the block height. */
  lemma {:induction false} UninformedPayerFails(setup: Setup, sha256: string -> string, s: System, k: nat)
    requires k < |s.waiters| && s.waiters[k].row < |s.w.rows| && s.w.rows[s.waiters[k].row].state == Pending
    requires s.waiters[k].stage == Subscribed
    ensures var told := Step(setup, sha256, s, NodeInfo(k, false));
            FailedAndFinished(s, Step(setup, sha256, told, Finish(k)), k, None)
  {
    FailingMeans(s.w.rows, s.waiters[k].row);
  }
}
