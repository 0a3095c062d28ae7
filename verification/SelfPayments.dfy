/**
  Self-paying calls, interleaved with each other, with the two halves of calls that settle hold
  invoices, and with other traffic: balances never add up to more than was received from outside,
  as long as no settle call marks a row that was cancelled since it was looked up.
 */
module SelfPayments {
  import opened Wrappers
  import opened Ledger
  import opened LedgerSteps
  import opened LedgerRuns
  import opened SelfPaymentCalls

  // A call of SettleHoldInvoice that has found an accepted row.
  datatype Lookup = Lookup(id: nat, preimage: string, self: bool)

  // `failed` collects the rows that have ever failed, so whose cancellation may be announced.
  datatype Node = Node(s: System, lookups: seq<Lookup>, failed: set<nat>)

  datatype Move =
    | Advance(k: nat)
    // the node's block height is not to be had
    | GiveUp(k: nat)
    // an update about row `id` wakes the call
    | Wake(k: nat, id: nat, cancelled: bool)
    | FindToSettle(hash: string, preimage: string)
    | MarkSettled(j: nat)
    | Elsewhere(op: Op)

  function FailedRows(rows: Table): set<nat> {
    set id | 0 <= id < |rows| && rows[id].state == Failed
  }

  ghost function Changed(setup: Setup, n: Node, move: Move): Node {
    var s := n.s;
    match move
    case Elsewhere(op) => n.(s := s.(w := Apply(setup, s.w, op)))
    case Advance(k) => if k < |s.calls| then n.(s := Advanced(setup, s, k)) else n
    case GiveUp(k) =>
      if k < |s.calls| && s.calls[k].stage.Waiting?
      then n.(s := s.(calls := s.calls[k := s.calls[k].(stage := Missed(s.calls[k].stage.row))]))
      else n
    case Wake(k, id, cancelled) =>
      if k < |s.calls| && MayWake(s.w.rows, s.calls[k], id, cancelled) && (cancelled ==> id in n.failed)
      then n.(s := Woken(s, k, id, cancelled))
      else n
    case FindToSettle(hash, preimage) =>
      var found := FindRow(s.w.rows, Incoming, Some(Accepted), "", hash);
      if found.None? then n
      else n.(lookups := n.lookups + [Lookup(found.value, preimage, s.w.rows[found.value].selfPayment)])
    case MarkSettled(j) =>
      if j < |n.lookups| && n.lookups[j].id < |s.w.rows|
      then n.(s := HoldSettled(s, n.lookups[j].id, n.lookups[j].preimage, n.lookups[j].self))
      else n
  }

  ghost function Step(setup: Setup, n: Node, move: Move): Node {
    var n' := Changed(setup, n, move);
    n'.(failed := n.failed + FailedRows(n'.s.w.rows))
  }

  ghost function Play(setup: Setup, n: Node, moves: seq<Move>): Node {
    if moves == [] then n
    else Step(setup, Play(setup, n, moves[..|moves| - 1]), moves[|moves| - 1])
  }

  function Start(calls: seq<Call>): Node {
    Node(System(EMPTY, calls, {}), [], {})
  }

  // ---------------------------------------------------------------- the environment

  ghost predicate TruthfulPlay(setup: Setup, decode: string -> Option<Bolt11>, n: Node, moves: seq<Move>) {
    forall i :: 0 <= i < |moves| && moves[i].Elsewhere? ==>
      Truthful(decode, Play(setup, n, moves[..i]).s.w.rows, moves[i].op)
  }

  // A settle call marks a row accepted by a payer of this node that has failed since it was looked up.
  predicate Spoils(n: Node, move: Move) {
    && move.MarkSettled? && move.j < |n.lookups|
    && var l := n.lookups[move.j];
       && l.id < |n.s.w.rows| && l.self && n.s.w.rows[l.id].state == Failed
       && l.preimage != "" && FindSettled(n.s.w.rows, n.s.w.rows[l.id]).None?
  }

  ghost predicate NothingSpoilt(setup: Setup, n: Node, moves: seq<Move>) {
    forall i :: 0 <= i < |moves| ==> !Spoils(Play(setup, n, moves[..i]), moves[i])
  }

  // ---------------------------------------------------------------- the invariant

  predicate SelfPaid(r: Row) {
    IsReceipt(r) && r.selfPayment
  }

  // A row that has failed stays so or is settled later, but a hold invoice never by a payer of this node.
  ghost predicate FailedOk(rows: Table, failed: set<nat>) {
    && FailedRows(rows) <= failed
    && forall id :: id in failed ==>
         && id < |rows|
         && (rows[id].state == Failed || rows[id].state == Settled)
         && !(rows[id].hold && SelfPaid(rows[id]))
  }

  // What a settle call has found accepted has not gone back, and is as it was while it is accepted.
  predicate LookupOk(rows: Table, l: Lookup) {
    && l.id < |rows| && rows[l.id].kind == Incoming && rows[l.id].state != Pending
    && (rows[l.id].state == Accepted ==> rows[l.id].selfPayment == l.self)
    && (l.self ==> rows[l.id].hold)
  }

  // A payment that has been credited waits for a row that has never failed.
  predicate CreditedNotFailed(calls: seq<Call>, credited: set<nat>, failed: set<nat>) {
    forall k :: 0 <= k < |calls| && calls[k].stage.Parked? && calls[k].stage.row in credited && calls[k].stage.accepted.Some? ==>
      calls[k].stage.accepted.value !in failed
  }

  ghost predicate Sound(decode: string -> Option<Bolt11>, n: Node) {
    && Good(decode, n.s)
    && FailedOk(n.s.w.rows, n.failed)
    && (forall j :: 0 <= j < |n.lookups| ==> LookupOk(n.s.w.rows, n.lookups[j]))
    && CreditedNotFailed(n.s.calls, n.s.credited, n.failed)
  }

  // A change of rows in which accepted rows stay as they are, and no failed hold invoice is settled by a payer of
  // this node.
  predicate Tame(rows: Table, rows': Table) {
    && TableEvolves(rows, rows')
    && forall id :: 0 <= id < |rows| ==> TameRow(rows[id], rows'[id])
  }

  predicate TameRow(r: Row, r': Row) {
    && (r'.state == Accepted && r.state != Pending ==> r' == r)
    && (SelfPaid(r') && !SelfPaid(r) ==> !r.hold || r.state != Failed)
  }

  lemma {:induction false} UpdateIsTame(rows: Table, id: nat, r: Row)
    requires id < |rows| && Evolves(rows[id], r) && TameRow(rows[id], r)
    ensures Tame(rows, rows[id := r])
  {
    UpdateEvolves(rows, id, r);
  }

  lemma {:induction false} GrowthIsTame(rows: Table, rows': Table)
    requires rows <= rows'
    ensures Tame(rows, rows')
  {
    GrowthEvolves(rows, rows');
  }

  lemma {:induction false} SettlingIsTame(rows: Table, id: nat, preimage: string, feeMsat: nat, self: bool, now: int)
    requires id < |rows| && (self && rows[id].hold && rows[id].kind == Incoming ==> rows[id].state != Failed)
    ensures Tame(rows, MarkTransactionSettled(rows, id, preimage, feeMsat, self, now).rows)
  {
    SettleEvolves(rows, id, preimage, feeMsat, self, now);
    var rows' := MarkTransactionSettled(rows, id, preimage, feeMsat, self, now).rows;
    forall other | 0 <= other < |rows|
      ensures TameRow(rows[other], rows'[other])
    {
    }
  }

  lemma {:induction false} AcceptingIsTame(rows: Table, request: string, hash: string, self: bool)
    ensures Tame(rows, MarkHoldInvoiceAccepted(rows, request, hash, self).rows)
  {
    AcceptEvolves(rows, request, hash, self);
  }

  lemma {:induction false} FailingIsTame(rows: Table, id: nat)
    ensures Tame(rows, MarkPaymentFailed(rows, id).rows)
  {
    FailEvolves(rows, id);
  }

  lemma {:induction false} ElsewhereIsTame(setup: Setup, decode: string -> Option<Bolt11>, w: World, op: Op)
    requires Truthful(decode, w.rows, op)
    ensures Tame(w.rows, Apply(setup, w, op).rows)
  {
    match op
    case Settle(id, preimage, fee, self) =>
      if id < |w.rows| {
        SettlingIsTame(w.rows, id, preimage, fee, self, w.now);
      } else {
        GrowthIsTame(w.rows, w.rows);
      }
    case Fail(id) => FailingIsTame(w.rows, id);
    case Accept(request, hash, self) => AcceptingIsTame(w.rows, request, hash, self);
    case _ => GrowthIsTame(w.rows, Apply(setup, w, op).rows);
  }

  lemma {:induction false} AdvancingIsTame(setup: Setup, decode: string -> Option<Bolt11>, s: System, k: nat)
    requires Good(decode, s) && k < |s.calls|
    ensures Tame(s.w.rows, Advanced(setup, s, k).w.rows)
  {
    var rows, me := s.w.rows, s.calls[k];
    assert StageOk(rows, s.credited, me);
    match me.stage
    case Found(row, invoice, preimage) =>
      if preimage.Some? {
        SettlingIsTame(rows, invoice, preimage.value, 0, true, s.w.now);
      } else {
        GrowthIsTame(rows, rows);
      }
    case Waiting(row, _) => AcceptingIsTame(rows, me.request, me.hash, true);
    case Missed(row) => FailingIsTame(rows, row);
    case Delivered(row, proof) => SettlingIsTame(rows, row, proof, 0, true, s.w.now);
    case _ => GrowthIsTame(rows, Advanced(setup, s, k).w.rows);
  }

  // ---------------------------------------------------------------- every step keeps the invariant

  lemma {:induction false} FailedKept(rows: Table, rows': Table, failed: set<nat>)
    requires FailedOk(rows, failed) && Tame(rows, rows')
    requires forall id :: 0 <= id < |rows'| && id !in failed && rows'[id].state == Failed ==> !SelfPaid(rows'[id])
    ensures FailedOk(rows', failed + FailedRows(rows'))
  {
    forall id | id in failed
      ensures id < |rows'| && (rows'[id].state == Failed || rows'[id].state == Settled)
      ensures !(rows'[id].hold && SelfPaid(rows'[id]))
    {
      assert Evolves(rows[id], rows'[id]) && TameRow(rows[id], rows'[id]);
    }
  }

  lemma {:induction false} LookupsKept(rows: Table, rows': Table, lookups: seq<Lookup>)
    requires Tame(rows, rows') && forall j :: 0 <= j < |lookups| ==> LookupOk(rows, lookups[j])
    ensures forall j :: 0 <= j < |lookups| ==> LookupOk(rows', lookups[j])
  {
    forall j | 0 <= j < |lookups|
      ensures LookupOk(rows', lookups[j])
    {
      assert LookupOk(rows, lookups[j]);
      assert Evolves(rows[lookups[j].id], rows'[lookups[j].id]) && TameRow(rows[lookups[j].id], rows'[lookups[j].id]);
    }
  }

  // A credited payment's row is settled, so it is not among those that fail now.
  lemma {:induction false} CreditedKept(decode: string -> Option<Bolt11>, s: System, failed: set<nat>)
    requires Good(decode, s) && CreditedNotFailed(s.calls, s.credited, failed)
    ensures CreditedNotFailed(s.calls, s.credited, failed + FailedRows(s.w.rows))
  {
    forall k | 0 <= k < |s.calls| && s.calls[k].stage.Parked? && s.calls[k].stage.row in s.credited && s.calls[k].stage.accepted.Some?
      ensures s.calls[k].stage.accepted.value !in failed + FailedRows(s.w.rows)
    {
      assert StageOk(s.w.rows, s.credited, s.calls[k]);
    }
  }

  lemma {:induction false} NotedIsSound(decode: string -> Option<Bolt11>, n: Node, n': Node)
    requires Sound(decode, n) && Good(decode, n'.s) && Tame(n.s.w.rows, n'.s.w.rows)
    requires n'.lookups == n.lookups && n'.failed == n.failed
    requires CreditedNotFailed(n'.s.calls, n'.s.credited, n.failed)
    ensures Sound(decode, n'.(failed := n.failed + FailedRows(n'.s.w.rows)))
  {
    FailedKept(n.s.w.rows, n'.s.w.rows, n.failed);
    LookupsKept(n.s.w.rows, n'.s.w.rows, n.lookups);
    CreditedKept(decode, n'.s, n.failed);
  }

  // A call that moves on credits at most its own payment, and is then no longer waiting.
  lemma {:induction false} AdvancingCredits(setup: Setup, decode: string -> Option<Bolt11>, s: System, k: nat,
                                            failed: set<nat>)
    requires Good(decode, s) && k < |s.calls| && CreditedNotFailed(s.calls, s.credited, failed)
    ensures var t := Advanced(setup, s, k); CreditedNotFailed(t.calls, t.credited, failed)
  {
    var t := Advanced(setup, s, k);
    assert StageOk(s.w.rows, s.credited, s.calls[k]);
    forall l | 0 <= l < |t.calls| && t.calls[l].stage.Parked? && t.calls[l].stage.row in t.credited && t.calls[l].stage.accepted.Some?
      ensures t.calls[l].stage.accepted.value !in failed
    {
      if l != k {
        assert t.calls[l] == s.calls[l] && RowOf(s.calls[l].stage) != RowOf(s.calls[k].stage);
      }
    }
  }

  lemma {:induction false} AdvanceKeepsSound(setup: Setup, decode: string -> Option<Bolt11>, n: Node, k: nat)
    requires Sound(decode, n) && k < |n.s.calls|
    ensures Sound(decode, Step(setup, n, Advance(k)))
  {
    AdvanceKeepsGood(setup, decode, n.s, k);
    AdvancingIsTame(setup, decode, n.s, k);
    AdvancingCredits(setup, decode, n.s, k, n.failed);
    NotedIsSound(decode, n, Changed(setup, n, Advance(k)));
  }

  lemma {:induction false} ElsewhereKeepsSound(setup: Setup, decode: string -> Option<Bolt11>, n: Node, op: Op)
    requires Sound(decode, n) && Truthful(decode, n.s.w.rows, op)
    ensures Sound(decode, Step(setup, n, Elsewhere(op)))
  {
    ElsewhereKeepsGood(setup, decode, n.s, op);
    ElsewhereIsTame(setup, decode, n.s.w, op);
    NotedIsSound(decode, n, Changed(setup, n, Elsewhere(op)));
  }

  lemma {:induction false} GiveUpKeepsSound(setup: Setup, decode: string -> Option<Bolt11>, n: Node, k: nat)
    requires Sound(decode, n) && k < |n.s.calls| && n.s.calls[k].stage.Waiting?
    ensures Sound(decode, Step(setup, n, GiveUp(k)))
  {
    assert StageOk(n.s.w.rows, n.s.credited, n.s.calls[k]);
    OnlyStageMoves(decode, n.s, k, Missed(n.s.calls[k].stage.row));
    GrowthIsTame(n.s.w.rows, n.s.w.rows);
    NotedIsSound(decode, n, Changed(setup, n, GiveUp(k)));
  }

  lemma {:induction false} WakeKeepsSound(setup: Setup, decode: string -> Option<Bolt11>, n: Node, k: nat, id: nat,
                                          cancelled: bool)
    requires Sound(decode, n) && k < |n.s.calls| && MayWake(n.s.w.rows, n.s.calls[k], id, cancelled)
    requires cancelled ==> id in n.failed
    ensures Sound(decode, Step(setup, n, Wake(k, id, cancelled)))
  {
    WakeKeepsGood(decode, n.s, k, id, cancelled);
    GrowthIsTame(n.s.w.rows, n.s.w.rows);
    NotedIsSound(decode, n, Changed(setup, n, Wake(k, id, cancelled)));
  }

  lemma {:induction false} FindKeepsSound(setup: Setup, decode: string -> Option<Bolt11>, n: Node, hash: string,
                                          preimage: string)
    requires Sound(decode, n)
    ensures Sound(decode, Step(setup, n, FindToSettle(hash, preimage)))
  {
    var rows := n.s.w.rows;
    GrowthIsTame(rows, rows);
    FailedKept(rows, rows, n.failed);
    CreditedKept(decode, n.s, n.failed);
    var found := FindRow(rows, Incoming, Some(Accepted), "", hash);
    if found.Some? && rows[found.value].selfPayment {
      assert SelfAccepted(rows[found.value]) && Backed(n.s.calls, n.s.credited, found.value);
      var k :| 0 <= k < |n.s.calls| && Backs(n.s.calls[k], found.value, n.s.credited);
      assert StageOk(rows, n.s.credited, n.s.calls[k]);
    }
  }

  lemma {:induction false} MarkOfNothing(setup: Setup, decode: string -> Option<Bolt11>, n: Node, j: nat)
    requires Sound(decode, n) && j < |n.lookups| && LookupOk(n.s.w.rows, n.lookups[j])
    requires var l := n.lookups[j];
             !MarkTransactionSettled(n.s.w.rows, l.id, l.preimage, 0, l.self, n.s.w.now).outcome.SettledNow?
    ensures Sound(decode, Step(setup, n, MarkSettled(j)))
  {
    GrowthIsTame(n.s.w.rows, n.s.w.rows);
    var n' := Changed(setup, n, MarkSettled(j));
    assert n'.s == n.s.(w := n'.s.w) && n'.s.w.rows == n.s.w.rows;
    NotedIsSound(decode, n, n');
  }

  lemma {:induction false} MarkOfFailed(setup: Setup, decode: string -> Option<Bolt11>, n: Node, j: nat)
    requires Sound(decode, n) && j < |n.lookups| && LookupOk(n.s.w.rows, n.lookups[j])
    requires n.s.w.rows[n.lookups[j].id].state == Failed && !n.lookups[j].self
    requires var l := n.lookups[j];
             MarkTransactionSettled(n.s.w.rows, l.id, l.preimage, 0, l.self, n.s.w.now).outcome.SettledNow?
    ensures Sound(decode, Step(setup, n, MarkSettled(j)))
  {
    var l, rows := n.lookups[j], n.s.w.rows;
    var r := MarkTransactionSettled(rows, l.id, l.preimage, 0, false, n.s.w.now);
    SettleEvolves(rows, l.id, l.preimage, 0, false, n.s.w.now);
    SettlingIsTame(rows, l.id, l.preimage, 0, false, n.s.w.now);
    UnbackedSettles(decode, n.s, l.id, r.rows[l.id], r.events);
    var n' := Changed(setup, n, MarkSettled(j));
    assert n'.s == n.s.(w := Commit(n.s.w, rows[l.id := r.rows[l.id]], r.events));
    NotedIsSound(decode, n, n');
  }

  lemma {:induction false} MarkOfAccepted(setup: Setup, decode: string -> Option<Bolt11>, n: Node, j: nat)
    requires Sound(decode, n) && j < |n.lookups| && LookupOk(n.s.w.rows, n.lookups[j])
    requires n.s.w.rows[n.lookups[j].id].state == Accepted
    ensures Sound(decode, Step(setup, n, MarkSettled(j)))
  {
    var l, rows := n.lookups[j], n.s.w.rows;
    HoldSettledKeepsGood(decode, n.s, l.id, l.preimage);
    SettlingIsTame(rows, l.id, l.preimage, 0, l.self, n.s.w.now);
    var n' := Changed(setup, n, MarkSettled(j));
    assert n'.s == HoldSettled(n.s, l.id, l.preimage, l.self);
    HoldCredits(decode, n.s, l.id, l.preimage, l.self, n.failed);
    NotedIsSound(decode, n, n');
  }

  // The payment that is credited waits for the very row that is settled, which has not failed.
  lemma {:induction false} HoldCredits(decode: string -> Option<Bolt11>, s: System, id: nat, preimage: string,
                                       self: bool, failed: set<nat>)
    requires Good(decode, s) && id < |s.w.rows| && id !in failed && CreditedNotFailed(s.calls, s.credited, failed)
    ensures var t := HoldSettled(s, id, preimage, self); CreditedNotFailed(t.calls, t.credited, failed)
  {
    var t := HoldSettled(s, id, preimage, self);
    if t.credited != s.credited {
      var b := Backer(s, id);
      forall k | 0 <= k < |t.calls| && t.calls[k].stage.Parked? && t.calls[k].stage.row in t.credited && t.calls[k].stage.accepted.Some?
        ensures t.calls[k].stage.accepted.value !in failed
      {
        assert k == b || RowOf(s.calls[k].stage) != RowOf(s.calls[b].stage);
      }
    }
  }

  // The mark of a settle call on a row that is accepted, or settled, or failed without having been accepted by a
  // payer of this node.
  lemma {:induction false} MarkKeepsSound(setup: Setup, decode: string -> Option<Bolt11>, n: Node, j: nat)
    requires Sound(decode, n) && j < |n.lookups| && !Spoils(n, MarkSettled(j))
    ensures Sound(decode, Step(setup, n, MarkSettled(j)))
  {
    var l, rows := n.lookups[j], n.s.w.rows;
    assert LookupOk(rows, l);
    if !MarkTransactionSettled(rows, l.id, l.preimage, 0, l.self, n.s.w.now).outcome.SettledNow? {
      MarkOfNothing(setup, decode, n, j);
    } else if rows[l.id].state == Accepted {
      MarkOfAccepted(setup, decode, n, j);
    } else {
      UnsettledBefore(rows, l.id);
      MarkOfFailed(setup, decode, n, j);
    }
  }

  /** A mark that spoils settles, as paid from this node, a hold invoice that had failed. */
  lemma {:induction false} SpoilingIsUnsound(setup: Setup, decode: string -> Option<Bolt11>, n: Node, move: Move)
    requires Sound(decode, n) && Spoils(n, move)
    ensures !Sound(decode, Step(setup, n, move))
  {
    var l, rows := n.lookups[move.j], n.s.w.rows;
    assert LookupOk(rows, l);
    var n' := Step(setup, n, move);
    assert l.id in n'.failed && n'.s.w.rows[l.id].hold && SelfPaid(n'.s.w.rows[l.id]);
  }

  /**
    Of all steps exactly one leaves a failed hold invoice credited: a settle call marking what has failed since it was
    found.
   */
  lemma {:induction false} StepKeepsSoundIff(setup: Setup, decode: string -> Option<Bolt11>, n: Node, move: Move)
    requires Sound(decode, n)
    requires move.Elsewhere? ==> Truthful(decode, n.s.w.rows, move.op)
    ensures Sound(decode, Step(setup, n, move)) <==> !Spoils(n, move)
  {
    if Spoils(n, move) {
      SpoilingIsUnsound(setup, decode, n, move);
    } else {
      StepKeepsSound(setup, decode, n, move);
    }
  }

  lemma {:induction false} StepKeepsSound(setup: Setup, decode: string -> Option<Bolt11>, n: Node, move: Move)
    requires Sound(decode, n) && !Spoils(n, move)
    requires move.Elsewhere? ==> Truthful(decode, n.s.w.rows, move.op)
    ensures Sound(decode, Step(setup, n, move))
  {
    if Changed(setup, n, move) == n {
      assert n.failed + FailedRows(n.s.w.rows) == n.failed;
      return;
    }
    match move
    case Elsewhere(op) => ElsewhereKeepsSound(setup, decode, n, op);
    case Advance(k) => AdvanceKeepsSound(setup, decode, n, k);
    case GiveUp(k) => GiveUpKeepsSound(setup, decode, n, k);
    case Wake(k, id, cancelled) => WakeKeepsSound(setup, decode, n, k, id, cancelled);
    case FindToSettle(hash, preimage) => FindKeepsSound(setup, decode, n, hash, preimage);
    case MarkSettled(j) => MarkKeepsSound(setup, decode, n, j);
  }

  lemma {:induction false} PlayStaysSound(setup: Setup, decode: string -> Option<Bolt11>, n: Node, moves: seq<Move>)
    requires Sound(decode, n) && TruthfulPlay(setup, decode, n, moves) && NothingSpoilt(setup, n, moves)
    ensures Sound(decode, Play(setup, n, moves))
  {
    if moves == [] {
    } else {
      var init := moves[..|moves| - 1];
      assert forall i :: 0 <= i < |init| ==> init[..i] == moves[..i];
      PlayStaysSound(setup, decode, n, init);
      StepKeepsSound(setup, decode, Play(setup, n, init), moves[|moves| - 1]);
    }
  }

  /**
    From an empty ledger, after any steps of any number of self-paying calls, of calls settling
    hold invoices and of any other traffic, all balances together are at most what came from
    outside, if no settle call has marked a row that had failed since it was found.
   */
  lemma {:induction false} SelfPaymentsCreateNoMoney(setup: Setup, decode: string -> Option<Bolt11>,
                                                     asked: seq<Request>, calls: seq<Call>, moves: seq<Move>)
    requires decode("").None? && |calls| == |asked|
    requires forall k :: 0 <= k < |calls| ==> CallsFor(decode, asked[k], calls[k])
    requires TruthfulPlay(setup, decode, Start(calls), moves) && NothingSpoilt(setup, Start(calls), moves)
    ensures var rows := Play(setup, Start(calls), moves).s.w.rows;
            TotalBalanceMsat(rows) <= ExternalReceiptsMsat(rows)
  {
    forall k | 0 <= k < |calls|
      ensures FromRequest(decode, calls[k])
    {
      CallPaysItsRequest(decode, asked[k], calls[k]);
    }
    PlayStaysSound(setup, decode, Start(calls), moves);
    var end := Play(setup, Start(calls), moves).s;
    TotalFromCredits(end.w.rows, end.credited);
  }

  // Each settle call is one step: what it finds it marks at once.
  ghost predicate SettlesUnbroken(setup: Setup, n: Node, moves: seq<Move>) {
    forall i :: 0 <= i < |moves| && moves[i].MarkSettled? ==>
      i > 0 && moves[i - 1].FindToSettle? && moves[i].j == |Play(setup, n, moves[..i - 1]).lookups|
  }

  /**
    Settle calls that are one step each mark nothing that has failed, so with them no money is created in any
    interleaving.
   */
  lemma {:induction false} UnbrokenSettlesSpoilNothing(setup: Setup, n: Node, moves: seq<Move>)
    requires SettlesUnbroken(setup, n, moves)
    ensures NothingSpoilt(setup, n, moves)
  {
    forall i | 0 <= i < |moves|
      ensures !Spoils(Play(setup, n, moves[..i]), moves[i])
    {
      if moves[i].MarkSettled? {
        var before := Play(setup, n, moves[..i - 1]);
        assert moves[..i][..i - 1] == moves[..i - 1];
        assert Play(setup, n, moves[..i]) == Step(setup, before, moves[i - 1]);
      }
    }
  }

  /** A call that cannot learn the block height fails its payment and touches no other row. */
  lemma {:induction false} GivenUpCallFails(setup: Setup, n: Node, k: nat)
    requires k < |n.s.calls| && n.s.calls[k].stage.Waiting? && n.s.calls[k].stage.row < |n.s.w.rows|
    requires n.s.w.rows[n.s.calls[k].stage.row].state == Pending
    ensures var t := Step(setup, Step(setup, n, GiveUp(k)), Advance(k));
            var row := n.s.calls[k].stage.row;
            && t.s.calls == n.s.calls[k := n.s.calls[k].(stage := Returned(false))]
            && t.s.w.rows == n.s.w.rows[row := n.s.w.rows[row].(state := Failed, feeReserveMsat := 0)]
            && row in t.failed
  {
    var row := n.s.calls[k].stage.row;
    var given := Step(setup, n, GiveUp(k));
    assert given.s == n.s.(calls := n.s.calls[k := n.s.calls[k].(stage := Missed(row))]);
    assert Changed(setup, given, Advance(k)).s.w.rows[row].state == Failed;
  }
}
