/**
  One outgoing payment, many reporters: the call that made it, notifications that
  it was sent and notifications that it failed, in any number, repeated, and
  interleaved at every database access.
 */
module SuccessDominates {
  import opened Wrappers
  import opened Ledger
  import opened LedgerSteps
  import opened LedgerRuns

  datatype SentStage = LookForPending | LookForFailed | LookForAny | SentUnknown | SentFound(id: nat) | SentDone

  datatype FailStage = FailLook | FailFound(id: nat) | FailDone

  datatype Reporter =
    // the handler of a payment_sent notification
    | Sent(invoice: string, amountMsat: nat, preimage: string, feeMsat: nat, sent: SentStage)
    // the handler of a payment_failed notification
    | NotSent(failing: FailStage)
    // the paying call, back from the node with success or failure
    | Caller(success: bool, proof: string, fee: nat, selfPayment: bool, returned: bool)

  // `first` is the first success that was processed, `failure` whether a failure was.
  datatype Race = Race(w: World, reporters: seq<Reporter>, first: Option<(string, nat)>, failure: bool)

  datatype Move = Report(k: nat) | Elsewhere(op: Op)

  // ---------------------------------------------------------------- the handlers, one database access at a time

  function SettleBy(race: Race, k: nat, id: nat, preimage: string, feeMsat: nat, self: bool, done: Reporter): Race
    requires k < |race.reporters| && id < |race.w.rows|
  {
    var r := MarkTransactionSettled(race.w.rows, id, preimage, feeMsat, self, race.w.now);
    Race(Commit(race.w, r.rows, r.events), race.reporters[k := done],
         if race.first.None? && preimage != "" then Some((preimage, feeMsat)) else race.first, race.failure)
  }

  function FailBy(race: Race, k: nat, id: nat, done: Reporter): Race
    requires k < |race.reporters|
  {
    var r := MarkPaymentFailed(race.w.rows, id);
    Race(Commit(race.w, r.rows, r.events), race.reporters[k := done], race.first, true)
  }

  function SentStep(race: Race, k: nat, hash: string): Race
    requires k < |race.reporters| && race.reporters[k].Sent?
  {
    var me := race.reporters[k];
    match me.sent
    case LookForPending =>
      var found := FindRow(race.w.rows, Outgoing, Some(Pending), "", hash);
      race.(reporters := race.reporters[k := me.(sent := if found.Some? then SentFound(found.value) else LookForFailed)])
    case LookForFailed =>
      var found := FindRow(race.w.rows, Outgoing, Some(Failed), "", hash);
      race.(reporters := race.reporters[k := me.(sent := if found.Some? then SentFound(found.value) else LookForAny)])
    case LookForAny =>
      var found := FindRow(race.w.rows, Outgoing, None, "", hash);
      race.(reporters := race.reporters[k := me.(sent := if found.Some? then SentFound(found.value) else SentUnknown)])
    case SentUnknown =>
      var op := Notify(Outgoing, None, me.amountMsat, me.invoice, hash, me.preimage, me.feeMsat);
      var r := CreateSettledTransaction(race.w.rows, Notified(op, race.w.now), me.preimage, me.feeMsat, race.w.now);
      race.(w := Commit(race.w, r.rows, r.events), reporters := race.reporters[k := me.(sent := SentDone)])
    case SentFound(id) =>
      if id >= |race.w.rows| then race
      else SettleBy(race, k, id, me.preimage, me.feeMsat, false, me.(sent := SentDone))
    case SentDone => race
  }

  function NotSentStep(race: Race, k: nat, hash: string): Race
    requires k < |race.reporters| && race.reporters[k].NotSent?
  {
    var me := race.reporters[k];
    match me.failing
    case FailLook =>
      var found := FindRow(race.w.rows, Outgoing, Some(Pending), "", hash);
      race.(reporters := race.reporters[k := NotSent(if found.Some? then FailFound(found.value) else FailDone)])
    case FailFound(id) => FailBy(race, k, id, NotSent(FailDone))
    case FailDone => race
  }

  function CallerStep(race: Race, k: nat, row: nat): Race
    requires k < |race.reporters| && race.reporters[k].Caller? && row < |race.w.rows|
  {
    var me := race.reporters[k];
    if me.returned then race
    else if me.success then SettleBy(race, k, row, me.proof, me.fee, me.selfPayment, me.(returned := true))
    else FailBy(race, k, row, me.(returned := true))
  }

  // `row` is the payment's row and `hash` its payment hash.
  function Step(setup: Setup, race: Race, row: nat, hash: string, move: Move): Race {
    match move
    case Elsewhere(op) => race.(w := Apply(setup, race.w, op))
    case Report(k) =>
      if k >= |race.reporters| || row >= |race.w.rows| then race
      else
        match race.reporters[k]
        case Sent(_, _, _, _, _) => SentStep(race, k, hash)
        case NotSent(_) => NotSentStep(race, k, hash)
        case Caller(_, _, _, _, _) => CallerStep(race, k, row)
  }

  function Play(setup: Setup, race: Race, row: nat, hash: string, moves: seq<Move>): Race {
    if moves == [] then race
    else Step(setup, Play(setup, race, row, hash, moves[..|moves| - 1]), row, hash, moves[|moves| - 1])
  }

  // ---------------------------------------------------------------- the claim

  // Other traffic neither touches the row nor adds an outgoing row for its hash.
  predicate KeepsAway(move: Move, row: nat, hash: string) {
    match move
    case Report(_) => true
    case Elsewhere(op) =>
      match op
      case Pay(_, _, _, h, _) => h != hash
      case Keysend(_, _, h, _, _) => h != hash
      case Notify(kind, _, _, _, h, _, _) => kind == Outgoing ==> h != hash
      case Settle(id, _, _, _) => id != row
      case Fail(id) => id != row
      case _ => true
  }

  predicate OnlyRow(rows: Table, row: nat, hash: string) {
    && row < |rows| && rows[row].kind == Outgoing && rows[row].paymentHash == hash
    && (forall id :: 0 <= id < |rows| && id != row ==> !(rows[id].kind == Outgoing && rows[id].paymentHash == hash))
  }

  // The state the row must be in, given what has been processed.
  predicate Verdict(race: Race, row: nat)
    requires row < |race.w.rows|
  {
    var r := race.w.rows[row];
    if race.first.Some? then r.state == Settled && r.preimage == Some(race.first.value.0) && r.feeMsat == race.first.value.1
    else if race.failure then r.state == Failed
    else r.state == Pending
  }

  predicate ReporterOk(race: Race, row: nat, me: Reporter)
    requires row < |race.w.rows|
  {
    match me
    case Sent(_, _, preimage, _, stage) =>
      (match stage
       case LookForFailed => race.w.rows[row].state != Pending
       case LookForAny => race.w.rows[row].state != Pending
       case SentUnknown => false
       case SentFound(id) => id == row
       case SentDone => preimage != "" ==> race.first.Some?
       case LookForPending => true)
    case NotSent(stage) =>
      (match stage
       case FailFound(id) => id == row
       case FailDone => race.failure || race.first.Some?
       case FailLook => true)
    case Caller(success, proof, _, _, returned) =>
      returned ==> if success then proof != "" ==> race.first.Some? else race.failure || race.first.Some?
  }

  ghost predicate Good(race: Race, row: nat, hash: string) {
    && hash != ""
    && OnlyRow(race.w.rows, row, hash)
    && Verdict(race, row)
    && (forall k :: 0 <= k < |race.reporters| ==> ReporterOk(race, row, race.reporters[k]))
  }

  predicate Fresh(me: Reporter) {
    match me
    case Sent(_, _, _, _, stage) => stage == LookForPending
    case NotSent(stage) => stage == FailLook
    case Caller(_, _, _, _, returned) => !returned
  }

  predicate Start(race: Race, row: nat, hash: string) {
    && hash != ""
    && OnlyRow(race.w.rows, row, hash) && race.w.rows[row].state == Pending
    && race.first == None && !race.failure
    && (forall k :: 0 <= k < |race.reporters| ==> Fresh(race.reporters[k]))
  }

  lemma {:induction false} ElsewhereKeepsGood(setup: Setup, race: Race, row: nat, hash: string, op: Op)
    requires Good(race, row, hash) && KeepsAway(Elsewhere(op), row, hash)
    ensures Good(race.(w := Apply(setup, race.w, op)), row, hash)
  {
    var rows' := Apply(setup, race.w, op).rows;
    ApplyEvolves(setup, race.w, op);
    RowUntouched(setup, race.w, op, row, hash);
    forall id | |race.w.rows| <= id < |rows'|
      ensures !(rows'[id].kind == Outgoing && rows'[id].paymentHash == hash)
    {
      assert id == |race.w.rows|;
    }
  }

  lemma {:induction false} RowUntouched(setup: Setup, w: World, op: Op, row: nat, hash: string)
    requires row < |w.rows| && w.rows[row].kind == Outgoing && KeepsAway(Elsewhere(op), row, hash)
    ensures row < |Apply(setup, w, op).rows| && Apply(setup, w, op).rows[row] == w.rows[row]
  {
  }

  lemma {:induction false} LookupFindsRow(rows: Table, row: nat, hash: string, state: Option<TxState>)
    requires hash != "" && OnlyRow(rows, row, hash)
    ensures FindRow(rows, Outgoing, state, "", hash) == if state.None? || rows[row].state == state.value then Some(row) else None
  {
    assert Matches(rows[row], Outgoing, state, "", hash) <==> state.None? || rows[row].state == state.value;
  }

  lemma {:induction false} SettlingTheRow(rows: Table, row: nat, hash: string, preimage: string, feeMsat: nat,
                                          self: bool, now: int)
    requires hash != "" && OnlyRow(rows, row, hash)
    ensures var rows' := MarkTransactionSettled(rows, row, preimage, feeMsat, self, now).rows;
            && OnlyRow(rows', row, hash)
            && rows'[row] == if preimage == "" || rows[row].state == Settled then rows[row] else SettledRow(rows[row], preimage, feeMsat, self, now)
  {
    var r := rows[row];
    assert Matches(r, Outgoing, Some(Settled), r.paymentRequest, hash) <==> r.state == Settled;
  }

  // One reporter's step leaves the others in order, as what they rely on never goes back.
  lemma {:induction false} OthersStayOk(race: Race, race': Race, row: nat, hash: string, k: nat)
    requires Good(race, row, hash) && k < |race.reporters|
    requires OnlyRow(race'.w.rows, row, hash) && Verdict(race', row)
    requires |race'.reporters| == |race.reporters| && race'.reporters == race.reporters[k := race'.reporters[k]]
    requires ReporterOk(race', row, race'.reporters[k])
    requires race.first.Some? ==> race'.first.Some?
    requires race.failure ==> race'.failure
    ensures Good(race', row, hash)
  {
    forall l | 0 <= l < |race'.reporters|
      ensures ReporterOk(race', row, race'.reporters[l])
    {
      assert l != k ==> ReporterOk(race, row, race.reporters[l]);
    }
  }

  lemma {:induction false} SentKeepsGood(race: Race, row: nat, hash: string, k: nat)
    requires Good(race, row, hash) && k < |race.reporters| && race.reporters[k].Sent?
    ensures Good(SentStep(race, k, hash), row, hash)
  {
    var me := race.reporters[k];
    assert ReporterOk(race, row, me);
    LookupFindsRow(race.w.rows, row, hash, Some(Pending));
    LookupFindsRow(race.w.rows, row, hash, Some(Failed));
    LookupFindsRow(race.w.rows, row, hash, None);
    SettlingTheRow(race.w.rows, row, hash, me.preimage, me.feeMsat, false, race.w.now);
    OthersStayOk(race, SentStep(race, k, hash), row, hash, k);
  }

  lemma {:induction false} NotSentKeepsGood(race: Race, row: nat, hash: string, k: nat)
    requires Good(race, row, hash) && k < |race.reporters| && race.reporters[k].NotSent?
    ensures Good(NotSentStep(race, k, hash), row, hash)
  {
    assert ReporterOk(race, row, race.reporters[k]);
    LookupFindsRow(race.w.rows, row, hash, Some(Pending));
    OthersStayOk(race, NotSentStep(race, k, hash), row, hash, k);
  }

  lemma {:induction false} CallerKeepsGood(race: Race, row: nat, hash: string, k: nat)
    requires Good(race, row, hash) && k < |race.reporters| && race.reporters[k].Caller?
    ensures Good(CallerStep(race, k, row), row, hash)
  {
    var me := race.reporters[k];
    assert ReporterOk(race, row, me);
    SettlingTheRow(race.w.rows, row, hash, me.proof, me.fee, me.selfPayment, race.w.now);
    OthersStayOk(race, CallerStep(race, k, row), row, hash, k);
  }

  lemma {:induction false} StepKeepsGood(setup: Setup, race: Race, row: nat, hash: string, move: Move)
    requires Good(race, row, hash) && KeepsAway(move, row, hash)
    ensures Good(Step(setup, race, row, hash, move), row, hash)
  {
    if move.Elsewhere? {
      ElsewhereKeepsGood(setup, race, row, hash, move.op);
    } else if move.k < |race.reporters| {
      match race.reporters[move.k]
      case Sent(_, _, _, _, _) => SentKeepsGood(race, row, hash, move.k);
      case NotSent(_) => NotSentKeepsGood(race, row, hash, move.k);
      case Caller(_, _, _, _, _) => CallerKeepsGood(race, row, hash, move.k);
    }
  }

  lemma {:induction false} PlayStaysGood(setup: Setup, race: Race, row: nat, hash: string, moves: seq<Move>)
    requires Start(race, row, hash)
    requires forall i :: 0 <= i < |moves| ==> KeepsAway(moves[i], row, hash)
    ensures Good(Play(setup, race, row, hash, moves), row, hash)
  {
    if moves == [] {
    } else {
      PlayStaysGood(setup, race, row, hash, moves[..|moves| - 1]);
      StepKeepsGood(setup, Play(setup, race, row, hash, moves[..|moves| - 1]), row, hash, moves[|moves| - 1]);
    }
  }

  /** Other traffic alone is any run of the ledger and touches no reporter. */
  lemma {:induction false} ElsewhereIsRun(setup: Setup, race: Race, row: nat, hash: string, ops: seq<Op>)
    ensures var end := Play(setup, race, row, hash, seq(|ops|, i requires 0 <= i < |ops| => Elsewhere(ops[i])));
            end == race.(w := Run(setup, race.w, ops))
  {
    if ops != [] {
      var n := |ops| - 1;
      var moves := seq(|ops|, i requires 0 <= i < |ops| => Elsewhere(ops[i]));
      ElsewhereIsRun(setup, race, row, hash, ops[..n]);
      assert moves[..n] == seq(n, i requires 0 <= i < n => Elsewhere(ops[..n][i]));
    }
  }

  // ---------------------------------------------------------------- every reporter finishes

  // How many database accesses a reporter makes yet, at most.
  function StepsLeft(me: Reporter): nat {
    match me
    case Sent(_, _, _, _, stage) =>
      (match stage
       case LookForPending => 4
       case LookForFailed => 3
       case LookForAny => 2
       case SentUnknown => 1
       case SentFound(_) => 1
       case SentDone => 0)
    case NotSent(stage) =>
      (match stage
       case FailLook => 2
       case FailFound(_) => 1
       case FailDone => 0)
    case Caller(_, _, _, _, returned) => if returned then 0 else 1
  }

  // What a reporter reports does not change while it does so.
  predicate SameReport(a: Reporter, b: Reporter) {
    match a
    case Sent(_, _, _, _, _) => b.Sent? && b.(sent := a.sent) == a
    case NotSent(_) => b.NotSent?
    case Caller(_, _, _, _, _) => b.Caller? && b.(returned := a.returned) == a
  }

  // A reporter, the k-th, is on its way to report and needs no more than so many accesses.
  predicate OnItsWay(race: Race, k: nat, me: Reporter, left: int) {
    && k < |race.reporters|
    && SameReport(me, race.reporters[k])
    && (StepsLeft(race.reporters[k]) <= left || StepsLeft(race.reporters[k]) == 0)
  }

  lemma {:induction false} ReporterAdvances(setup: Setup, race: Race, row: nat, hash: string, k: nat, me: Reporter,
                                            left: int)
    requires Good(race, row, hash) && OnItsWay(race, k, me, left)
    ensures OnItsWay(Step(setup, race, row, hash, Report(k)), k, me, left - 1)
  {
    assert ReporterOk(race, row, race.reporters[k]);
    match race.reporters[k]
    case Sent(_, _, _, _, _) =>
    case NotSent(_) =>
    case Caller(_, _, _, _, _) =>
  }

  lemma {:induction false} ReporterGoesOn(setup: Setup, race: Race, row: nat, hash: string, k: nat, me: Reporter,
                                          moves: seq<Move>)
    requires Good(race, row, hash) && OnItsWay(race, k, me, 4)
    requires forall i :: 0 <= i < |moves| ==> moves[i] == Report(k)
    ensures Good(Play(setup, race, row, hash, moves), row, hash)
    ensures OnItsWay(Play(setup, race, row, hash, moves), k, me, 4 - |moves|)
  {
    if moves != [] {
      var n := |moves| - 1;
      ReporterGoesOn(setup, race, row, hash, k, me, moves[..n]);
      StepKeepsGood(setup, Play(setup, race, row, hash, moves[..n]), row, hash, moves[n]);
      ReporterAdvances(setup, Play(setup, race, row, hash, moves[..n]), row, hash, k, me, 4 - n);
    }
  }

  /** Whatever has happened, a reporter left alone for four database accesses or more has reported. */
  lemma {:induction false} ReporterFinishes(setup: Setup, race: Race, row: nat, hash: string, k: nat,
                                            moves: seq<Move>)
    requires Good(race, row, hash) && k < |race.reporters|
    requires |moves| >= 4 && forall i :: 0 <= i < |moves| ==> moves[i] == Report(k)
    ensures var end := Play(setup, race, row, hash, moves);
            Good(end, row, hash) && k < |end.reporters| && HasReported(race.reporters[k], end.reporters[k])
  {
    assert OnItsWay(race, k, race.reporters[k], 4);
    ReporterGoesOn(setup, race, row, hash, k, race.reporters[k], moves);
    NothingLeftToReport(Play(setup, race, row, hash, moves), k, race.reporters[k], 4 - |moves|);
  }

  lemma {:induction false} NothingLeftToReport(race: Race, k: nat, me: Reporter, left: int)
    requires OnItsWay(race, k, me, left) && left <= 0
    ensures k < |race.reporters| && HasReported(me, race.reporters[k])
  {
  }

  // What has become of a reporter once it has reported.
  predicate HasReported(before: Reporter, after: Reporter) {
    match before
    case Sent(_, _, _, _, _) => after == before.(sent := SentDone)
    case NotSent(_) => after == NotSent(FailDone)
    case Caller(_, _, _, _, _) => after == before.(returned := true)
  }

  predicate ReportedSuccess(me: Reporter) {
    || (me.Sent? && me.sent.SentDone? && me.preimage != "")
    || (me.Caller? && me.returned && me.success && me.proof != "")
  }

  predicate ReportedFailure(me: Reporter) {
    || (me.NotSent? && me.failing.FailDone?)
    || (me.Caller? && me.returned && !me.success)
  }

  /**
    Whatever the order, repetition or interleaving: once any success has been
    processed the row is settled with the first success's preimage and fee;
    otherwise any processed failure leaves it failed.
   */
  lemma {:induction false} SuccessDominatesFailure(setup: Setup, race: Race, row: nat, hash: string, moves: seq<Move>)
    requires Start(race, row, hash)
    requires forall i :: 0 <= i < |moves| ==> KeepsAway(moves[i], row, hash)
    ensures var end := Play(setup, race, row, hash, moves);
            && row < |end.w.rows|
            && Verdict(end, row)
            && (forall k :: 0 <= k < |end.reporters| && ReportedSuccess(end.reporters[k]) ==>
                   end.w.rows[row].state == Settled)
            && (forall k :: 0 <= k < |end.reporters| && ReportedFailure(end.reporters[k])
                  ==> end.w.rows[row].state == if end.first.Some? then Settled else Failed)
  {
    PlayStaysGood(setup, race, row, hash, moves);
    var end := Play(setup, race, row, hash, moves);
    forall k | 0 <= k < |end.reporters|
      ensures ReportedSuccess(end.reporters[k]) ==> end.first.Some?
      ensures ReportedFailure(end.reporters[k]) ==> end.failure || end.first.Some?
    {
      assert ReporterOk(end, row, end.reporters[k]);
    }
  }
}
