/**
  Waiters of in-flight sends: a send registers a channel under its payment hash and
  blocks on it, and the terminal movement of the hash is delivered there, or published
  as an event when nobody is waiting.
 */
module Bark {
  import opened Wrappers

  datatype Status = StatusPending | StatusSuccessful | StatusFailed | StatusCanceled

  datatype Movement = Movement(status: Status, paymentHash: Option<string>, offchainFeeSats: nat)

  // What the wallet says of a send.
  datatype SendState = Paid(preimage: string) | NotPaid | LookupFailed

  datatype SendResult =
    | Succeeded(preimage: string, feeMsat: nat)
    | Unsuccessful
    | NoPreimage

  // Only a success without a preimage has no event to fall back on.
  predicate HasFallback(result: SendResult) {
    !result.NoPreimage?
  }

  // ---------------------------------------------------------------- the registry

  // A channel with room for one result.
  class Channel {
    var results: seq<SendResult>

    constructor ()
      ensures results == []
    {
      results := [];
    }

    method Send(result: SendResult)
      requires results == []
      modifies this
      ensures results == [result]
    {
      results := [result];
    }
  }

  class BarkService {
    var inflightSends: map<string, Channel>
    var published: seq<(string, SendResult)>

    constructor ()
      ensures Valid() && inflightSends == map[] && published == []
    {
      inflightSends, published := map[], [];
    }

    // No registered channel holds a result, and none is registered twice.
    ghost predicate Valid()
      reads this, inflightSends.Values
    {
      && (forall hash :: hash in inflightSends ==> inflightSends[hash].results == [])
      && (forall h, k :: h in inflightSends && k in inflightSends && h != k ==> inflightSends[h] != inflightSends[k])
    }

    method RegisterInflightSend(hash: string, ch: Channel) returns (ok: bool)
      requires Valid() && ch.results == [] && ch !in inflightSends.Values
      modifies this
      ensures Valid() && published == old(published)
      ensures ok <==> hash !in old(inflightSends)
      ensures inflightSends == if ok then old(inflightSends)[hash := ch] else old(inflightSends)
    {
      if hash in inflightSends {
        return false;
      }
      inflightSends := inflightSends[hash := ch];
      return true;
    }

    method ClearInflightSend(hash: string)
      requires Valid()
      modifies this
      ensures Valid() && published == old(published)
      ensures inflightSends == old(inflightSends) - {hash}
    {
      inflightSends := inflightSends - {hash};
    }

    method TakeInflightSend(hash: string) returns (ch: Option<Channel>)
      requires Valid()
      modifies this
      ensures Valid() && published == old(published)
      ensures inflightSends == old(inflightSends) - {hash}
      ensures ch == if hash in old(inflightSends) then Some(old(inflightSends)[hash]) else None
      ensures ch.Some? ==> ch.value.results == [] && ch.value !in inflightSends.Values
    {
      ch := if hash in inflightSends then Some(inflightSends[hash]) else None;
      inflightSends := inflightSends - {hash};
    }

    /** A movement reaches the waiter of its hash or is published, never both, and delivery never waits for room. */
    method HandleLightningSendMovement(movement: Movement, state: SendState)
      requires Valid()
      modifies this, inflightSends.Values
      ensures Valid()
      ensures movement.status == StatusPending || movement.paymentHash in {None, Some("")} ==>
                inflightSends == old(inflightSends) && published == old(published)
                && forall hash :: hash in inflightSends ==> inflightSends[hash].results == []
      ensures movement.status != StatusPending && movement.paymentHash !in {None, Some("")} ==>
                var hash, success := movement.paymentHash.value, movement.status == StatusSuccessful;
                var result :=
                  if success && state.Paid? && state.preimage != "" then Succeeded(state.preimage, 1000 * movement.offchainFeeSats)
                  else if success then NoPreimage
                  else Unsuccessful;
                && inflightSends == old(inflightSends) - {hash}
                && (hash in old(inflightSends) ==>
                      old(inflightSends)[hash].results == [result] && published == old(published))
                && (hash !in old(inflightSends) ==>
                      published == if result == NoPreimage then old(published) else old(published) + [(hash, result)])
    {
      if movement.status == StatusPending {
        return;
      }
      if movement.paymentHash.None? || movement.paymentHash.value == "" {
        return;
      }
      var hash := movement.paymentHash.value;
      if movement.status != StatusSuccessful {
        DeliverSendResult(hash, Unsuccessful, true);
        return;
      }
      if !state.Paid? || state.preimage == "" {
        DeliverSendResult(hash, NoPreimage, false);
        return;
      }
      DeliverSendResult(hash, Succeeded(state.preimage, movement.offchainFeeSats * 1000), true);
    }

    method DeliverSendResult(hash: string, result: SendResult, fallback: bool)
      requires Valid()
      modifies this, inflightSends.Values
      ensures Valid() && inflightSends == old(inflightSends) - {hash}
      ensures hash in old(inflightSends) ==> old(inflightSends)[hash].results == [result] && published == old(published)
      ensures hash !in old(inflightSends) ==>
                published == if fallback then old(published) + [(hash, result)] else old(published)
    {
      var ch := TakeInflightSend(hash);
      if ch.Some? {
        ch.value.Send(result);
        return;
      }
      if fallback {
        published := published + [(hash, result)];
      }
    }
  }

  // ---------------------------------------------------------------- all interleavings

  datatype CallPhase =
    | Refused                 // another send had registered the hash
    | Registered
    | Blocked                 // the payment has been started
    | Leaving                 // about to clear its registration
    | Returned

  // A call of the send with its channel and what it has received.
  datatype Call = Call(hash: string, phase: CallPhase, channel: seq<SendResult>, received: Option<SendResult>)

  datatype Fate =
    | Arrived
    | Holding(call: nat)      // has taken the channel of a call out of the registry
    | Delivered(call: nat)
    | PublishedEvent
    | NotReported

  // The handling of one terminal movement.
  datatype Delivery = Delivery(hash: string, result: SendResult, fate: Fate)

  datatype State = State(calls: seq<Call>, deliveries: seq<Delivery>, inflight: map<string, nat>, published: seq<nat>)

  const INITIAL := State([], [], map[], [])

  datatype Step =
    | Start(hash: string)
    | PayFails(call: nat)
    | PayStarts(call: nat)
    | Receive(call: nat)
    | Clear(call: nat)
    | Arrive(hash: string, result: SendResult)
    | Take(delivery: nat)
    | Send(delivery: nat)

  predicate InPhase(s: State, i: nat, phase: CallPhase) {
    i < |s.calls| && s.calls[i].phase == phase
  }

  // Whether a step can be taken. A send on a full channel and a receive on an empty one block.
  predicate Enabled(s: State, step: Step) {
    match step
    case Start(_) => true
    case PayFails(i) => InPhase(s, i, Registered)
    case PayStarts(i) => InPhase(s, i, Registered)
    case Receive(i) => InPhase(s, i, Blocked) && s.calls[i].channel != []
    case Clear(i) => InPhase(s, i, Leaving)
    case Arrive(_, _) => true
    case Take(j) => j < |s.deliveries| && s.deliveries[j].fate == Arrived
    case Send(j) => HasRoom(s, j)
  }

  predicate HasRoom(s: State, j: nat) {
    j < |s.deliveries| && s.deliveries[j].fate.Holding? &&
    var i := s.deliveries[j].fate.call;
    i < |s.calls| && s.calls[i].channel == []
  }

  function WithPhase(s: State, i: nat, phase: CallPhase): State
    requires i < |s.calls|
  {
    s.(calls := s.calls[i := s.calls[i].(phase := phase)])
  }

  function WithFate(s: State, j: nat, fate: Fate): State
    requires j < |s.deliveries|
  {
    s.(deliveries := s.deliveries[j := s.deliveries[j].(fate := fate)])
  }

  function Next(s: State, step: Step): State
    requires Enabled(s, step)
  {
    match step
    case Start(hash) =>
      if hash in s.inflight then s.(calls := s.calls + [Call(hash, Refused, [], None)])
      else s.(calls := s.calls + [Call(hash, Registered, [], None)], inflight := s.inflight[hash := |s.calls|])
    case PayFails(i) => WithPhase(s, i, Leaving)
    case PayStarts(i) => WithPhase(s, i, Blocked)
    case Receive(i) =>
      var call := s.calls[i];
      s.(calls := s.calls[i := call.(phase := Leaving, channel := call.channel[1..],
                                     received := Some(call.channel[0]))])
    case Clear(i) =>
      WithPhase(s, i, Returned).(inflight := s.inflight - {s.calls[i].hash})
    case Arrive(hash, result) =>
      s.(deliveries := s.deliveries + [Delivery(hash, result, Arrived)])
    case Take(j) =>
      var d := s.deliveries[j];
      if d.hash in s.inflight then WithFate(s, j, Holding(s.inflight[d.hash])).(inflight := s.inflight - {d.hash})
      else if HasFallback(d.result) then WithFate(s, j, PublishedEvent).(published := s.published + [j])
      else WithFate(s, j, NotReported)
    case Send(j) =>
      var i := s.deliveries[j].fate.call;
      WithFate(s, j, Delivered(i)).(calls := s.calls[i := s.calls[i].(channel := [s.deliveries[j].result])])
  }

  function Play(s: State, steps: seq<Step>): (t: Option<State>)
    decreases |steps|
  {
    if steps == [] then Some(s)
    else if !Enabled(s, steps[0]) then None
    else Play(Next(s, steps[0]), steps[1..])
  }

  // ---------------------------------------------------------------- what every run keeps

  // The call a movement's result has gone to or is about to.
  function Receiver(d: Delivery): Option<nat> {
    match d.fate
    case Holding(i) => Some(i)
    case Delivered(i) => Some(i)
    case _ => None
  }

  // A registered channel is untouched.
  ghost predicate RegistrationsFresh(s: State) {
    forall h :: h in s.inflight ==>
      && s.inflight[h] < |s.calls|
      && s.calls[s.inflight[h]].hash == h
      && s.calls[s.inflight[h]].phase in {Registered, Blocked, Leaving}
      && s.calls[s.inflight[h]].channel == [] && s.calls[s.inflight[h]].received == None
      && forall j :: 0 <= j < |s.deliveries| ==> Receiver(s.deliveries[j]) != Some(s.inflight[h])
  }

  // No two movements reach the same call.
  ghost predicate OneEach(s: State) {
    forall j, k :: 0 <= j < k < |s.deliveries| && Receiver(s.deliveries[j]).Some? ==>
      Receiver(s.deliveries[j]) != Receiver(s.deliveries[k])
  }

  // A delivery goes to a call of its hash, which has room for it until then and has it ever after.
  ghost predicate DeliveriesLand(s: State) {
    forall j :: 0 <= j < |s.deliveries| && Receiver(s.deliveries[j]).Some? ==> Lands(s, s.deliveries[j])
  }

  ghost predicate Lands(s: State, d: Delivery)
    requires Receiver(d).Some?
  {
    Receiver(d).value < |s.calls| &&
    var call := s.calls[Receiver(d).value];
    && call.hash == d.hash
    && if d.fate.Holding? then call.channel == [] && call.received == None
       else (call.channel == [d.result] && call.received == None) || (call.channel == [] && call.received == Some(d.result))
  }

  // Whatever a call has been sent was delivered to it.
  ghost predicate ResultsHaveSource(s: State) {
    forall i :: 0 <= i < |s.calls| && (s.calls[i].channel != [] || s.calls[i].received.Some?) ==>
      exists j :: 0 <= j < |s.deliveries| && s.deliveries[j].fate == Delivered(i)
  }

  // A movement is published once if that is its fate, and goes unreported only for want of a preimage.
  ghost predicate PublishedOnce(s: State) {
    && (forall a, b :: 0 <= a < b < |s.published| ==> s.published[a] != s.published[b])
    && (forall j :: j in s.published ==> j < |s.deliveries|)
    && (forall j: nat :: j < |s.deliveries| ==> (j in s.published <==> s.deliveries[j].fate == PublishedEvent))
    && (forall j :: 0 <= j < |s.deliveries| && s.deliveries[j].fate == PublishedEvent ==>
           s.deliveries[j].result != NoPreimage)
    && (forall j :: 0 <= j < |s.deliveries| && s.deliveries[j].fate == NotReported ==>
           s.deliveries[j].result == NoPreimage)
  }

  ghost predicate Orderly(s: State) {
    RegistrationsFresh(s) && OneEach(s) && DeliveriesLand(s) && ResultsHaveSource(s) && PublishedOnce(s)
  }

  // A step that neither sends nor receives, and takes no channel.
  ghost predicate LeavesChannels(s: State, t: State) {
    && |s.calls| <= |t.calls| && |s.deliveries| <= |t.deliveries|
    && (forall i :: 0 <= i < |s.calls| ==>
          && t.calls[i].hash == s.calls[i].hash
          && t.calls[i].channel == s.calls[i].channel
          && t.calls[i].received == s.calls[i].received)
    && (forall i :: |s.calls| <= i < |t.calls| ==> t.calls[i].channel == [] && t.calls[i].received == None)
    && (forall j :: 0 <= j < |s.deliveries| ==>
          if Receiver(s.deliveries[j]).Some? then t.deliveries[j] == s.deliveries[j]
          else Receiver(t.deliveries[j]) == None)
    && (forall j :: |s.deliveries| <= j < |t.deliveries| ==> Receiver(t.deliveries[j]) == None)
  }

  lemma {:induction false} ChannelsStayOrderly(s: State, t: State)
    requires OneEach(s) && DeliveriesLand(s) && ResultsHaveSource(s) && LeavesChannels(s, t)
    ensures OneEach(t) && DeliveriesLand(t)
  {
    forall j | 0 <= j < |t.deliveries| && Receiver(t.deliveries[j]).Some?
      ensures Lands(t, t.deliveries[j])
    {
      assert Lands(s, s.deliveries[j]);
    }
  }

  lemma {:induction false} SourcesStay(s: State, t: State)
    requires ResultsHaveSource(s) && LeavesChannels(s, t)
    ensures ResultsHaveSource(t)
  {
    forall i | 0 <= i < |t.calls| && (t.calls[i].channel != [] || t.calls[i].received.Some?)
      ensures exists j :: 0 <= j < |t.deliveries| && t.deliveries[j].fate == Delivered(i)
    {
      assert s.calls[i].channel != [] || s.calls[i].received.Some?;
      var j :| 0 <= j < |s.deliveries| && s.deliveries[j].fate == Delivered(i);
      assert t.deliveries[j].fate == Delivered(i);
    }
  }

  lemma {:induction false} StartStaysOrderly(s: State, hash: string)
    requires Orderly(s)
    ensures Orderly(Next(s, Start(hash)))
  {
    var t := Next(s, Start(hash));
    ChannelsStayOrderly(s, t);
    SourcesStay(s, t);
    assert forall j :: 0 <= j < |s.deliveries| && Receiver(s.deliveries[j]).Some? ==> Lands(s, s.deliveries[j]);
    assert RegistrationsFresh(t);
  }

  lemma {:induction false} PhaseStaysOrderly(s: State, i: nat, phase: CallPhase)
    requires Orderly(s) && i < |s.calls| && phase in {Blocked, Leaving}
    ensures Orderly(WithPhase(s, i, phase))
  {
    var t := WithPhase(s, i, phase);
    ChannelsStayOrderly(s, t);
    SourcesStay(s, t);
    assert RegistrationsFresh(t);
  }

  lemma {:induction false} ClearStaysOrderly(s: State, i: nat)
    requires Orderly(s) && Enabled(s, Clear(i))
    ensures Orderly(Next(s, Clear(i)))
  {
    var t := Next(s, Clear(i));
    ChannelsStayOrderly(s, t);
    SourcesStay(s, t);
    assert RegistrationsFresh(t);
  }

  lemma {:induction false} ArriveStaysOrderly(s: State, step: Step)
    requires Orderly(s) && step.Arrive?
    ensures Orderly(Next(s, step))
  {
    var t := Next(s, step);
    ChannelsStayOrderly(s, t);
    SourcesStay(s, t);
    assert RegistrationsFresh(t);
  }

  lemma {:induction false} ReceiveStaysOrderly(s: State, i: nat)
    requires Orderly(s) && Enabled(s, Receive(i))
    ensures Orderly(Next(s, Receive(i)))
  {
    var t := Next(s, Receive(i));
    var j :| 0 <= j < |s.deliveries| && s.deliveries[j].fate == Delivered(i);
    assert Lands(s, s.deliveries[j]);
    assert t.deliveries[j].fate == Delivered(i);
    assert DeliveriesLand(t);
    assert ResultsHaveSource(t);
  }

  lemma {:induction false} TakeKeepsSources(s: State, j: nat)
    requires ResultsHaveSource(s) && Enabled(s, Take(j))
    ensures ResultsHaveSource(Next(s, Take(j)))
  {
    var t := Next(s, Take(j));
    forall i | 0 <= i < |s.calls| && (s.calls[i].channel != [] || s.calls[i].received.Some?)
      ensures exists k :: 0 <= k < |t.deliveries| && t.deliveries[k].fate == Delivered(i)
    {
      var k :| 0 <= k < |s.deliveries| && s.deliveries[k].fate == Delivered(i);
      assert t.deliveries[k] == s.deliveries[k];
    }
  }

  lemma {:induction false} TakeFindsNobody(s: State, j: nat)
    requires Orderly(s) && Enabled(s, Take(j)) && s.deliveries[j].hash !in s.inflight
    ensures Orderly(Next(s, Take(j)))
  {
    var t := Next(s, Take(j));
    ChannelsStayOrderly(s, t);
    SourcesStay(s, t);
    assert RegistrationsFresh(t);
    UntakenStaysPublished(s, j);
  }

  lemma {:induction false} UntakenStaysPublished(s: State, j: nat)
    requires PublishedOnce(s) && Enabled(s, Take(j)) && s.deliveries[j].hash !in s.inflight
    ensures PublishedOnce(Next(s, Take(j)))
  {
    assert j !in s.published;
  }

  lemma {:induction false} TakeFindsWaiter(s: State, j: nat)
    requires Orderly(s) && Enabled(s, Take(j)) && s.deliveries[j].hash in s.inflight
    ensures Orderly(Next(s, Take(j)))
  {
    TakeKeepsSources(s, j);
    var t := Next(s, Take(j));
    var i := s.inflight[s.deliveries[j].hash];
    assert t.deliveries == s.deliveries[j := s.deliveries[j].(fate := Holding(i))];
    assert Lands(t, t.deliveries[j]);
    forall k | 0 <= k < |t.deliveries| && Receiver(t.deliveries[k]).Some?
      ensures Lands(t, t.deliveries[k])
    {
      if k != j {
        assert Lands(s, s.deliveries[k]);
      }
    }
  }

  lemma {:induction false} SendStaysOrderly(s: State, j: nat)
    requires Orderly(s) && Enabled(s, Send(j))
    ensures Orderly(Next(s, Send(j)))
  {
    var t := Next(s, Send(j));
    assert Lands(s, s.deliveries[j]);
    SendKeepsSources(s, j);
    SendLands(s, j);
    assert RegistrationsFresh(t);
    assert OneEach(t);
  }

  lemma {:induction false} SendKeepsSources(s: State, j: nat)
    requires ResultsHaveSource(s) && Enabled(s, Send(j))
    ensures ResultsHaveSource(Next(s, Send(j)))
  {
    var t := Next(s, Send(j));
    var i := s.deliveries[j].fate.call;
    assert t.deliveries[j].fate == Delivered(i);
    forall c | 0 <= c < |t.calls| && (t.calls[c].channel != [] || t.calls[c].received.Some?)
      ensures exists k :: 0 <= k < |t.deliveries| && t.deliveries[k].fate == Delivered(c)
    {
      if c != i {
        var k :| 0 <= k < |s.deliveries| && s.deliveries[k].fate == Delivered(c);
        assert t.deliveries[k] == s.deliveries[k];
      }
    }
  }

  lemma {:induction false} SendLands(s: State, j: nat)
    requires OneEach(s) && DeliveriesLand(s) && Enabled(s, Send(j))
    ensures DeliveriesLand(Next(s, Send(j)))
  {
    var t := Next(s, Send(j));
    assert Lands(s, s.deliveries[j]);
    forall k | 0 <= k < |t.deliveries| && Receiver(t.deliveries[k]).Some?
      ensures Lands(t, t.deliveries[k])
    {
      if k != j {
        assert Lands(s, s.deliveries[k]) && Receiver(s.deliveries[k]) != Receiver(s.deliveries[j]);
      }
    }
  }

  lemma {:induction false} StepStaysOrderly(s: State, step: Step)
    requires Orderly(s) && Enabled(s, step)
    ensures Orderly(Next(s, step))
  {
    match step
    case Start(hash) => StartStaysOrderly(s, hash);
    case PayFails(i) => PhaseStaysOrderly(s, i, Leaving);
    case PayStarts(i) => PhaseStaysOrderly(s, i, Blocked);
    case Receive(i) => ReceiveStaysOrderly(s, i);
    case Clear(i) => ClearStaysOrderly(s, i);
    case Arrive(_, _) => ArriveStaysOrderly(s, step);
    case Take(j) =>
      if s.deliveries[j].hash in s.inflight {
        TakeFindsWaiter(s, j);
      } else {
        TakeFindsNobody(s, j);
      }
    case Send(j) => SendStaysOrderly(s, j);
  }

  lemma {:induction false} PlayStaysOrderly(s: State, steps: seq<Step>)
    requires Orderly(s) && Play(s, steps).Some?
    ensures Orderly(Play(s, steps).value)
    decreases |steps|
  {
    if steps == [] {
    } else {
      StepStaysOrderly(s, steps[0]);
      PlayStaysOrderly(Next(s, steps[0]), steps[1..]);
    }
  }

  /** Whatever the interleaving, a channel taken out of the registry has room: delivering never blocks. */
  lemma {:induction false} DeliveryNeverBlocks(steps: seq<Step>, j: nat)
    requires Play(INITIAL, steps).Some?
    requires j < |Play(INITIAL, steps).value.deliveries| && Play(INITIAL, steps).value.deliveries[j].fate.Holding?
    ensures Enabled(Play(INITIAL, steps).value, Send(j))
  {
    PlayStaysOrderly(INITIAL, steps);
    var s := Play(INITIAL, steps).value;
    assert Lands(s, s.deliveries[j]);
  }

  /**
    Whatever the interleaving: two movements never reach the same call, a movement that reaches
    one is not published, a published one is published once, and only a success without a
    preimage is neither.
   */
  lemma {:induction false} EveryMovementGoesOnce(steps: seq<Step>)
    requires Play(INITIAL, steps).Some?
    ensures OneEach(Play(INITIAL, steps).value) && PublishedOnce(Play(INITIAL, steps).value)
  {
    PlayStaysOrderly(INITIAL, steps);
  }

  /** The result a call returns is that of a movement of its own hash, delivered to this call and not published. */
  lemma {:induction false} ResultsComeFromOwnHash(steps: seq<Step>, i: nat)
    requires Play(INITIAL, steps).Some?
    requires i < |Play(INITIAL, steps).value.calls| && Play(INITIAL, steps).value.calls[i].received.Some?
    ensures var s := Play(INITIAL, steps).value;
            exists j :: 0 <= j < |s.deliveries| && s.deliveries[j].fate == Delivered(i) && j !in s.published
                        && s.deliveries[j].hash == s.calls[i].hash
                        && Some(s.deliveries[j].result) == s.calls[i].received
  {
    PlayStaysOrderly(INITIAL, steps);
    var s := Play(INITIAL, steps).value;
    var j :| 0 <= j < |s.deliveries| && s.deliveries[j].fate == Delivered(i);
    assert Lands(s, s.deliveries[j]);
  }

  // ---------------------------------------------------------------- delivered results that nobody reads

  // A call that leaves without a result: its payment could not be started.
  predicate LeavesUnread(s: State, i: nat) {
    i < |s.calls| && (s.calls[i].phase == Leaving || s.calls[i].phase == Returned) && s.calls[i].received == None
  }

  // A call that has not left has received nothing.
  ghost predicate UnreadBeforeLeaving(s: State) {
    forall i :: 0 <= i < |s.calls| && s.calls[i].phase in {Refused, Registered, Blocked} ==> s.calls[i].received == None
  }

  // A refused call gets nothing.
  ghost predicate RefusedGetNothing(s: State) {
    forall j :: 0 <= j < |s.deliveries| && Receiver(s.deliveries[j]).Some? ==>
      var i := Receiver(s.deliveries[j]).value; i < |s.calls| && s.calls[i].phase != Refused
  }

  ghost predicate ReadsInOrder(s: State) {
    UnreadBeforeLeaving(s) && RefusedGetNothing(s)
  }

  lemma {:induction false} StepReadsInOrder(s: State, step: Step)
    requires RegistrationsFresh(s) && ReadsInOrder(s) && Enabled(s, step)
    ensures ReadsInOrder(Next(s, step))
  {
    StepUnreadBeforeLeaving(s, step);
    StepRefusedGetNothing(s, step);
  }

  lemma {:induction false} StepUnreadBeforeLeaving(s: State, step: Step)
    requires UnreadBeforeLeaving(s) && Enabled(s, step)
    ensures UnreadBeforeLeaving(Next(s, step))
  {
  }

  lemma {:induction false} StepRefusedGetNothing(s: State, step: Step)
    requires RegistrationsFresh(s) && RefusedGetNothing(s) && Enabled(s, step)
    ensures RefusedGetNothing(Next(s, step))
  {
  }

  lemma {:induction false} StepLeavesUnread(s: State, step: Step, i: nat)
    requires ReadsInOrder(s) && Enabled(s, step)
    ensures LeavesUnread(Next(s, step), i) <==> LeavesUnread(s, i) || step == PayFails(i)
  {
  }

  lemma {:induction false} PlayLeavesUnread(s: State, steps: seq<Step>, i: nat)
    requires Orderly(s) && ReadsInOrder(s) && Play(s, steps).Some?
    ensures ReadsInOrder(Play(s, steps).value)
    ensures LeavesUnread(Play(s, steps).value, i) <==> LeavesUnread(s, i) || PayFails(i) in steps
    decreases |steps|
  {
    if steps == [] {
    } else {
      StepStaysOrderly(s, steps[0]);
      StepReadsInOrder(s, steps[0]);
      StepLeavesUnread(s, steps[0], i);
      PlayLeavesUnread(Next(s, steps[0]), steps[1..], i);
      assert steps == [steps[0]] + steps[1..];
    }
  }

  /**
    A delivered result has been received or is there for its waiting call to receive, exactly when that
    call's payment did not fail to start; otherwise nobody ever reads it, and it is not published either.
   */
  lemma {:induction false} DeliveredIsReadIff(steps: seq<Step>, j: nat, i: nat)
    requires Play(INITIAL, steps).Some?
    requires var s := Play(INITIAL, steps).value; j < |s.deliveries| && s.deliveries[j].fate == Delivered(i)
    ensures var s := Play(INITIAL, steps).value;
            && i < |s.calls| && j !in s.published
            && (PayFails(i) !in steps <==>
                  s.calls[i].received == Some(s.deliveries[j].result) || (Waits(s, i) && s.calls[i].channel == [s.deliveries[j].result]))
  {
    PlayStaysOrderly(INITIAL, steps);
    PlayLeavesUnread(INITIAL, steps, i);
    var s := Play(INITIAL, steps).value;
    assert Lands(s, s.deliveries[j]);
  }

  /** What a call leaves unread stays unread, whatever comes after. */
  lemma {:induction false} UnreadForEver(steps: seq<Step>, more: seq<Step>, i: nat)
    requires Play(INITIAL, steps).Some? && Play(Play(INITIAL, steps).value, more).Some?
    requires PayFails(i) in steps
    ensures LeavesUnread(Play(Play(INITIAL, steps).value, more).value, i)
  {
    PlayStaysOrderly(INITIAL, steps);
    PlayLeavesUnread(INITIAL, steps, i);
    PlayLeavesUnread(Play(INITIAL, steps).value, more, i);
  }

  // ---------------------------------------------------------------- waiting calls are reached

  predicate Waits(s: State, i: nat) {
    i < |s.calls| && s.calls[i].phase in {Registered, Blocked}
  }

  // The call is registered, has its result, or a delivery holds its channel.
  ghost predicate WithinReach(s: State, i: nat)
    requires i < |s.calls|
  {
    || (s.calls[i].hash in s.inflight && s.inflight[s.calls[i].hash] == i)
    || s.calls[i].channel != []
    || exists j :: 0 <= j < |s.deliveries| && s.deliveries[j].fate == Holding(i)
  }

  ghost predicate NoneStranded(s: State) {
    forall i :: 0 <= i < |s.calls| && Waits(s, i) ==> WithinReach(s, i)
  }

  // A call that clears its hash does not find another waiting call registered there.
  predicate ClearsNobodyElse(s: State, step: Step)
    requires Enabled(s, step)
  {
    step.Clear? && s.calls[step.call].hash in s.inflight ==>
      var registered := s.inflight[s.calls[step.call].hash];
      registered == step.call || !Waits(s, registered)
  }

  lemma {:induction false} StepStrandsNone(s: State, step: Step)
    requires Orderly(s) && NoneStranded(s) && Enabled(s, step) && ClearsNobodyElse(s, step)
    ensures NoneStranded(Next(s, step))
  {
    var t := Next(s, step);
    forall i: nat | i < |t.calls| && Waits(t, i)
      ensures WithinReach(t, i)
    {
      if i < |s.calls| {
        assert Waits(s, i) && WithinReach(s, i);
        StillWithinReach(s, step, i);
      }
    }
  }

  lemma {:induction false} StillWithinReach(s: State, step: Step, i: nat)
    requires Orderly(s) && Enabled(s, step) && ClearsNobodyElse(s, step)
    requires i < |s.calls| && Waits(s, i) && WithinReach(s, i) && Waits(Next(s, step), i)
    ensures WithinReach(Next(s, step), i)
  {
    if j :| 0 <= j < |s.deliveries| && s.deliveries[j].fate == Holding(i) {
      HeldStaysReached(s, step, i, j);
    } else if s.calls[i].hash in s.inflight && s.inflight[s.calls[i].hash] == i {
      RegisteredStaysReached(s, step, i);
    }
  }

  lemma {:induction false} HeldStaysReached(s: State, step: Step, i: nat, j: nat)
    requires Enabled(s, step) && i < |s.calls| && j < |s.deliveries| && s.deliveries[j].fate == Holding(i)
    ensures WithinReach(Next(s, step), i)
  {
    var t := Next(s, step);
    if step != Send(j) {
      assert t.deliveries[j].fate == Holding(i);
    }
  }

  lemma {:induction false} RegisteredStaysReached(s: State, step: Step, i: nat)
    requires RegistrationsFresh(s) && Enabled(s, step) && ClearsNobodyElse(s, step) && Waits(Next(s, step), i)
    requires Waits(s, i) && s.calls[i].hash in s.inflight && s.inflight[s.calls[i].hash] == i
    ensures WithinReach(Next(s, step), i)
  {
    var t := Next(s, step);
    if step.Take? && s.deliveries[step.delivery].hash == s.calls[i].hash {
      assert t.deliveries[step.delivery].fate == Holding(i);
    }
  }

  /**
    A step leaves a waiting call out of reach exactly when it clears a registration that another waiting call has made
    since.
   */
  lemma {:induction false} StrandsNoneIff(s: State, step: Step)
    requires Orderly(s) && NoneStranded(s) && Enabled(s, step)
    ensures NoneStranded(Next(s, step)) <==> ClearsNobodyElse(s, step)
  {
    if ClearsNobodyElse(s, step) {
      StepStrandsNone(s, step);
    } else {
      var k := s.inflight[s.calls[step.call].hash];
      assert s.calls[k].hash == s.calls[step.call].hash;
      var t := Next(s, step);
      assert forall j :: 0 <= j < |s.deliveries| ==> Receiver(s.deliveries[j]) != Some(k);
      assert t.deliveries == s.deliveries;
      assert Waits(t, k) && !WithinReach(t, k);
    }
  }

  // Between its registration and its return a call is active.
  predicate Active(s: State, i: nat) {
    i < |s.calls| && s.calls[i].phase in {Registered, Blocked, Leaving}
  }

  // Nobody starts a send while another call for the hash is active.
  ghost predicate StartsAlone(s: State, step: Step) {
    step.Start? ==> forall i :: 0 <= i < |s.calls| && s.calls[i].hash == step.hash ==> !Active(s, i)
  }

  ghost predicate PlaysAlone(s: State, steps: seq<Step>)
    decreases |steps|
  {
    steps == [] || (Enabled(s, steps[0]) && StartsAlone(s, steps[0]) && PlaysAlone(Next(s, steps[0]), steps[1..]))
  }

  ghost predicate OneActive(s: State) {
    forall i, k :: 0 <= i < k < |s.calls| && Active(s, i) && Active(s, k) ==> s.calls[i].hash != s.calls[k].hash
  }

  lemma {:induction false} StepKeepsOneActive(s: State, step: Step)
    requires Enabled(s, step) && OneActive(s) && StartsAlone(s, step)
    ensures OneActive(Next(s, step))
  {
    var t := Next(s, step);
    forall i: nat | i < |s.calls|
      ensures t.calls[i].hash == s.calls[i].hash && (Active(t, i) ==> Active(s, i))
    {
    }
  }

  lemma {:induction false} PlayStrandsNone(s: State, steps: seq<Step>)
    requires Orderly(s) && NoneStranded(s) && OneActive(s) && PlaysAlone(s, steps)
    ensures Play(s, steps).Some? && NoneStranded(Play(s, steps).value)
    decreases |steps|
  {
    if steps == [] {
    } else {
      StepStaysOrderly(s, steps[0]);
      StepKeepsOneActive(s, steps[0]);
      StepStrandsNone(s, steps[0]);
      PlayStrandsNone(Next(s, steps[0]), steps[1..]);
    }
  }

  /** With one active send for each hash, a blocked call is registered, has its result, or is about to be sent it. */
  lemma {:induction false} BlockedCallsAreReached(steps: seq<Step>, i: nat)
    requires PlaysAlone(INITIAL, steps) && Play(INITIAL, steps).Some?
    requires i < |Play(INITIAL, steps).value.calls| && Play(INITIAL, steps).value.calls[i].phase == Blocked
    ensures WithinReach(Play(INITIAL, steps).value, i)
  {
    PlayStrandsNone(INITIAL, steps);
    assert Waits(Play(INITIAL, steps).value, i);
  }

  lemma {:induction false} PlayOn(s: State, step: Step, rest: seq<Step>)
    requires Enabled(s, step)
    ensures Play(s, [step] + rest) == Play(Next(s, step), rest)
  {
    assert ([step] + rest)[1..] == rest;
  }

  // A call has received its result and is about to clear its hash.
  function AnsweredState(hash: string, result: SendResult): State {
    State([Call(hash, Leaving, [], Some(result))], [Delivery(hash, result, Delivered(0))], map[], [])
  }

  // A call waits for the movement that has arrived for it.
  function AwaitedState(hash: string, result: SendResult): State {
    State([Call(hash, Blocked, [], None)], [Delivery(hash, result, Arrived)], map[hash := 0], [])
  }

  lemma {:induction false} SendIsAwaited(hash: string, result: SendResult, rest: seq<Step>)
    ensures Play(INITIAL, [Start(hash)] + ([PayStarts(0)] + ([Arrive(hash, result)] + rest)))
            == Play(AwaitedState(hash, result), rest)
  {
    var s1 := Next(INITIAL, Start(hash));
    var s2 := Next(s1, PayStarts(0));
    assert s2.calls == [Call(hash, Blocked, [], None)];
    assert Next(s2, Arrive(hash, result)) == AwaitedState(hash, result);
    PlayOn(s2, Arrive(hash, result), rest);
    PlayOn(s1, PayStarts(0), [Arrive(hash, result)] + rest);
    PlayOn(INITIAL, Start(hash), [PayStarts(0)] + ([Arrive(hash, result)] + rest));
  }

  lemma {:induction false} AwaitedIsAnswered(hash: string, result: SendResult, rest: seq<Step>)
    ensures Play(AwaitedState(hash, result), [Take(0)] + ([Send(0)] + ([Receive(0)] + rest)))
            == Play(AnsweredState(hash, result), rest)
  {
    var s4 := Next(AwaitedState(hash, result), Take(0));
    assert s4.deliveries == [Delivery(hash, result, Holding(0))] && s4.inflight == map[];
    var s5 := Next(s4, Send(0));
    assert s5 == State([Call(hash, Blocked, [result], None)], [Delivery(hash, result, Delivered(0))], map[], []);
    assert [result][1..] == [] && Next(s5, Receive(0)).calls == [Call(hash, Leaving, [], Some(result))];
    PlayOn(s5, Receive(0), rest);
    PlayOn(s4, Send(0), [Receive(0)] + rest);
    PlayOn(AwaitedState(hash, result), Take(0), [Send(0)] + ([Receive(0)] + rest));
  }

  lemma {:induction false} SendIsAnswered(hash: string, result: SendResult, rest: seq<Step>)
    ensures Play(INITIAL, [Start(hash), PayStarts(0), Arrive(hash, result), Take(0), Send(0), Receive(0)] + rest)
            == Play(AnsweredState(hash, result), rest)
  {
    var second := [Take(0)] + ([Send(0)] + ([Receive(0)] + rest));
    SendIsAwaited(hash, result, second);
    AwaitedIsAnswered(hash, result, rest);
    assert [Start(hash)] + ([PayStarts(0)] + ([Arrive(hash, result)] + second))
        == [Start(hash), PayStarts(0), Arrive(hash, result), Take(0), Send(0), Receive(0)] + rest;
  }

  /**
    A second send may register once the first has its result but has not yet cleared its
    hash; the first's clearing then removes the second's registration, and the second's
    result is published while it waits for ever.
   */
  lemma {:induction false} SecondSendIsStranded(hash: string, first: SendResult, second: SendResult)
    requires second != NoPreimage
    ensures var steps := [Start(hash), PayStarts(0), Arrive(hash, first), Take(0), Send(0), Receive(0)]
                         + [Start(hash), PayStarts(1), Clear(0), Arrive(hash, second), Take(1)];
            var s := Play(INITIAL, steps);
            && s.Some?
            && |s.value.calls| == 2
            && s.value.calls[1].phase == Blocked
            && !WithinReach(s.value, 1)
            && s.value.published == [1]
  {
    var s6 := AnsweredState(hash, first);
    var s7 := Next(s6, Start(hash));
    var s8 := Next(s7, PayStarts(1));
    var s9 := Next(s8, Clear(0));
    var s10 := Next(s9, Arrive(hash, second));
    var s11 := Next(s10, Take(1));
    var r10 := [Take(1)] + [];
    PlayOn(s10, Take(1), []);
    var r9 := [Arrive(hash, second)] + r10;
    PlayOn(s9, Arrive(hash, second), r10);
    var r8 := [Clear(0)] + r9;
    PlayOn(s8, Clear(0), r9);
    var r7 := [PayStarts(1)] + r8;
    PlayOn(s7, PayStarts(1), r8);
    PlayOn(s6, Start(hash), r7);
    assert [Start(hash)] + r7 == [Start(hash), PayStarts(1), Clear(0), Arrive(hash, second), Take(1)];
    SendIsAnswered(hash, first, [Start(hash), PayStarts(1), Clear(0), Arrive(hash, second), Take(1)]);
    assert Play(s11, []) == Some(s11);
  }
}
