/**
  The event publisher with its list of listeners, and the listener by which the payer of
  a self-paid hold invoice is woken.
 */
module Events {
  import opened Ledger
  import opened LedgerSteps

  function Copies<T>(n: nat, x: T): seq<T> {
    seq(n, _ => x)
  }

  // A channel after a row has been sent on it, or not.
  function Sent(channel: seq<Row>, sending: bool, row: Row): seq<Row> {
    if sending then channel + [row] else channel
  }

  predicate SettlesRequest(event: Event, row: Row, request: string) {
    event.PaymentReceived? && row.paymentRequest == request
  }

  predicate CancelsRequest(event: Event, row: Row, request: string) {
    event.HoldInvoiceCanceled? && row.paymentRequest == request
  }

  // The channels hold what has been sent on them.
  class HoldInvoiceConsumer {
    const paymentRequest: string
    var settledChannel: seq<Row>
    var canceledChannel: seq<Row>

    constructor (paymentRequest: string)
      ensures this.paymentRequest == paymentRequest && settledChannel == [] && canceledChannel == []
    {
      this.paymentRequest := paymentRequest;
      settledChannel, canceledChannel := [], [];
    }

    method ConsumeEvent(event: Event, row: Row)
      modifies this
      ensures settledChannel == Sent(old(settledChannel), SettlesRequest(event, row, paymentRequest), row)
      ensures canceledChannel == Sent(old(canceledChannel), CancelsRequest(event, row, paymentRequest), row)
    {
      if event.PaymentReceived? && row.paymentRequest == paymentRequest {
        settledChannel := settledChannel + [row];
      }
      if event.HoldInvoiceCanceled? && row.paymentRequest == paymentRequest {
        canceledChannel := canceledChannel + [row];
      }
    }
  }

  // A call of a listener that has been started and not yet run.
  datatype Delivery = Delivery(listener: HoldInvoiceConsumer, event: Event, row: Row)

  class EventPublisher {
    var listeners: seq<HoldInvoiceConsumer>
    var started: multiset<Delivery>

    constructor ()
      ensures listeners == [] && started == multiset{}
    {
      listeners, started := [], multiset{};
    }

    method RegisterSubscriber(listener: HoldInvoiceConsumer)
      modifies `listeners
      ensures listeners == old(listeners) + [listener]
    {
      listeners := listeners + [listener];
    }

    /** Removes one registration of the listener, if there is one, and no other. */
    method RemoveSubscriber(listenerToRemove: HoldInvoiceConsumer)
      modifies `listeners
      ensures multiset(listeners) == multiset(old(listeners)) - multiset{listenerToRemove}
    {
      for i := 0 to |listeners|
        invariant listeners == old(listeners)
        invariant listenerToRemove !in listeners[..i]
      {
        if listeners[i] == listenerToRemove {
          SwapRemoves(listeners, i);
          listeners := SwapRemoved(listeners, i);
          return;
        }
      }
      AbsentIsNoLoss(listeners, listenerToRemove);
    }

    /**
      Published synchronously, each listener gets the event once for every registration, in the channel it is for, and
      nothing else.
     */
    method PublishSync(event: Event, row: Row)
      modifies set listener | listener in listeners
      ensures forall l :: l in listeners ==>
                && l.settledChannel == old(l.settledChannel) + Copied(event.PaymentReceived?, row, l, listeners)
                && l.canceledChannel == old(l.canceledChannel) + Copied(event.HoldInvoiceCanceled?, row, l, listeners)
    {
      for i := 0 to |listeners|
        invariant forall l :: l in listeners ==>
                    && l.settledChannel == old(l.settledChannel) + Copied(event.PaymentReceived?, row, l, listeners[..i])
                    && l.canceledChannel == old(l.canceledChannel) + Copied(event.HoldInvoiceCanceled?, row, l, listeners[..i])
      {
        AllCopiedNext(event, row, listeners, i);
        listeners[i].ConsumeEvent(event, row);
      }
      assert listeners[..|listeners|] == listeners;
    }

    /** Otherwise one call of the listener is started for every registration, to run whenever it does. */
    method Publish(event: Event, row: Row)
      modifies `started
      ensures forall d: Delivery :: started[d] == old(started)[d]
                + if d.event == event && d.row == row then multiset(listeners)[d.listener] else 0
    {
      for i := 0 to |listeners|
        invariant forall d: Delivery ::
                    started[d] == old(started)[d]
                      + if d.event == event && d.row == row then multiset(listeners[..i])[d.listener] else 0
      {
        assert listeners[..i + 1] == listeners[..i] + [listeners[i]];
        started := started + multiset{Delivery(listeners[i], event, row)};
      }
      assert listeners[..|listeners|] == listeners;
    }

    method RunStarted(d: Delivery)
      requires d in started
      modifies `started, d.listener
      ensures started == old(started) - multiset{d}
      ensures d.listener.settledChannel
           == Sent(old(d.listener.settledChannel), SettlesRequest(d.event, d.row, d.listener.paymentRequest), d.row)
      ensures d.listener.canceledChannel
           == Sent(old(d.listener.canceledChannel), CancelsRequest(d.event, d.row, d.listener.paymentRequest), d.row)
    {
      started := started - multiset{d};
      d.listener.ConsumeEvent(d.event, d.row);
    }
  }

  // What publishing an event about a row adds to a channel meant for it.
  function Copied(meant: bool, row: Row, l: HoldInvoiceConsumer, listeners: seq<HoldInvoiceConsumer>): seq<Row> {
    Copies(if meant && row.paymentRequest == l.paymentRequest then multiset(listeners)[l] else 0, row)
  }

  lemma {:induction false} AbsentIsNoLoss<T>(s: seq<T>, x: T)
    requires x !in s[..|s|]
    ensures multiset(s) - multiset{x} == multiset(s)
  {
    assert s[..|s|] == s;
    assert x !in multiset(s);
  }

  lemma {:induction false} AllCopiedNext(event: Event, row: Row, listeners: seq<HoldInvoiceConsumer>, i: nat)
    requires i < |listeners|
    ensures forall l :: l in listeners ==>
              && CopiedNext(event.PaymentReceived?, row, l, listeners, i)
              && CopiedNext(event.HoldInvoiceCanceled?, row, l, listeners, i)
  {
    forall l | l in listeners
      ensures CopiedNext(event.PaymentReceived?, row, l, listeners, i)
      ensures CopiedNext(event.HoldInvoiceCanceled?, row, l, listeners, i)
    {
      CopiedToNext(event.PaymentReceived?, row, l, listeners, i);
      CopiedToNext(event.HoldInvoiceCanceled?, row, l, listeners, i);
    }
  }

  // The last element takes the place of the removed one.
  function SwapRemoved<T>(s: seq<T>, i: nat): seq<T>
    requires i < |s|
  {
    s[i := s[|s| - 1]][..|s| - 1]
  }

  lemma {:induction false} SwapRemoves<T>(s: seq<T>, i: nat)
    requires i < |s|
    ensures multiset(SwapRemoved(s, i)) == multiset(s) - multiset{s[i]}
  {
    var last := |s| - 1;
    if i == last {
      assert SwapRemoved(s, i) == s[..last] && s == s[..last] + [s[last]];
    } else {
      assert SwapRemoved(s, i) == s[..i] + [s[last]] + s[i + 1..last];
      assert s == s[..i] + [s[i]] + s[i + 1..last] + [s[last]];
      MiddleSwapped(s[..i], s[i], s[i + 1..last], s[last]);
    }
  }

  lemma {:induction false} MiddleSwapped<T>(a: seq<T>, x: T, b: seq<T>, y: T)
    ensures multiset(a + [y] + b) == multiset(a + [x] + b + [y]) - multiset{x}
  {
    assert multiset(a + [y] + b) == multiset(a) + multiset{y} + multiset(b);
    assert multiset(a + [x] + b + [y]) == multiset(a) + multiset{x} + multiset(b) + multiset{y};
  }

  predicate CopiedNext(meant: bool, row: Row, l: HoldInvoiceConsumer, listeners: seq<HoldInvoiceConsumer>, i: nat)
    requires i < |listeners|
  {
    Copied(meant, row, l, listeners[..i + 1])
    == Sent(Copied(meant, row, l, listeners[..i]),
            listeners[i] == l && meant && row.paymentRequest == l.paymentRequest, row)
  }

  lemma {:induction false} CopiedToNext(meant: bool, row: Row, l: HoldInvoiceConsumer,
                                        listeners: seq<HoldInvoiceConsumer>, i: nat)
    requires i < |listeners|
    ensures CopiedNext(meant, row, l, listeners, i)
  {
    assert listeners[..i + 1] == listeners[..i] + [listeners[i]];
  }
}
