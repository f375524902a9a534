/** The non-blocking fan-out of registry events, and what each subscriber is guaranteed to see. */
module EventHub {
  import opened Wrappers
  import opened Replay

  const BUFFER_SIZE: nat := 64

  /**
   * One subscriber: `buffer` is its channel, which may be sent to or closed only while it is open.
   * Ghosts: `start` counts the broadcasts before it subscribed, `received` is what it has taken out,
   * `closes` how often its channel was closed.
   */
  class Subscriber {
    var buffer: seq<Event>
    var open: bool
    var closed: bool
    ghost const start: nat
    ghost var received: seq<Event>
    ghost var closes: nat

    constructor (ghost start: nat)
      ensures buffer == [] && open && !closed && this.start == start && received == [] && closes == 0
    {
      buffer, open, closed := [], true, false;
      this.start := start;
      received, closes := [], 0;
    }

    /** What has come through the channel so far. */
    ghost function Seen(): seq<Event>
      reads this
    {
      received + buffer
    }

    method TrySend(ev: Event) returns (sent: bool)
      requires open
      modifies `buffer
      ensures sent == (|old(buffer)| < BUFFER_SIZE)
      ensures buffer == if sent then old(buffer) + [ev] else old(buffer)
    {
      sent := |buffer| < BUFFER_SIZE;
      if sent {
        buffer := buffer + [ev];
      }
    }

    method CloseChannel()
      requires open
      modifies `open, `closes
      ensures !open && closes == old(closes) + 1
    {
      open := false;
      closes := closes + 1;
    }

    /** The client takes the next event; None when there is none to take yet or ever again. */
    method Receive() returns (ev: Option<Event>)
      modifies `buffer, `received
      ensures Seen() == old(Seen())
      ensures |buffer| <= |old(buffer)|
      ensures ev == if old(buffer) == [] then None else Some(old(buffer)[0])
      ensures ev.Some? ==> received == old(received) + [ev.value]
    {
      if buffer == [] {
        return None;
      }
      ev := Some(buffer[0]);
      assert received + buffer == (received + [buffer[0]]) + buffer[1..];
      received, buffer := received + [buffer[0]], buffer[1..];
    }
  }

  class Hub {
    var subs: set<Subscriber>
    ghost var all: set<Subscriber>
    ghost var history: seq<Event>

    /** A gapless stretch of the broadcasts from the subscription on; to this day while still subscribed. */
    ghost predicate InStep(s: Subscriber)
      reads this, s
    {
      && s.start + |s.Seen()| <= |history|
      && s.Seen() == history[s.start..s.start + |s.Seen()|]
      && |s.buffer| <= BUFFER_SIZE
      && s.open == !s.closed == (s in subs)
      && s.closes == (if s.closed then 1 else 0)
      && (s in subs ==> s.start + |s.Seen()| == |history|)
    }

    ghost predicate Valid()
      reads this, all
    {
      && subs <= all
      && forall s | s in all :: InStep(s)
    }

    constructor ()
      ensures Valid() && all == {} && history == []
    {
      subs, all, history := {}, {}, [];
    }

    method Subscribe() returns (sub: Subscriber)
      requires Valid()
      modifies this
      ensures Valid() && fresh(sub) && sub in subs
      ensures subs == old(subs) + {sub} && all == old(all) + {sub} && history == old(history)
      ensures sub.start == |history| && sub.Seen() == []
    {
      sub := new Subscriber(|history|);
      subs := subs + {sub};
      all := all + {sub};
      assert forall s | s in all && s != sub :: old(InStep(s)) && s.Seen() == old(s.Seen());
    }

    method Drop(sub: Subscriber)
      requires sub in subs ==> sub.open == !sub.closed
      modifies this`subs, sub`open, sub`closed, sub`closes
      ensures subs == old(subs) - {sub}
      ensures if sub in old(subs) && !old(sub.closed)
        then sub.closed && !sub.open && sub.closes == old(sub.closes) + 1
        else sub.closed == old(sub.closed) && sub.open == old(sub.open) && sub.closes == old(sub.closes)
    {
      if sub !in subs {
        return;
      }
      subs := subs - {sub};
      if !sub.closed {
        sub.closed := true;
        sub.CloseChannel();
      }
    }

    /** The unsubscribe function handed out with the subscription; calling it again does nothing. */
    method Unsubscribe(sub: Subscriber)
      requires Valid() && sub in all
      modifies this`subs, sub
      ensures Valid() && all == old(all) && history == old(history)
      ensures subs == old(subs) - {sub} && sub.closed && sub.Seen() == old(sub.Seen())
      ensures sub.closes == 1
    {
      assert InStep(sub);
      Drop(sub);
      assert forall s | s in all && s != sub :: old(InStep(s)) && s.Seen() == old(s.Seen());
    }

    /** One subscriber's share of a broadcast. */
    method Offer(sub: Subscriber, ev: Event)
      requires sub in subs && sub.open && !sub.closed
      modifies this`subs, sub
      ensures sub.received == old(sub.received)
      ensures |old(sub.buffer)| < BUFFER_SIZE ==>
          subs == old(subs) && sub.buffer == old(sub.buffer) + [ev] && sub.open && !sub.closed && sub.closes == old(sub.closes)
      ensures |old(sub.buffer)| >= BUFFER_SIZE ==>
          subs == old(subs) - {sub} && sub.buffer == old(sub.buffer)
          && !sub.open && sub.closed && sub.closes == old(sub.closes) + 1
    {
      var sent := sub.TrySend(ev);
      if !sent {
        Drop(sub);
      }
    }

    method OfferAll(ev: Event)
      requires forall s | s in subs :: s.open && !s.closed
      modifies this`subs, subs
      ensures subs == (set s | s in old(subs) && |old(s.buffer)| < BUFFER_SIZE)
      ensures forall s | s in old(subs) :: s.received == old(s.received)
      ensures forall s | s in subs ::
          s.buffer == old(s.buffer) + [ev] && s.open && !s.closed && s.closes == old(s.closes)
      ensures forall s | s in old(subs) && s !in subs ::
          s.buffer == old(s.buffer) && !s.open && s.closed && s.closes == old(s.closes) + 1
    {
      var rest := subs;
      while rest != {}
        invariant rest <= old(subs)
        invariant subs == (set s | s in old(subs) && (s in rest || |old(s.buffer)| < BUFFER_SIZE))
        invariant forall s | s in old(subs) :: s.received == old(s.received)
        invariant forall s | s in rest ::
            s.buffer == old(s.buffer) && s.open && !s.closed && s.closes == old(s.closes)
        invariant forall s | s in subs && s !in rest ::
            s.buffer == old(s.buffer) + [ev] && s.open && !s.closed && s.closes == old(s.closes)
        invariant forall s | s in old(subs) && s !in subs ::
            s.buffer == old(s.buffer) && !s.open && s.closed && s.closes == old(s.closes) + 1
        decreases rest
      {
        var sub :| sub in rest;
        Offer(sub, ev);
        rest := rest - {sub};
      }
    }

    /** Sends to everybody with room, and drops exactly those whose buffer is full. */
    method Broadcast(ev: Event)
      requires Valid()
      modifies this, subs
      ensures Valid() && all == old(all) && history == old(history) + [ev]
      ensures subs == (set s | s in old(subs) && |old(s.buffer)| < BUFFER_SIZE)
      ensures forall s | s in old(subs) :: s.received == old(s.received)
      ensures forall s | s in subs :: s.buffer == old(s.buffer) + [ev]
      ensures forall s | s in old(subs) && s !in subs :: s.buffer == old(s.buffer) && s.closed
    {
      assert forall s | s in subs :: InStep(s);
      OfferAll(ev);
      history := history + [ev];
      forall s | s in all
        ensures InStep(s)
      {
        assert old(InStep(s));
        if s in subs {
          assert s.Seen() == old(s.Seen()) + [ev];
        } else {
          assert s.Seen() == old(s.Seen());
        }
      }
    }

    /** A subscriber takes an event out; nobody else notices. */
    method Take(sub: Subscriber) returns (ev: Option<Event>)
      requires Valid() && sub in all
      modifies sub
      ensures Valid() && sub.Seen() == old(sub.Seen())
      ensures ev == if old(sub.buffer) == [] then None else Some(old(sub.buffer)[0])
      ensures ev.Some? ==> sub.received == old(sub.received) + [ev.value]
    {
      assert InStep(sub);
      ev := sub.Receive();
      assert forall s | s in all && s != sub :: old(InStep(s)) && s.Seen() == old(s.Seen());
    }
  }
}
