/** The engine as the object it is: waiters and timers on the heap, mutated in place under its lock. */
module AdmissionEngine {
  import opened Wrappers
  import opened Targets
  import opened AdmissionModel
  import opened AdmissionSystem
  import opened QueueIndex
  import opened ScheduleSpec
  import opened Gates

  class Waiter {
    ghost const ticket: nat
    var req: Request
    var state: WaiterState
    var connected: bool
    var lastDetach: Option<Time>
    var ch: Option<Verdict>

    constructor (req: Request, ghost ticket: nat)
      ensures View() == WaiterView(req, Queued, false, None, None) && this.ticket == ticket
    {
      this.ticket := ticket;
      this.req := req;
      state := Queued;
      connected := false;
      lastDetach := None;
      ch := None;
    }

    function View(): WaiterView
      reads this
    {
      WaiterView(req, state, connected, lastDetach, ch)
    }

    /** A re-poll: late request fields arrive, state and buffered verdict stay. */
    method Refresh(req: Request)
      modifies this
      ensures View() == AdmissionModel.Refresh(old(View()), req)
    {
      if req.pid != 0 {
        this.req := this.req.(pid := req.pid);
      }
      if req.targets != "" {
        this.req := this.req.(targets := req.targets);
      }
      if req.worktree != "" {
        this.req := this.req.(worktree := req.worktree);
      }
      connected := true;
    }

    method Detach(now: Time)
      modifies this
      ensures View() == old(View()).(connected := false, lastDetach := Some(now))
    {
      connected := false;
      lastDetach := Some(now);
    }

    /** deliver: a send that gives up when the slot is full. */
    method Deliver(v: Verdict)
      modifies this
      ensures View() == AdmissionModel.Deliver(old(View()), v)
    {
      if ch.None? {
        ch := Some(v);
      }
    }

    /** A non-blocking receive. */
    method Receive() returns (v: Option<Verdict>)
      modifies this
      ensures v == old(ch) && View() == old(View()).(buffer := None)
    {
      v := ch;
      ch := None;
    }

    /** The waiter's state changes and it is told. */
    method Conclude(state: WaiterState, v: Verdict)
      modifies this
      ensures View() == AdmissionModel.Deliver(old(View()), v).(state := state)
    {
      this.state := state;
      Deliver(v);
    }

    method Become(state: WaiterState)
      modifies this
      ensures View() == old(View()).(state := state)
    {
      this.state := state;
    }
  }

  class Timer {
    ghost const handle: nat
    const id: string
    const delay: int
    var live: bool

    constructor (id: string, delay: int, ghost handle: nat)
      ensures View() == TimerView(id, delay, true) && this.handle == handle
    {
      this.handle := handle;
      this.id := id;
      this.delay := delay;
      live := true;
    }

    function View(): TimerView
      reads this
    {
      TimerView(id, delay, live)
    }

    method Stop()
      modifies this
      ensures View() == old(View()).(live := false)
    {
      live := false;
    }
  }

  function WaiterViews(ws: seq<Waiter>): (vs: seq<WaiterView>)
    reads ws
    ensures |vs| == |ws| && forall i | 0 <= i < |ws| :: vs[i] == ws[i].View()
  {
    if ws == [] then [] else WaiterViews(ws[..|ws| - 1]) + [ws[|ws| - 1].View()]
  }

  function TimerViews(ts: seq<Timer>): (vs: seq<TimerView>)
    reads ts
    ensures |vs| == |ts| && forall i | 0 <= i < |ts| :: vs[i] == ts[i].View()
  {
    if ts == [] then [] else TimerViews(ts[..|ts| - 1]) + [ts[|ts| - 1].View()]
  }

  ghost function TicketsOf(ws: seq<Waiter>): (ts: seq<nat>)
    ensures |ts| == |ws|
  {
    seq(|ws|, i requires 0 <= i < |ws| => ws[i].ticket)
  }

  ghost function TicketIndex(m: map<string, Waiter>): map<string, nat> {
    map id | id in m :: m[id].ticket
  }

  ghost function HandleIndex(m: map<string, Timer>): map<string, nat> {
    map id | id in m :: m[id].handle
  }

  lemma TicketsAppend(ws: seq<Waiter>, w: Waiter)
    ensures TicketsOf(ws + [w]) == TicketsOf(ws) + [w.ticket]
  {
  }

  lemma IndexUpdate(m: map<string, Waiter>, id: string, w: Waiter)
    ensures TicketIndex(m[id := w]) == TicketIndex(m)[id := w.ticket]
  {
  }

  lemma IndexRemoval(m: map<string, Waiter>, id: string)
    ensures TicketIndex(m - {id}) == TicketIndex(m) - {id}
    ensures id in TicketIndex(m) <==> id in m
    ensures id in m ==> TicketIndex(m)[id] == m[id].ticket
  {
  }

  lemma HandleUpdate(m: map<string, Timer>, id: string, t: Timer)
    ensures HandleIndex(m[id := t]) == HandleIndex(m)[id := t.handle]
  {
  }

  lemma HandleRemoval(m: map<string, Timer>, id: string)
    ensures HandleIndex(m - {id}) == HandleIndex(m) - {id}
    ensures id in HandleIndex(m) <==> id in m
    ensures id in m ==> HandleIndex(m)[id] == m[id].handle
  {
  }

  /** Each waiter stands at its own ticket. */
  ghost predicate Numbered(created: seq<Waiter>) {
    forall t | 0 <= t < |created| :: created[t].ticket == t
  }

  ghost predicate Known(created: seq<Waiter>, w: Waiter) {
    w.ticket < |created| && created[w.ticket] == w
  }

  ghost predicate AllKnown(created: seq<Waiter>, queue: seq<Waiter>, byID: map<string, Waiter>) {
    && (forall i | 0 <= i < |queue| :: Known(created, queue[i]))
    && (forall id | id in byID :: Known(created, byID[id]))
  }

  lemma NewcomerKnown(created: seq<Waiter>, queue: seq<Waiter>, byID: map<string, Waiter>, id: string, w: Waiter)
    requires Numbered(created) && AllKnown(created, queue, byID) && w.ticket == |created|
    ensures Numbered(created + [w]) && AllKnown(created + [w], queue + [w], byID[id := w])
  {
    forall v | Known(created, v)
      ensures Known(created + [w], v)
    {
    }
  }

  ghost predicate TimersKnown(armed: seq<Timer>, m: map<string, Timer>) {
    && (forall h | 0 <= h < |armed| :: armed[h].handle == h)
    && (forall id | id in m :: m[id].handle < |armed| && armed[m[id].handle] == m[id])
  }

  class Engine {
    const policy: Policy
    const sem: Semaphore
    const bucket: TokenBucket
    const stagger: Stagger
    const clock: ClockSource
    var queue: seq<Waiter>
    var byID: map<string, Waiter>
    var paused: bool
    var draining: bool
    var recentlyAdmitted: nat
    var retryTimers: map<string, Timer>

    // every waiter and timer ever created, in order
    ghost var created: seq<Waiter>
    ghost var armed: seq<Timer>

    /** Every reference held is one of the objects created, and knows its number. */
    ghost predicate Wired()
      reads this
    {
      && Numbered(created) && AllKnown(created, queue, byID) && TimersKnown(armed, retryTimers)
      && stagger.clock == clock
      && sem.max == Slots(policy)
      && bucket.cpuHigh == policy.cpuHigh && bucket.ramMax == policy.ramMax
      && stagger.window == policy.window
    }

    ghost predicate Valid()
      reads this, sem, bucket, stagger, created, armed
    {
      Wired() && Indexed(View())
    }

    ghost function View(): AdmissionModel.Engine
      reads this, sem, bucket, stagger, created, armed
    {
      AdmissionModel.Engine(
        WaiterViews(created), TicketsOf(queue), TicketIndex(byID), paused, draining, recentlyAdmitted,
        TimerViews(armed), HandleIndex(retryTimers), sem.held, bucket.cpu, bucket.ramP, stagger.recent)
    }

    constructor (policy: Policy, reading: Clock)
      ensures Valid() && View() == EMPTY_ENGINE
      ensures fresh(sem) && fresh(bucket) && fresh(stagger) && fresh(clock)
      ensures this.policy == policy && clock.reading == reading && clock.looks == 0
    {
      this.policy := policy;
      var c := new ClockSource(reading);
      clock := c;
      sem := new Semaphore(policy.maxConcurrent);
      bucket := new TokenBucket(policy.cpuHigh, policy.ramMax);
      stagger := new Stagger(policy.window, c);
      queue := [];
      byID := map[];
      paused := false;
      draining := false;
      recentlyAdmitted := 0;
      retryTimers := map[];
      created := [];
      armed := [];
      new;
      assert View() == EMPTY_ENGINE;
    }

    /** A new waiter joins the back of the queue. */
    method Enqueue(req: Request) returns (w: Waiter)
      requires Valid() && req.id !in byID
      modifies this`queue, this`byID, this`created
      ensures Wired() && fresh(w) && created == old(created) + [w] && w.ticket == |old(created)|
      ensures View() == Attach(old(View()), req)
    {
      hide AllKnown, TimersKnown, Bounded, TicketsOf, HandleIndex, WaiterViews, TimerViews;
      w := new Waiter(req, |created|);
      w.connected := true;
      NewcomerKnown(created, queue, byID, req.id, w);
      IndexUpdate(byID, req.id, w);
      TicketsAppend(queue, w);
      byID := byID[req.id := w];
      queue := queue + [w];
      created := created + [w];
      assert WaiterViews(created) == old(WaiterViews(created)) + [w.View()];
    }

    /** The locked part of attach. */
    method AttachEntry(req: Request) returns (w: Waiter)
      requires Valid()
      modifies this`queue, this`byID, this`created, created
      ensures View() == Attach(old(View()), req)
      ensures Valid()
      ensures Known(created, w) && w.ticket == TicketFor(old(View()), req.id)
      ensures created == old(created) || (fresh(w) && created == old(created) + [w])
    {
      hide TimersKnown, Indexed, TicketsOf, HandleIndex, WaiterViews, TimerViews;
      AttachKeepsIndex(View(), req);
      if req.id in byID {
        w := byID[req.id];
        w.Refresh(req);
        assert WaiterViews(created) == old(WaiterViews(created))[w.ticket := w.View()];
      } else {
        w := Enqueue(req);
      }
    }

    method Detach(w: Waiter)
      requires Valid() && Known(created, w)
      modifies w, clock
      ensures View() == AdmissionModel.Detach(old(View()), w.ticket, clock.reading(old(clock.looks)))
      ensures Valid()
      ensures clock.looks == old(clock.looks) + 1
    {
      hide AllKnown, TimersKnown, Indexed, TicketIndex, TicketsOf, HandleIndex, WaiterViews, TimerViews;
      DetachKeepsIndex(View(), w.ticket, clock.reading(clock.looks));
      var now := clock.Now();
      w.Detach(now);
      assert WaiterViews(created) == old(WaiterViews(created))[w.ticket := w.View()];
    }

    /** A polling handler's non-blocking receive. */
    method Poll(w: Waiter) returns (v: Option<Verdict>)
      requires Valid() && Known(created, w)
      modifies w
      ensures Valid()
      ensures v == old(w.ch) && View() == Receive(old(View()), w.ticket)
    {
      hide AllKnown, TimersKnown, Indexed, TicketIndex, TicketsOf, HandleIndex, WaiterViews, TimerViews;
      ReceiveKeepsIndex(View(), w.ticket);
      v := w.Receive();
      assert WaiterViews(created) == old(WaiterViews(created))[w.ticket := w.View()];
    }

    /** The index forgets the id and its waiter is done. */
    method DropEntry(id: string)
      requires Valid()
      modifies this`byID, created
      ensures View() == DropWaiter(old(View()), id)
      ensures Valid()
    {
      hide Indexed, TimersKnown, TicketsOf, HandleIndex, WaiterViews, TimerViews, Bounded, TicketIndex;
      ghost var before := View();
      IndexedIsBounded(before);
      DropWaiterKeepsIndex(before, id);
      IndexRemoval(byID, id);
      if id in byID {
        var w := byID[id];
        StillKnown(created, queue, byID, id);
        assert before.waiters[w.ticket] == w.View();
        w.Become(Done);
        assert WaiterViews(created) == before.waiters[w.ticket := w.View()];
        hide AllKnown, Numbered;
        byID := byID - {id};
      }
    }

    method DropRetry(id: string)
      requires Valid()
      modifies this`retryTimers, armed
      ensures View() == DropTimer(old(View()), id)
      ensures Valid()
    {
      hide Indexed, Numbered, AllKnown, TicketsOf, TicketIndex, WaiterViews, TimerViews, Bounded, HandleIndex;
      ghost var before := View();
      IndexedIsBounded(before);
      DropTimerKeepsIndex(before, id);
      HandleRemoval(retryTimers, id);
      if id in retryTimers {
        var t := retryTimers[id];
        TimersStillKnown(armed, retryTimers, id);
        assert before.timers[t.handle] == t.View();
        t.Stop();
        assert TimerViews(armed) == before.timers[t.handle := t.View()];
        hide TimersKnown;
        retryTimers := retryTimers - {id};
      }
    }

    /** The locked part of Release. */
    method ReleaseEntry(id: string)
      requires Valid()
      modifies this`byID, this`retryTimers, created, armed
      ensures View() == AdmissionModel.ReleaseEntry(old(View()), id)
      ensures Valid()
    {
      DropEntry(id);
      DropRetry(id);
    }

    /** The gate releases of Release: only the semaphore has anything to give back. */
    method ReleaseGates(id: string)
      requires Valid()
      modifies sem
      ensures View() == ReleaseSlot(old(View()), id)
      ensures Valid()
    {
      hide Indexed, Numbered, AllKnown, TimersKnown, WaiterViews, TimerViews, TicketsOf, TicketIndex, HandleIndex;
      QuietKeepsIndex(View(), ReleaseSlot(View(), id));
      sem.Release(id);
    }

    method SetFlags(paused: bool, draining: bool)
      requires Valid()
      modifies this`paused, this`draining
      ensures View() == old(View()).(paused := paused, draining := draining)
      ensures Valid()
    {
      hide Indexed, Numbered, AllKnown, TimersKnown, WaiterViews, TimerViews, TicketsOf, TicketIndex, HandleIndex;
      QuietKeepsIndex(View(), View().(paused := paused, draining := draining));
      this.paused := paused;
      this.draining := draining;
    }

    method StoreSample(cpu: real, ramP: int)
      requires Valid()
      modifies bucket
      ensures View() == old(View()).(cpu := cpu, ramP := ramP)
      ensures Valid()
    {
      hide Indexed, Numbered, AllKnown, TimersKnown, WaiterViews, TimerViews, TicketsOf, TicketIndex, HandleIndex;
      QuietKeepsIndex(View(), View().(cpu := cpu, ramP := ramP));
      bucket.SetSample(cpu, ramP);
    }

    method ResetRamp()
      requires Valid()
      modifies this`recentlyAdmitted
      ensures View() == old(View()).(recentlyAdmitted := 0)
      ensures Valid()
    {
      hide Indexed, Numbered, AllKnown, TimersKnown, WaiterViews, TimerViews, TicketsOf, TicketIndex, HandleIndex;
      QuietKeepsIndex(View(), View().(recentlyAdmitted := 0));
      recentlyAdmitted := 0;
    }

    /** The runtime lets a timer fire. */
    method Expire(t: Timer)
      requires Valid() && t.handle < |armed| && armed[t.handle] == t && t.live
      modifies t
      ensures View() == old(View()).(timers := StopTimer(old(View()).timers, t.handle))
      ensures Valid()
    {
      hide Indexed, Numbered, AllKnown, WaiterViews, TimerViews, TicketsOf, TicketIndex, HandleIndex;
      QuietKeepsIndex(View(), View().(timers := StopTimer(View().timers, t.handle)));
      t.Stop();
      assert TimerViews(armed) == old(TimerViews(armed))[t.handle := t.View()];
    }

    /** The locked part of a timer callback. */
    method ForgetTimer(id: string)
      requires Valid()
      modifies this`retryTimers
      ensures View() == old(View()).(retryTimers := old(View()).retryTimers - {id})
      ensures Valid()
    {
      hide Indexed, Numbered, AllKnown, WaiterViews, TimerViews, TicketsOf, TicketIndex;
      QuietKeepsIndex(View(), View().(retryTimers := View().retryTimers - {id}));
      HandleRemoval(retryTimers, id);
      retryTimers := retryTimers - {id};
    }

    method StopArmed(id: string)
      requires Valid()
      modifies armed
      ensures Bounded(old(View())) && TimerViews(armed) == StoppedFor(old(View()), id)
    {
      hide Indexed, Numbered, AllKnown, WaiterViews, TimerViews, TicketsOf, TicketIndex, Bounded;
      IndexedIsBounded(View());
      if id in retryTimers {
        retryTimers[id].Stop();
        assert TimerViews(armed) == StoppedFor(old(View()), id);
      }
    }

    method StartTimer(id: string, delay: int)
      requires Wired()
      modifies this`retryTimers, this`armed
      ensures Wired() && |armed| == |old(armed)| + 1 && armed[..|old(armed)|] == old(armed) && fresh(armed[|old(armed)|])
      ensures TimerViews(armed) == old(TimerViews(armed)) + [TimerView(id, delay, true)]
      ensures HandleIndex(retryTimers) == old(HandleIndex(retryTimers))[id := |old(armed)|]
    {
      hide TimerViews, HandleIndex, Numbered, AllKnown, TimersKnown;
      var t := new Timer(id, delay, |armed|);
      HandleUpdate(retryTimers, id, t);
      NewTimerKnown(armed, retryTimers, id, t);
      armed := armed + [t];
      retryTimers := retryTimers[id := t];
    }

    /** Arms the head's retry timer, stopping the one armed before under the same id. */
    method ArmRetryTimer(id: string, delay: int)
      requires Valid()
      modifies this`retryTimers, this`armed, armed
      ensures View() == ArmTimer(old(View()), id, delay)
      ensures Valid()
      ensures |old(armed)| <= |armed| && armed[..|old(armed)|] == old(armed)
      ensures forall i | |old(armed)| <= i < |armed| :: fresh(armed[i])
    {
      hide Indexed, Numbered, AllKnown, TimersKnown, WaiterViews, TimerViews, TicketsOf, TicketIndex, HandleIndex, Bounded;
      IndexedIsBounded(View());
      ArmKeepsIndex(View(), id, delay);
      if delay > 0 {
        StopArmed(id);
        StartTimer(id, delay);
      }
    }

    // ---- the queue's garbage collection ----

    /** Waiter `w` has timed out of the queue. */
    method DropStale(w: Waiter)
      requires Wired() && Known(created, w)
      modifies this`byID, w
      ensures Wired() && w.View() == old(w.View()).(state := Done)
      ensures byID == old(byID) - {w.req.id}
    {
      StillKnown(created, queue, byID, w.req.id);
      w.Become(Done);
      byID := byID - {w.req.id};
    }

    /** The collecting walk has passed the first `i` waiters; the kept ones stand in `buffer[..kept]`. */
    ghost predicate Walked(before: AdmissionModel.Engine, now: Time, buffer: seq<Waiter>, kept: nat, i: nat)
      reads this, created
    {
      && Wired() && Bounded(before) && Sorted(before.queue) && TicketsOf(queue) == before.queue
      && kept <= i <= |queue| == |buffer|
      && (forall k | i <= k < |queue| :: buffer[k] == queue[k])
      && (forall k | 0 <= k < |buffer| :: Known(created, buffer[k]))
      && TicketsOf(buffer[..kept]) == KeptQueue(before.waiters, before.queue[..i], now, policy.grace)
      && var stale := StaleIn(before.waiters, before.queue[..i], now, policy.grace);
         WaiterViews(created) == MarkDone(before.waiters, stale) && TicketIndex(byID) == before.byID - IdsOf(before.waiters, stale)
    }

    lemma NextWaiter(before: AdmissionModel.Engine, now: Time, buffer: seq<Waiter>, kept: nat, i: nat)
      requires Walked(before, now, buffer, kept, i) && i < |queue|
      ensures buffer[i] == queue[i] && Known(created, buffer[i])
      ensures buffer[i].ticket == before.queue[i] && buffer[i].View() == before.waiters[before.queue[i]]
    {
      StaleOneMore(before, i, now, policy.grace);
      MarkOneMore(before.waiters, StaleIn(before.waiters, before.queue[..i], now, policy.grace), before.queue[i]);
    }

    lemma KeepNext(before: AdmissionModel.Engine, now: Time, buffer: seq<Waiter>, kept: nat, i: nat)
      requires Walked(before, now, buffer, kept, i) && i < |queue|
      requires !Stale(before.waiters[before.queue[i]], now, policy.grace)
      ensures Walked(before, now, buffer[kept := buffer[i]], kept + 1, i + 1)
    {
      hide MarkDone, IdsOf, StaleIn, Stale, TicketIndex, WaiterViews, AllKnown, Numbered, TimersKnown, KeptQueue;
      var next := buffer[kept := buffer[i]];
      NextWaiter(before, now, buffer, kept, i);
      StaleOneMore(before, i, now, policy.grace);
      TicketsAppend(buffer[..kept], buffer[i]);
      assert next[..kept + 1] == buffer[..kept] + [buffer[i]];
    }

    method DropNext(ghost before: AdmissionModel.Engine, now: Time, buffer: seq<Waiter>, kept: nat, i: nat)
      requires Walked(before, now, buffer, kept, i) && i < |queue|
      requires Stale(before.waiters[before.queue[i]], now, policy.grace)
      modifies this`byID, buffer[i]
      ensures Walked(before, now, buffer, kept, i + 1)
    {
      hide MarkDone, IdsOf, StaleIn, Stale, TicketIndex, TicketsOf, WaiterViews, AllKnown, TimersKnown, KeptQueue;
      var w := buffer[i];
      ghost var stale := StaleIn(before.waiters, before.queue[..i], now, policy.grace);
      NextWaiter(before, now, buffer, kept, i);
      StaleOneMore(before, i, now, policy.grace);
      MarkOneMore(before.waiters, stale, w.ticket);
      IndexRemoval(byID, w.req.id);
      DropStale(w);
      assert WaiterViews(created) == MarkDone(before.waiters, stale)[w.ticket := w.View()];
      IdsLeft(before, stale, w.ticket);
    }

    /**
     * gcQueued: drops the stale waiters and compacts the kept ones within the queue's own buffer, the
     * write position never overtaking the read position.
     */
    method CollectQueue()
      requires Valid()
      modifies this`queue, this`byID, created, clock
      ensures View() == GcQueued(old(View()), clock.reading(old(clock.looks)), policy.grace)
      ensures Valid() && clock.looks == old(clock.looks) + 1
    {
      hide MarkDone, IdsOf, StaleIn, TicketIndex, TicketsOf, WaiterViews, TimerViews, TimersKnown, KeptQueue, Walked, Indexed;
      ghost var before := View();
      IndexedIsBounded(before);
      StartWalk(before, clock.reading(clock.looks));
      CollectionKeepsIndex(before, clock.reading(clock.looks), policy.grace);
      var now := clock.Now();
      var buffer := queue;
      var kept := 0;
      for i := 0 to |queue|
        invariant kept <= i && |buffer| == |queue| == |before.queue|
        invariant Walked(before, now, buffer, kept, i)
        invariant clock.looks == old(clock.looks) + 1
      {
        var w := buffer[i];
        NextWaiter(before, now, buffer, kept, i);
        if w.state.Queued? && !w.connected && w.lastDetach.Some? && now - w.lastDetach.value >= policy.grace {
          DropNext(before, now, buffer, kept, i);
        } else {
          KeepNext(before, now, buffer, kept, i);
          buffer := buffer[kept := w];
          kept := kept + 1;
        }
      }
      EndWalk(before, now, buffer, kept);
      queue := buffer[..kept];
    }

    lemma EndWalk(before: AdmissionModel.Engine, now: Time, buffer: seq<Waiter>, kept: nat)
      requires Walked(before, now, buffer, kept, |queue|)
      ensures kept <= |buffer| && AllKnown(created, buffer[..kept], byID)
      ensures var after := GcQueued(before, now, policy.grace);
        TicketsOf(buffer[..kept]) == after.queue && WaiterViews(created) == after.waiters && TicketIndex(byID) == after.byID
    {
      assert before.queue[..|queue|] == before.queue;
    }

    lemma StartWalk(before: AdmissionModel.Engine, now: Time)
      requires Valid() && before == View()
      ensures Walked(before, now, queue, 0, 0)
    {
      hide WaiterViews, TimerViews, TicketIndex, Numbered, TimersKnown;
      assert before.queue[..0] == [] && queue[..0] == [];
      assert MarkDone(before.waiters, {}) == before.waiters;
      assert before.byID - {} == before.byID;
    }

    // ---- scheduling ----

    /** Asks the gates in their order and stops at the first refusal, with that gate's retry hint. */
    method TryAllGates(req: Request, builds: seq<ActiveBuild>, recentlyAdmitted: nat) returns (admit: bool, retry: int)
      requires Wired()
      modifies stagger, clock
      ensures Wired()
      ensures var slot := req.id in sem.held || |sem.held| < Slots(policy);
        var load := LoadAdmits(policy, bucket.cpu, bucket.ramP, recentlyAdmitted);
        if !slot || !load then
          && !admit && retry == (if !slot then 0 else LOAD_RETRY)
          && stagger.recent == old(stagger.recent) && clock.looks == old(clock.looks)
        else
          && retry == Hold(policy.window, clock.reading(old(clock.looks)), req, old(stagger.recent), builds)
          && (admit <==> retry == 0)
          && stagger.recent == AfterTry(policy.window, clock.reading(old(clock.looks)), req, old(stagger.recent))
          && clock.looks == AfterLook(policy, req, old(clock.looks))
    {
      hide Numbered, AllKnown, TimersKnown, Hold, AfterTry;
      admit, retry := sem.Try(req);
      if !admit {
        return;
      }
      admit, retry := bucket.Try(recentlyAdmitted);
      assert admit <==> LoadAdmits(policy, bucket.cpu, bucket.ramP, recentlyAdmitted);
      if !admit {
        return;
      }
      admit, retry := stagger.Try(req, builds);
    }

    method AcquireAllGates(req: Request)
      requires Wired()
      modifies sem, stagger, clock
      ensures sem.held == old(sem.held) + {req.id}
      ensures stagger.recent == old(stagger.recent)[req.id := Record(Normalised(req.targets), clock.reading(old(clock.looks)))]
      ensures clock.looks == old(clock.looks) + 1
    {
      sem.Acquire(req);
      stagger.Acquire(req);
    }

    /** The head is admitted: gates taken, ALLOW buffered, popped. */
    method AdmitHead(w: Waiter)
      requires Valid() && queue != [] && w == queue[0] && w.state.Queued?
      modifies this`queue, this`recentlyAdmitted, sem, stagger, clock, w
      ensures View() == AdmissionModel.AdmitHead(TakeRecord(TakeSlot(old(View())), clock.reading(old(clock.looks))))
      ensures Valid() && clock.looks == old(clock.looks) + 1
    {
      hide Indexed, Bounded, Numbered, AllKnown, TimersKnown, WaiterViews, TimerViews, TicketIndex, HandleIndex, Normalised, Slots;
      QueueTail(queue, created, byID);
      AdmittedKeepsIndex(View(), clock.reading(clock.looks));
      assert Head(View()) == w.View();
      AcquireAllGates(w.req);
      assert View() == TakeRecord(TakeSlot(old(View())), clock.reading(old(clock.looks)));
      hide TakeRecord, TakeSlot;
      SendAllow(w);
    }

    /** Behind the gates: state, debit, ALLOW and queue. */
    method SendAllow(w: Waiter)
      requires Wired() && HasHead(View()) && queue != [] && w == queue[0]
      modifies this`queue, this`recentlyAdmitted, w
      ensures Wired() && View() == AdmissionModel.AdmitHead(old(View()))
    {
      hide TimersKnown, WaiterViews, TimerViews, TicketIndex, HandleIndex, Slots, AdmissionModel.Deliver;
      QueueTail(queue, created, byID);
      ConcludedIsDelivered(w.View(), Admitted, Allow);
      w.Conclude(Admitted, Allow);
      assert WaiterViews(created) == old(WaiterViews(created))[w.ticket := w.View()];
      hide AllKnown, Numbered;
      recentlyAdmitted := recentlyAdmitted + 1;
      queue := queue[1..];
    }

    method DenyHead(w: Waiter)
      requires Valid() && queue != [] && w == queue[0] && w.state.Queued?
      modifies this`queue, this`byID, w
      ensures View() == AdmissionModel.DenyHead(old(View()))
      ensures Valid()
    {
      hide Indexed, Bounded, TimersKnown, WaiterViews, TimerViews, TicketIndex, HandleIndex;
      QueueTail(queue, created, byID);
      DeniedKeepsIndex(View());
      IndexRemoval(byID, w.req.id);
      StillKnown(created, queue[1..], byID, w.req.id);
      w.Conclude(Done, Deny);
      assert WaiterViews(created) == old(WaiterViews(created))[w.ticket := w.View()];
      hide AllKnown, Numbered;
      queue := queue[1..];
      byID := byID - {w.req.id};
    }

    method PopHead()
      requires Valid() && queue != [] && !queue[0].state.Queued?
      modifies this`queue
      ensures View() == AdmissionModel.PopHead(old(View()))
      ensures Valid()
    {
      hide Indexed, Bounded, TimersKnown, WaiterViews, TimerViews, TicketIndex, HandleIndex;
      QueueTail(queue, created, byID);
      PoppedKeepsIndex(View());
      queue := queue[1..];
    }

    /** `x` describes the pass as it stands. */
    ghost predicate At(x: PassState)
      reads this, sem, bucket, stagger, clock, created, armed
    {
      x.e == View() && x.k == clock.looks
    }

    /** The gates for the head of the queue, which is waiting; a refusal arms its timer and ends the pass. */
    method OfferHead(w: Waiter, builds: seq<ActiveBuild>, ghost x: PassState) returns (admitted: bool)
      requires Valid() && At(x) && x.builds == builds && !draining
      requires queue != [] && w == queue[0] && w.state.Queued?
      modifies this`queue, this`recentlyAdmitted, this`retryTimers, this`armed, armed, sem, stagger, clock, w
      ensures Valid()
      ensures admitted ==> armed == old(armed) && |queue| < |old(queue)|
      ensures admitted ==> var y := AdmitOne(policy, clock.reading, x);
        View() == y.e && clock.looks + 1 == y.k && RunPass(policy, clock.reading, x) == RunPass(policy, clock.reading, y)
      ensures !admitted ==> At(RunPass(policy, clock.reading, x))
      ensures !admitted ==> RunPass(policy, clock.reading, x).admitted == x.admitted
      ensures |old(armed)| <= |armed| && armed[..|old(armed)|] == old(armed)
      ensures forall i | |old(armed)| <= i < |armed| :: fresh(armed[i])
    {
      hide Numbered, TimersKnown, WaiterViews, TimerViews, TicketIndex, HandleIndex, Hold, AfterTry, Filed, Sorted;
      QueueTail(queue, created, byID);
      ghost var e := View();
      assert Head(e) == w.View();
      var admit, retry := TryAllGates(w.req, builds, recentlyAdmitted);
      RecentKeepsIndex(e, stagger.recent);
      assert View() == e.(recent := stagger.recent);
      if !admit {
        ArmRetryTimer(w.req.id, retry);
        return false;
      }
      AdmitHead(w);
      return true;
    }

    /** A head that is no longer waiting is popped; while draining, one that waits is denied. */
    method RetireHead(w: Waiter, ghost x: PassState) returns (ghost y: PassState)
      requires Valid() && At(x) && Bounded(x.e)
      requires queue != [] && w == queue[0] && (!w.state.Queued? || draining)
      modifies this`queue, this`byID, w
      ensures Valid() && At(y) && Bounded(y.e) && y.builds == x.builds && |queue| < |old(queue)|
      ensures RunPass(policy, clock.reading, y) == RunPass(policy, clock.reading, x)
    {
      hide Indexed, Bounded, Numbered, TimersKnown, WaiterViews, TimerViews, TicketIndex, HandleIndex, RunPass;
      QueueTail(queue, created, byID);
      PassUnfolds(policy, clock.reading, x);
      assert Head(x.e) == w.View();
      if !w.state.Queued? {
        PopHead();
      } else {
        DenyHead(w);
      }
      y := x.(e := View());
      IndexedIsBounded(y.e);
    }

    /** A waiting head: the gates, and if they let it in, its entry in the pass's own snapshot. */
    method ServeHead(w: Waiter, builds: seq<ActiveBuild>, ghost x: PassState)
      returns (admitted: bool, snapshot: seq<ActiveBuild>, ghost y: PassState)
      requires Valid() && At(x) && Bounded(x.e) && x.builds == builds && !draining
      requires queue != [] && w == queue[0] && w.state.Queued?
      modifies this`queue, this`recentlyAdmitted, this`retryTimers, this`armed, armed, sem, stagger, clock, w
      ensures Valid() && At(y)
      ensures admitted ==> y.builds == snapshot && armed == old(armed) && |queue| < |old(queue)| && Bounded(y.e)
      ensures admitted ==> RunPass(policy, clock.reading, x) == RunPass(policy, clock.reading, y)
      ensures !admitted ==> y == RunPass(policy, clock.reading, x)
      ensures |old(armed)| <= |armed| && armed[..|old(armed)|] == old(armed)
      ensures forall i | |old(armed)| <= i < |armed| :: fresh(armed[i])
    {
      hide Indexed, Bounded, Numbered, TimersKnown, WaiterViews, TimerViews, TicketIndex, HandleIndex, RunPass, AdmitOne;
      var req := w.req;
      assert Head(x.e).req == req by {
        QueueTail(queue, created, byID);
      }
      admitted := OfferHead(w, builds, x);
      if admitted {
        AdmitOneShows(policy, clock.reading, x);
        y := AdmitOne(policy, clock.reading, x);
        var now := clock.Now();
        snapshot := builds + [JustAdmitted(req, now)];
        IndexedIsBounded(y.e);
      } else {
        y := RunPass(policy, clock.reading, x);
        snapshot := builds;
      }
    }

    /** schedule: walks the head of the queue for as long as the gates let it; `builds` is the registry's snapshot. */
    method Schedule(builds: seq<ActiveBuild>)
      requires Valid()
      modifies this`queue, this`byID, this`recentlyAdmitted, this`retryTimers, this`armed
      modifies created, armed, sem, stagger, clock
      ensures Valid() && Bounded(old(View()))
      ensures At(ScheduleSpec.Schedule(policy, clock.reading, old(View()), builds, old(clock.looks)))
      ensures |old(armed)| <= |armed| && armed[..|old(armed)|] == old(armed)
      ensures forall i | |old(armed)| <= i < |armed| :: fresh(armed[i])
    {
      hide Indexed, Bounded, Numbered, TimersKnown, WaiterViews, TimerViews, TicketIndex, HandleIndex, RunPass, AdmitOne;
      ghost var e := View();
      IndexedIsBounded(e);
      if paused || |queue| == 0 {
        return;
      }
      var snapshot := builds;
      ghost var x := PassState(e, builds, clock.looks, []);
      ghost var o := RunPass(policy, clock.reading, x);
      while |queue| > 0
        invariant Valid() && At(x) && x.builds == snapshot && Bounded(x.e)
        invariant RunPass(policy, clock.reading, x) == o
        invariant armed == old(armed)
        decreases |queue|
      {
        var w := queue[0];
        QueueTail(queue, created, byID);
        if !w.state.Queued? || draining {
          x := RetireHead(w, x);
          continue;
        }
        var admitted;
        admitted, snapshot, x := ServeHead(w, snapshot, x);
        if !admitted {
          return;
        }
      }
      PassUnfolds(policy, clock.reading, x);
    }

    // ---- whole operations, with nothing running in between ----

    ghost predicate Extends(oldCreated: seq<Waiter>, oldArmed: seq<Timer>)
      reads this
    {
      && |oldCreated| <= |created| && created[..|oldCreated|] == oldCreated
      && |oldArmed| <= |armed| && armed[..|oldArmed|] == oldArmed
    }

    /** Release: the entry, the gates, then the next in line. */
    method Release(id: string, builds: seq<ActiveBuild>)
      requires Valid()
      modifies this, created, armed, sem, stagger, clock
      ensures Valid() && Bounded(old(View()))
      ensures Indexed(ReleaseSlot(AdmissionModel.ReleaseEntry(old(View()), id), id))
      ensures At(ScheduleSpec.Schedule(policy, clock.reading, ReleaseSlot(AdmissionModel.ReleaseEntry(old(View()), id), id),
                                       builds, old(clock.looks)))
      ensures created == old(created) && Extends(created, old(armed))
      ensures forall i | |old(armed)| <= i < |armed| :: fresh(armed[i])
    {
      hide Indexed, Bounded, Numbered, AllKnown, TimersKnown, WaiterViews, TimerViews, TicketsOf, TicketIndex, HandleIndex;
      IndexedIsBounded(View());
      ReleaseEntry(id);
      ReleaseGates(id);
      Schedule(builds);
    }

    /** attach: the waiter for the request, then a look at the head of the queue. */
    method AttachRequest(req: Request, builds: seq<ActiveBuild>) returns (w: Waiter)
      requires Valid()
      modifies this, created, armed, sem, stagger, clock
      ensures Valid() && Bounded(old(View())) && Bounded(Attach(old(View()), req))
      ensures Known(created, w) && w.ticket == TicketFor(old(View()), req.id)
      ensures At(ScheduleSpec.Schedule(policy, clock.reading, Attach(old(View()), req), builds, old(clock.looks)))
      ensures created == old(created) || (fresh(w) && created == old(created) + [w])
    {
      hide Indexed, Bounded, Numbered, AllKnown, TimersKnown, WaiterViews, TimerViews, TicketsOf, TicketIndex, HandleIndex;
      IndexedIsBounded(View());
      w := AttachEntry(req);
      IndexedIsBounded(View());
      Schedule(builds);
    }

    /**
     * Admit when no other operation comes between: the verdict the scheduling pass left, else QUEUE once
     * the poll window is over.
     */
    method Admit(req: Request, builds: seq<ActiveBuild>) returns (v: Verdict)
      requires Valid()
      modifies this, created, armed, sem, stagger, clock
      ensures Valid() && Bounded(old(View())) && Bounded(Attach(old(View()), req))
      ensures var o := ScheduleSpec.Schedule(policy, clock.reading, Attach(old(View()), req), builds, old(clock.looks));
        var t := TicketFor(old(View()), req.id);
        && t < |o.e.waiters|
        && v == (if o.e.waiters[t].buffer.Some? then o.e.waiters[t].buffer.value else Queue)
        && View() == AdmissionModel.Detach(Receive(o.e, t), t, clock.reading(o.k))
    {
      hide Indexed, Bounded, Numbered, AllKnown, TimersKnown, TimerViews, TicketsOf, TicketIndex, HandleIndex;
      var w := AttachRequest(req, builds);
      assert View().waiters[w.ticket] == w.View();
      var buffered := Poll(w);
      v := if buffered.Some? then buffered.value else Queue;
      Detach(w);
    }

    method SetPaused(on: bool, builds: seq<ActiveBuild>)
      requires Valid()
      modifies this, created, armed, sem, stagger, clock
      ensures Valid() && Bounded(old(View()))
      ensures At(ScheduleSpec.Schedule(policy, clock.reading, old(View()).(paused := on), builds, old(clock.looks)))
    {
      hide Indexed, Numbered, AllKnown, TimersKnown, WaiterViews, TimerViews, TicketsOf, TicketIndex, HandleIndex;
      IndexedIsBounded(View());
      SetFlags(on, draining);
      Schedule(builds);
    }

    method SetDraining(on: bool, builds: seq<ActiveBuild>)
      requires Valid()
      modifies this, created, armed, sem, stagger, clock
      ensures Valid() && Bounded(old(View()))
      ensures At(ScheduleSpec.Schedule(policy, clock.reading, old(View()).(draining := on), builds, old(clock.looks)))
    {
      hide Indexed, Numbered, AllKnown, TimersKnown, WaiterViews, TimerViews, TicketsOf, TicketIndex, HandleIndex;
      IndexedIsBounded(View());
      SetFlags(paused, on);
      Schedule(builds);
    }

    /** Resume clears both policies at once. */
    method Resume(builds: seq<ActiveBuild>)
      requires Valid()
      modifies this, created, armed, sem, stagger, clock
      ensures Valid() && Bounded(old(View()))
      ensures At(ScheduleSpec.Schedule(policy, clock.reading, old(View()).(paused := false, draining := false), builds, old(clock.looks)))
    {
      hide Indexed, Numbered, AllKnown, TimersKnown, WaiterViews, TimerViews, TicketsOf, TicketIndex, HandleIndex;
      IndexedIsBounded(View());
      SetFlags(false, false);
      Schedule(builds);
    }

    method OnLoadSample(cpu: real, ramP: int, builds: seq<ActiveBuild>)
      requires Valid()
      modifies this, created, armed, sem, bucket, stagger, clock
      ensures Valid() && Bounded(old(View()))
      ensures At(ScheduleSpec.Schedule(policy, clock.reading, old(View()).(cpu := cpu, ramP := ramP, recentlyAdmitted := 0),
                                       builds, old(clock.looks)))
    {
      hide Indexed, Numbered, AllKnown, TimersKnown, WaiterViews, TimerViews, TicketsOf, TicketIndex, HandleIndex;
      IndexedIsBounded(View());
      StoreSample(cpu, ramP);
      ResetRamp();
      Schedule(builds);
    }
  }

  /** The part of a pass that concerns heads that are not offered to the gates. */
  lemma PassUnfolds(p: Policy, reading: Clock, x: PassState)
    requires Bounded(x.e)
    ensures x.e.queue == [] ==> RunPass(p, reading, x) == x
    ensures x.e.queue != [] ==> HasHead(x.e)
    ensures x.e.queue != [] && !Head(x.e).state.Queued? ==>
      Bounded(AdmissionModel.PopHead(x.e)) && RunPass(p, reading, x) == RunPass(p, reading, x.(e := AdmissionModel.PopHead(x.e)))
    ensures x.e.queue != [] && Head(x.e).state.Queued? && x.e.draining ==>
      Bounded(AdmissionModel.DenyHead(x.e)) && RunPass(p, reading, x) == RunPass(p, reading, x.(e := AdmissionModel.DenyHead(x.e)))
  {
  }

  lemma AdmitOneShows(p: Policy, reading: Clock, x: PassState)
    requires HasHead(x.e)
    ensures var y := AdmitOne(p, reading, x);
      y.builds == x.builds + [JustAdmitted(Head(x.e).req, reading(y.k - 1))]
  {
  }

  lemma RecentKeepsIndex(e: AdmissionModel.Engine, recent: map<string, Record>)
    requires Indexed(e)
    ensures Indexed(e.(recent := recent))
  {
    SameShapeKeepsIndex(e, e.(recent := recent));
  }

  lemma QueueTail(queue: seq<Waiter>, created: seq<Waiter>, byID: map<string, Waiter>)
    requires queue != [] && AllKnown(created, queue, byID)
    ensures TicketsOf(queue)[1..] == TicketsOf(queue[1..]) && TicketsOf(queue)[0] == queue[0].ticket
    ensures AllKnown(created, queue[1..], byID) && Known(created, queue[0])
  {
  }

  lemma ConcludedIsDelivered(w: WaiterView, state: WaiterState, v: Verdict)
    ensures AdmissionModel.Deliver(w, v).(state := state) == AdmissionModel.Deliver(w.(state := state), v)
  {
  }

  lemma AdmittedKeepsIndex(e: AdmissionModel.Engine, now: Time)
    requires Indexed(e) && e.queue != [] && e.waiters[e.queue[0]].state.Queued?
    ensures HasHead(e) && Indexed(AdmissionModel.AdmitHead(TakeRecord(TakeSlot(e), now)))
  {
    var taken := TakeRecord(TakeSlot(e), now);
    SameShapeKeepsIndex(e, taken);
    AdmitKeepsIndex(taken);
  }

  lemma DeniedKeepsIndex(e: AdmissionModel.Engine)
    requires Indexed(e) && e.queue != [] && e.waiters[e.queue[0]].state.Queued?
    ensures HasHead(e) && Indexed(AdmissionModel.DenyHead(e))
  {
    DenyKeepsIndex(e);
  }

  lemma PoppedKeepsIndex(e: AdmissionModel.Engine)
    requires Indexed(e) && e.queue != [] && !e.waiters[e.queue[0]].state.Queued?
    ensures HasHead(e) && Indexed(AdmissionModel.PopHead(e))
  {
    PopKeepsIndex(e);
  }

  lemma IdsLeft(e: AdmissionModel.Engine, stale: set<nat>, t: nat)
    requires t < |e.waiters| && forall k | k in stale :: k < |e.waiters|
    ensures e.byID - IdsOf(e.waiters, stale) - {e.waiters[t].req.id} == e.byID - (IdsOf(e.waiters, stale) + {e.waiters[t].req.id})
  {
  }

  lemma IndexedIsBounded(e: AdmissionModel.Engine)
    requires Indexed(e)
    ensures Bounded(e)
  {
  }

  ghost function StoppedFor(e: AdmissionModel.Engine, id: string): seq<TimerView>
    requires Bounded(e)
  {
    if id in e.retryTimers then StopTimer(e.timers, e.retryTimers[id]) else e.timers
  }

  lemma StillKnown(created: seq<Waiter>, queue: seq<Waiter>, byID: map<string, Waiter>, id: string)
    requires AllKnown(created, queue, byID)
    ensures AllKnown(created, queue, byID - {id})
  {
  }

  lemma TimersStillKnown(armed: seq<Timer>, m: map<string, Timer>, id: string)
    requires TimersKnown(armed, m)
    ensures TimersKnown(armed, m - {id})
  {
  }

  lemma NewTimerKnown(armed: seq<Timer>, m: map<string, Timer>, id: string, t: Timer)
    requires TimersKnown(armed, m) && t.handle == |armed|
    ensures TimersKnown(armed + [t], m[id := t])
  {
  }

  lemma DetachKeepsIndex(e: AdmissionModel.Engine, t: nat, now: Time)
    requires Indexed(e) && t < |e.waiters|
    ensures Indexed(AdmissionModel.Detach(e, t, now))
  {
    SameShapeKeepsIndex(e, AdmissionModel.Detach(e, t, now));
  }

  lemma ReceiveKeepsIndex(e: AdmissionModel.Engine, t: nat)
    requires Indexed(e) && t < |e.waiters|
    ensures Indexed(Receive(e, t))
  {
    SameShapeKeepsIndex(e, Receive(e, t));
  }
}
