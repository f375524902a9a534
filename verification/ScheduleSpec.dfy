/** One whole scheduling pass as a function, when nothing else runs between its steps. */
module ScheduleSpec {
  import opened Targets
  import opened AdmissionModel
  import opened StaggerLaws
  import opened AdmissionSystem
  import opened QueueIndex

  /** `reading(k)` is what the k-th look at the clock returns. */
  type Clock = nat -> Time

  /** Where a pass stands: the engine, its snapshot, clock readings used, and whom it has admitted. */
  datatype PassState = PassState(e: Engine, builds: seq<ActiveBuild>, k: nat, admitted: seq<nat>)

  /** The stagger gate looks at the clock only when it has something to compare. */
  predicate LooksAtClock(p: Policy, req: Request) {
    p.window > 0 && Normalised(req.targets) != {}
  }

  function AfterLook(p: Policy, req: Request, k: nat): nat {
    if LooksAtClock(p, req) then k + 1 else k
  }

  ghost function HeadHold(p: Policy, reading: Clock, x: PassState): int
    requires HasHead(x.e)
  {
    Hold(p.window, reading(x.k), Head(x.e).req, x.e.recent, x.builds)
  }

  /** The engine after the stagger gate's Try: aged records are gone. */
  function Tried(p: Policy, reading: Clock, x: PassState): Engine
    requires HasHead(x.e)
  {
    x.e.(recent := AfterTry(p.window, reading(x.k), Head(x.e).req, x.e.recent))
  }

  /** Taking the gates for the head and delivering its ALLOW. */
  function AdmitOne(p: Policy, reading: Clock, x: PassState): PassState
    requires HasHead(x.e)
  {
    var req := Head(x.e).req;
    var k := AfterLook(p, req, x.k);
    PassState(AdmitHead(TakeRecord(TakeSlot(Tried(p, reading, x)), reading(k))),
              x.builds + [JustAdmitted(req, reading(k + 1))], k + 2, x.admitted + [x.e.queue[0]])
  }

  ghost function RunPass(p: Policy, reading: Clock, x: PassState): PassState
    requires Bounded(x.e)
    decreases |x.e.queue|
  {
    var e := x.e;
    if e.queue == [] then x
    else
      var w := Head(e);
      if !w.state.Queued? then RunPass(p, reading, x.(e := PopHead(e)))
      else if e.draining then RunPass(p, reading, x.(e := DenyHead(e)))
      else if !SlotFree(p, e, w.req.id) then x
      else if !LoadAdmits(p, e.cpu, e.ramP, e.recentlyAdmitted) then x.(e := ArmTimer(e, w.req.id, LOAD_RETRY))
      else
        var hold := HeadHold(p, reading, x);
        if hold != 0 then
          x.(e := ArmTimer(Tried(p, reading, x), w.req.id, hold), k := AfterLook(p, w.req, x.k))
        else RunPass(p, reading, AdmitOne(p, reading, x))
  }

  /** schedule: nothing while paused or idle, else one pass over a fresh registry snapshot. */
  ghost function Schedule(p: Policy, reading: Clock, e: Engine, builds: seq<ActiveBuild>, k: nat): PassState
    requires Bounded(e)
  {
    if e.paused || e.queue == [] then PassState(e, builds, k, []) else RunPass(p, reading, PassState(e, builds, k, []))
  }

  // ---- what a pass does ----

  /** The queue's waiters that are still waiting. */
  function Waiting(waiters: seq<WaiterView>, queue: seq<nat>): seq<nat>
    requires forall i | 0 <= i < |queue| :: queue[i] < |waiters|
  {
    if queue == [] then []
    else (if waiters[queue[0]].state.Queued? then [queue[0]] else []) + Waiting(waiters, queue[1..])
  }

  function WaitingIn(e: Engine): seq<nat>
    requires Bounded(e)
  {
    Waiting(e.waiters, e.queue)
  }

  lemma WaitingLooksOnlyAtTheQueue(ws: seq<WaiterView>, vs: seq<WaiterView>, queue: seq<nat>)
    requires forall i | 0 <= i < |queue| :: queue[i] < |ws| && queue[i] < |vs| && ws[queue[i]] == vs[queue[i]]
    ensures Waiting(ws, queue) == Waiting(vs, queue)
  {
    if queue != [] {
      WaitingLooksOnlyAtTheQueue(ws, vs, queue[1..]);
    }
  }

  /** The head of the queue is refused by some gate at time `now`. */
  ghost predicate RefusedAt(p: Policy, e: Engine, builds: seq<ActiveBuild>, now: Time) {
    && QueuedHead(e)
    && (!SlotFree(p, e, Head(e).req.id) || !LoadAdmits(p, e.cpu, e.ramP, e.recentlyAdmitted)
        || Hold(p.window, now, Head(e).req, e.recent, builds) != 0)
  }

  function Ids(e: Engine, tickets: seq<nat>): set<string>
    requires forall t | t in tickets :: t < |e.waiters|
  {
    set t | t in tickets :: e.waiters[t].req.id
  }

  /** What the pass leaves of the waiters when it has admitted exactly `tickets`. */
  predicate AdmittedExactly(e: Engine, r: Engine, tickets: seq<nat>) {
    && |r.waiters| == |e.waiters|
    && (forall t | t in tickets :: t < |e.waiters|)
    && (forall t | 0 <= t < |e.waiters| ::
          r.waiters[t] == if t in tickets then Deliver(e.waiters[t].(state := Admitted), Allow) else e.waiters[t])
    && r.held == e.held + Ids(e, tickets)
    && r.recentlyAdmitted == e.recentlyAdmitted + |tickets|
    && r.byID == e.byID && r.paused == e.paused && r.draining == e.draining && r.cpu == e.cpu && r.ramP == e.ramP
  }

  lemma AdmitOneKeepsIndex(p: Policy, reading: Clock, x: PassState)
    requires Indexed(x.e) && QueuedHead(x.e)
    ensures Indexed(AdmitOne(p, reading, x).e)
  {
    var req := Head(x.e).req;
    var tried := Tried(p, reading, x);
    var taken := TakeRecord(TakeSlot(tried), reading(AfterLook(p, req, x.k)));
    SameShapeKeepsIndex(x.e, taken);
    AdmitKeepsIndex(taken);
  }

  lemma WaitingIsQueued(ws: seq<WaiterView>, queue: seq<nat>)
    requires forall i | 0 <= i < |queue| :: queue[i] < |ws|
    ensures forall t | t in Waiting(ws, queue) :: t in queue && ws[t].state.Queued?
  {
    if queue != [] {
      WaitingIsQueued(ws, queue[1..]);
    }
  }

  lemma AdmitOneTakesTheFirstWaiting(p: Policy, reading: Clock, x: PassState)
    requires Indexed(x.e) && QueuedHead(x.e)
    ensures Bounded(AdmitOne(p, reading, x).e)
    ensures WaitingIn(x.e) == [x.e.queue[0]] + WaitingIn(AdmitOne(p, reading, x).e)
  {
    var r := AdmitOne(p, reading, x).e;
    assert r.queue == x.e.queue[1..];
    WaitingLooksOnlyAtTheQueue(x.e.waiters, r.waiters, x.e.queue[1..]);
  }

  lemma AdmittedThenMore(e: Engine, m: Engine, r: Engine, t0: nat, ts: seq<nat>)
    requires t0 !in ts && AdmittedExactly(e, m, [t0]) && AdmittedExactly(m, r, ts)
    ensures AdmittedExactly(e, r, [t0] + ts)
  {
    assert forall t | t in ts :: m.waiters[t].req.id == e.waiters[t].req.id;
    assert Ids(e, [t0] + ts) == Ids(e, [t0]) + Ids(m, ts);
  }

  lemma AdmitOneAdmitsTheHead(p: Policy, reading: Clock, x: PassState)
    requires Indexed(x.e) && QueuedHead(x.e)
    ensures AdmittedExactly(x.e, AdmitOne(p, reading, x).e, [x.e.queue[0]])
  {
    assert Ids(x.e, [x.e.queue[0]]) == {Head(x.e).req.id};
  }

  lemma TriedStillRefuses(p: Policy, reading: Clock, x: PassState)
    requires HasHead(x.e)
    ensures Hold(p.window, reading(x.k), Head(x.e).req, Tried(p, reading, x).recent, x.builds) == HeadHold(p, reading, x)
  {
    var now := reading(x.k);
    CollectingKeepsFresh(p.window, now, x.e.recent, x.e.recent);
    SameFreshSameHold(p.window, now, Head(x.e).req, Fresh(p.window, now, x.e.recent), x.e.recent, x.builds);
  }

  /**
   * The pass from `x` to `o` has admitted `ts`: a prefix of the waiting waiters, and exactly that prefix;
   * and it ended with an empty queue or with a head that some gate refuses as things then stand, at a clock
   * reading of this very pass.
   */
  ghost predicate LongestPrefix(p: Policy, reading: Clock, x: PassState, o: PassState, ts: seq<nat>, j: nat) {
    && Bounded(x.e) && Bounded(o.e)
    && o.admitted == x.admitted + ts
    && WaitingIn(x.e) == ts + WaitingIn(o.e)
    && AdmittedExactly(x.e, o.e, ts)
    && x.k <= j <= o.k
    && (o.e.queue == [] || RefusedAt(p, o.e, o.builds, reading(j)))
  }

  lemma RefusalLeavesAll(e: Engine, tried: Engine, delay: int)
    requires Bounded(e) && tried == e.(recent := tried.recent)
    ensures AdmittedExactly(e, e, []) && Bounded(ArmTimer(tried, HeadId(e), delay))
    ensures AdmittedExactly(e, ArmTimer(tried, HeadId(e), delay), [])
    ensures WaitingIn(ArmTimer(tried, HeadId(e), delay)) == WaitingIn(e)
  {
    assert Ids(e, []) == {};
  }

  function HeadId(e: Engine): string {
    if HasHead(e) then Head(e).req.id else ""
  }

  lemma RefusalIsLongestPrefix(p: Policy, reading: Clock, x: PassState)
    requires Bounded(x.e) && QueuedHead(x.e) && !x.e.draining
    requires !SlotFree(p, x.e, Head(x.e).req.id) || !LoadAdmits(p, x.e.cpu, x.e.ramP, x.e.recentlyAdmitted)
      || HeadHold(p, reading, x) != 0
    ensures LongestPrefix(p, reading, x, RunPass(p, reading, x), [], x.k)
  {
    var e := x.e;
    if !SlotFree(p, e, Head(e).req.id) || !LoadAdmits(p, e.cpu, e.ramP, e.recentlyAdmitted) {
      RefusalLeavesAll(e, e, LOAD_RETRY);
    } else {
      TriedStillRefuses(p, reading, x);
      RefusalLeavesAll(e, Tried(p, reading, x), HeadHold(p, reading, x));
    }
  }

  lemma HeadWaitsNoMore(e: Engine, y: Engine, rest: seq<nat>, left: seq<nat>)
    requires Bounded(e) && Bounded(y) && Sorted(e.queue) && HasHead(e)
    requires y.queue == e.queue[1..] && WaitingIn(y) == rest + left
    ensures e.queue[0] !in rest
  {
    WaitingIsQueued(y.waiters, y.queue);
    HeadLeavesQueue(e, e.queue[0]);
    assert forall t | t in rest :: t in WaitingIn(y);
  }

  lemma AdmitThenMore(p: Policy, reading: Clock, x: PassState, o: PassState, rest: seq<nat>, j: nat)
    requires Indexed(x.e) && QueuedHead(x.e)
    requires LongestPrefix(p, reading, AdmitOne(p, reading, x), o, rest, j)
    ensures LongestPrefix(p, reading, x, o, [x.e.queue[0]] + rest, j)
  {
    hide AdmitOne, AdmittedExactly, WaitingIn, RefusedAt, Filed;
    var y := AdmitOne(p, reading, x);
    var t0 := x.e.queue[0];
    AdmitOneLists(p, reading, x);
    AdmitOneTakesTheFirstWaiting(p, reading, x);
    AdmitOneAdmitsTheHead(p, reading, x);
    HeadWaitsNoMore(x.e, y.e, rest, WaitingIn(o.e));
    AdmittedThenMore(x.e, y.e, o.e, t0, rest);
    assert [t0] + (rest + WaitingIn(o.e)) == ([t0] + rest) + WaitingIn(o.e);
  }

  lemma AdmitOneLists(p: Policy, reading: Clock, x: PassState)
    requires HasHead(x.e)
    ensures AdmitOne(p, reading, x).admitted == x.admitted + [x.e.queue[0]]
    ensures AdmitOne(p, reading, x).e.queue == x.e.queue[1..] && AdmitOne(p, reading, x).e.draining == x.e.draining
    ensures x.k <= AdmitOne(p, reading, x).k
  {
  }

  /** How the pass goes on past a head it admits. */
  lemma PassGoesOn(p: Policy, reading: Clock, x: PassState)
    requires Bounded(x.e) && QueuedHead(x.e) && !x.e.draining
    requires SlotFree(p, x.e, Head(x.e).req.id) && LoadAdmits(p, x.e.cpu, x.e.ramP, x.e.recentlyAdmitted)
    requires HeadHold(p, reading, x) == 0
    ensures Bounded(AdmitOne(p, reading, x).e)
    ensures RunPass(p, reading, x) == RunPass(p, reading, AdmitOne(p, reading, x))
  {
  }

  /** An undraining pass admits the longest prefix of the waiting waiters that the gates let in one by one. */
  lemma {:induction false} PassAdmitsLongestPrefix(p: Policy, reading: Clock, x: PassState) returns (ts: seq<nat>, j: nat)
    requires Indexed(x.e) && !x.e.draining
    ensures LongestPrefix(p, reading, x, RunPass(p, reading, x), ts, j)
    decreases |x.e.queue|
  {
    hide LongestPrefix, AdmitOne, HeadHold, SlotFree, LoadAdmits;
    var e := x.e;
    ts, j := [], x.k;
    if e.queue == [] {
      EmptyQueueIsDone(p, reading, x);
    } else if !Head(e).state.Queued? {
      PopKeepsIndex(e);
      ts, j := PassAdmitsLongestPrefix(p, reading, x.(e := PopHead(e)));
      PopThenAdmit(p, reading, x, RunPass(p, reading, x), ts, j);
    } else if !SlotFree(p, e, Head(e).req.id) || !LoadAdmits(p, e.cpu, e.ramP, e.recentlyAdmitted) || HeadHold(p, reading, x) != 0 {
      RefusalIsLongestPrefix(p, reading, x);
    } else {
      AdmitOneKeepsIndex(p, reading, x);
      AdmitOneLists(p, reading, x);
      ts, j := PassAdmitsLongestPrefix(p, reading, AdmitOne(p, reading, x));
      PassGoesOn(p, reading, x);
      AdmitThenMore(p, reading, x, RunPass(p, reading, x), ts, j);
      ts := [e.queue[0]] + ts;
    }
  }

  lemma EmptyQueueIsDone(p: Policy, reading: Clock, x: PassState)
    requires Bounded(x.e) && x.e.queue == []
    ensures LongestPrefix(p, reading, x, x, [], x.k)
  {
    assert Ids(x.e, []) == {};
  }

  lemma PopThenAdmit(p: Policy, reading: Clock, x: PassState, o: PassState, ts: seq<nat>, j: nat)
    requires Bounded(x.e) && HasHead(x.e) && !Head(x.e).state.Queued?
    requires LongestPrefix(p, reading, x.(e := PopHead(x.e)), o, ts, j)
    ensures LongestPrefix(p, reading, x, o, ts, j)
  {
    assert WaitingIn(PopHead(x.e)) == WaitingIn(x.e);
    assert Ids(PopHead(x.e), ts) == Ids(x.e, ts);
  }

  // ---- draining ----

  /** What is left when every waiting waiter has been denied. */
  ghost predicate AllDenied(e: Engine, r: Engine)
    requires Bounded(e)
  {
    && r.queue == []
    && |r.waiters| == |e.waiters|
    && (forall t | 0 <= t < |e.waiters| ::
          r.waiters[t] == if t in WaitingIn(e) then Deliver(e.waiters[t], Deny).(state := Done) else e.waiters[t])
    && r == e.(waiters := r.waiters, queue := r.queue, byID := r.byID)
    && (forall id :: id in r.byID <==> id in e.byID && !e.waiters[e.byID[id]].state.Queued?)
    && (forall id | id in r.byID :: r.byID[id] == e.byID[id])
  }

  lemma DenyTakesTheFirstWaiting(e: Engine)
    requires Indexed(e) && QueuedHead(e)
    ensures Bounded(DenyHead(e)) && WaitingIn(e) == [e.queue[0]] + WaitingIn(DenyHead(e))
    ensures e.queue[0] !in WaitingIn(DenyHead(e))
    ensures Head(e).req.id in e.byID && e.byID[Head(e).req.id] == e.queue[0] && DenyHead(e).byID == e.byID - {Head(e).req.id}
  {
    var m := DenyHead(e);
    DenyKeepsIndex(e);
    assert m.queue == e.queue[1..];
    WaitingLooksOnlyAtTheQueue(e.waiters, m.waiters, e.queue[1..]);
    HeadWaitsNoMore(e, m, WaitingIn(m), []);
  }

  lemma DenyThenMore(e: Engine, r: Engine)
    requires Indexed(e) && QueuedHead(e)
    requires Bounded(DenyHead(e)) && AllDenied(DenyHead(e), r)
    ensures AllDenied(e, r)
  {
    hide Filed, Sorted, WaitingIn;
    var m := DenyHead(e);
    DenyTakesTheFirstWaiting(e);
    forall id | id in e.byID && id != Head(e).req.id
      ensures m.waiters[e.byID[id]] == e.waiters[e.byID[id]]
    {
      assert e.waiters[e.byID[id]].req.id == id;
    }
  }

  lemma PopThenMore(e: Engine, r: Engine)
    requires Indexed(e) && HasHead(e) && !Head(e).state.Queued?
    requires Bounded(PopHead(e)) && AllDenied(PopHead(e), r)
    ensures AllDenied(e, r)
  {
    assert WaitingIn(PopHead(e)) == WaitingIn(e);
  }

  lemma NobodyLeftToDeny(e: Engine)
    requires Indexed(e) && e.queue == []
    ensures AllDenied(e, e)
  {
    forall id | id in e.byID
      ensures !e.waiters[e.byID[id]].state.Queued?
    {
      assert Filed(e, e.byID[id]);
    }
  }

  /** A draining pass denies every waiting waiter, empties the queue and leaves slots, records and timers alone. */
  lemma {:induction false} PassDeniesAll(p: Policy, reading: Clock, x: PassState)
    requires Indexed(x.e) && x.e.draining
    ensures var o := RunPass(p, reading, x);
      AllDenied(x.e, o.e) && o.admitted == x.admitted && o.k == x.k
    decreases |x.e.queue|
  {
    hide AllDenied;
    var e := x.e;
    if e.queue == [] {
      NobodyLeftToDeny(e);
    } else if !Head(e).state.Queued? {
      PopKeepsIndex(e);
      PassDeniesAll(p, reading, x.(e := PopHead(e)));
      PopThenMore(e, RunPass(p, reading, x).e);
    } else {
      DenyKeepsIndex(e);
      PassDeniesAll(p, reading, x.(e := DenyHead(e)));
      DenyThenMore(e, RunPass(p, reading, x).e);
    }
  }

  // ---- the whole schedule call ----

  /** Paused, a schedule call changes nothing; not even a drain is carried out. */
  lemma PausedScheduleDoesNothing(p: Policy, reading: Clock, e: Engine, builds: seq<ActiveBuild>, k: nat)
    requires Bounded(e) && e.paused
    ensures Schedule(p, reading, e, builds, k).e == e
  {
  }

  /** Unpaused and undraining, it admits exactly the longest prefix the gates accept one by one. */
  lemma ScheduleAdmitsLongestPrefix(p: Policy, reading: Clock, e: Engine, builds: seq<ActiveBuild>, k: nat) returns (j: nat)
    requires Indexed(e) && !e.paused && !e.draining
    ensures var o := Schedule(p, reading, e, builds, k);
      && Bounded(o.e)
      && WaitingIn(e) == o.admitted + WaitingIn(o.e)
      && AdmittedExactly(e, o.e, o.admitted)
      && k <= j <= o.k
      && (o.e.queue == [] || RefusedAt(p, o.e, o.builds, reading(j)))
  {
    var x := PassState(e, builds, k, []);
    var ts;
    ts, j := PassAdmitsLongestPrefix(p, reading, x);
    assert RunPass(p, reading, x).admitted == ts;
    assert e.queue == [] ==> RunPass(p, reading, x) == x;
  }

  /** Unpaused and draining, it denies every waiting waiter and leaves slots, records and timers alone. */
  lemma ScheduleDeniesAll(p: Policy, reading: Clock, e: Engine, builds: seq<ActiveBuild>, k: nat)
    requires Indexed(e) && !e.paused && e.draining
    ensures AllDenied(e, Schedule(p, reading, e, builds, k).e)
  {
    PassDeniesAll(p, reading, PassState(e, builds, k, []));
    if e.queue == [] {
      NobodyLeftToDeny(e);
    }
  }

  /** A schedule call touches only waiters that are waiting. */
  lemma ScheduleSparesTheSettled(p: Policy, reading: Clock, e: Engine, builds: seq<ActiveBuild>, k: nat)
    requires Indexed(e)
    ensures var r := Schedule(p, reading, e, builds, k).e;
      |r.waiters| == |e.waiters|
      && forall t | 0 <= t < |e.waiters| && !e.waiters[t].state.Queued? :: r.waiters[t] == e.waiters[t]
  {
    WaitingIsQueued(e.waiters, e.queue);
    if e.paused {
    } else if e.draining {
      ScheduleDeniesAll(p, reading, e, builds, k);
    } else {
      var j := ScheduleAdmitsLongestPrefix(p, reading, e, builds, k);
      var o := Schedule(p, reading, e, builds, k);
      assert forall t | t in o.admitted :: t in WaitingIn(e);
    }
  }

  /** Whoever a schedule call admits was waiting. */
  lemma ScheduleAdmitsOnlyTheWaiting(p: Policy, reading: Clock, e: Engine, builds: seq<ActiveBuild>, k: nat)
    requires Indexed(e)
    ensures forall t | t in Schedule(p, reading, e, builds, k).admitted :: t in e.queue && e.waiters[t].state.Queued?
  {
    WaitingIsQueued(e.waiters, e.queue);
    if e.paused || e.queue == [] {
    } else if e.draining {
      PassDeniesAll(p, reading, PassState(e, builds, k, []));
    } else {
      var j := ScheduleAdmitsLongestPrefix(p, reading, e, builds, k);
      var o := Schedule(p, reading, e, builds, k);
      assert forall t | t in o.admitted :: t in WaitingIn(e);
    }
  }
}
