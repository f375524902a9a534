/** What holds in every state that any interleaving of the engine's operations can reach. */
module AdmissionTheorems {
  import opened Wrappers
  import opened Targets
  import opened AdmissionModel
  import opened AdmissionSystem
  import opened QueueIndex
  import opened SlotSafety
  import opened Wakeup
  import opened Fifo
  import opened Spacing
  import opened Stampede
  import opened Verdicts
  import ScheduleSpec

  ghost predicate Inv(p: Policy, s: System) {
    && Indexed(s.e)
    && PassHasHead(s)
    && SlotInv(p, s)
    && Awake(s)
    && FifoInv(s)
    && SpacingInv(p, s)
    && RampInv(p, s)
    && VerdictInv(s)
  }

  lemma InitInv(p: Policy, now: Time)
    ensures Inv(p, Init(now))
  {
  }

  lemma InvIsIndexed(p: Policy, s: System)
    requires Inv(p, s)
    ensures Indexed(s.e)
  {
  }

  lemma StepKeepsInv(p: Policy, s: System, step: Step)
    requires Inv(p, s) && Enabled(s, step)
    ensures Inv(p, Apply(p, s, step))
  {
    hide Apply, Enabled, Indexed, PassHasHead, SlotInv, Awake, FifoInv, SpacingInv, RampInv, VerdictInv;
    StepKeepsIndex(p, s, step);
    StepKeepsSlotInv(p, s, step);
    StepKeepsAwake(p, s, step);
    StepKeepsFifo(p, s, step);
    StepKeepsSpacing(p, s, step);
    StepKeepsRamp(p, s, step);
    StepKeepsVerdicts(p, s, step);
  }

  lemma {:induction false} RunKeepsInv(p: Policy, s: System, steps: seq<Step>)
    requires Inv(p, s) && Legal(p, s, steps)
    ensures Inv(p, Run(p, s, steps))
    decreases |steps|
  {
    hide Apply, Enabled, Inv;
    if steps == [] {
    } else {
      StepKeepsInv(p, s, steps[0]);
      RunKeepsInv(p, Apply(p, s, steps[0]), steps[1..]);
    }
  }

  /** The state after a run from a fresh engine. */
  ghost function Reached(p: Policy, now: Time, steps: seq<Step>): System
    requires Legal(p, Init(now), steps)
  {
    Run(p, Init(now), steps)
  }

  lemma ReachedInv(p: Policy, now: Time, steps: seq<Step>)
    requires Legal(p, Init(now), steps)
    ensures Inv(p, Reached(p, now, steps))
  {
    InitInv(p, now);
    RunKeepsInv(p, Init(now), steps);
  }

  // ---- queue and index ----

  /** In every reachable state a waiter's state says exactly where it is to be found. */
  lemma WaitersAreWhereTheirStateSays(p: Policy, now: Time, steps: seq<Step>)
    requires Legal(p, Init(now), steps)
    ensures var e := Reached(p, now, steps).e;
      && Bounded(e)
      && (forall i, j | 0 <= i < j < |e.queue| :: e.queue[i] < e.queue[j])
      && (forall t | 0 <= t < |e.waiters| && e.waiters[t].state.Queued? ::
            t in e.queue && e.waiters[t].req.id in e.byID && e.byID[e.waiters[t].req.id] == t)
      && (forall t | 0 <= t < |e.waiters| && e.waiters[t].state.Admitted? ::
            t !in e.queue && e.waiters[t].req.id in e.byID && e.byID[e.waiters[t].req.id] == t)
      && (forall id | id in e.byID :: e.waiters[e.byID[id]].req.id == id && !e.waiters[e.byID[id]].state.Done?)
  {
    ReachedInv(p, now, steps);
    IndexedMeans(Reached(p, now, steps).e);
  }

  lemma IndexedMeans(e: Engine)
    requires Indexed(e)
    ensures forall t | 0 <= t < |e.waiters| && e.waiters[t].state.Queued? ::
      t in e.queue && e.waiters[t].req.id in e.byID && e.byID[e.waiters[t].req.id] == t
    ensures forall t | 0 <= t < |e.waiters| && e.waiters[t].state.Admitted? ::
      t !in e.queue && e.waiters[t].req.id in e.byID && e.byID[e.waiters[t].req.id] == t
    ensures forall id | id in e.byID :: !e.waiters[e.byID[id]].state.Done?
  {
    forall t | 0 <= t < |e.waiters|
      ensures e.waiters[t].state.Queued? ==>
        t in e.queue && e.waiters[t].req.id in e.byID && e.byID[e.waiters[t].req.id] == t
      ensures e.waiters[t].state.Admitted? ==>
        t !in e.queue && e.waiters[t].req.id in e.byID && e.byID[e.waiters[t].req.id] == t
      ensures e.waiters[t].state.Done? ==> !(e.waiters[t].req.id in e.byID && e.byID[e.waiters[t].req.id] == t)
    {
      assert Filed(e, t);
    }
  }

  // ---- slots ----

  /** No interleaving holds more slots than there are, or holds one for nobody. */
  lemma NoSlotOverrunOrLeak(p: Policy, now: Time, steps: seq<Step>)
    requires Legal(p, Init(now), steps)
    ensures var s := Reached(p, now, steps);
      && Bounded(s.e)
      && |s.e.held| <= Slots(p)
      && (forall id | id in s.e.held :: id in Owners(s) || id in s.pending.releasing)
  {
    ReachedInv(p, now, steps);
  }

  /** No step of the run re-attaches an id whose own Release is still in flight. */
  ghost predicate PoliteRun(p: Policy, s: System, steps: seq<Step>)
    requires Legal(p, s, steps)
    decreases |steps|
  {
    steps != [] ==> Polite(s, steps[0]) && PoliteRun(p, Apply(p, s, steps[0]), steps[1..])
  }

  lemma {:induction false} PoliteRunStaysCovered(p: Policy, s: System, steps: seq<Step>)
    requires Inv(p, s) && Legal(p, s, steps) && PoliteRun(p, s, steps)
    requires Covered(s) && NoReleaseOfIndexed(s)
    ensures Bounded(Run(p, s, steps).e)
    ensures Covered(Run(p, s, steps)) && NoReleaseOfIndexed(Run(p, s, steps))
    decreases |steps|
  {
    hide Apply, Enabled, Covered, NoReleaseOfIndexed, Polite, SlotInv, FifoInv, SpacingInv, RampInv, VerdictInv, Awake;
    if steps == [] {
    } else {
      StepKeepsInv(p, s, steps[0]);
      PoliteStepKeepsCover(p, s, steps[0]);
      PoliteRunStaysCovered(p, Apply(p, s, steps[0]), steps[1..]);
    }
  }

  /**
   * Without such a re-attach every owner holds its slot, so no more waiters are admitted than there
   * are slots; and once no release is in flight the held ids are exactly the owners.
   */
  lemma PoliteRunsHoldExactlyTheAdmitted(p: Policy, now: Time, steps: seq<Step>)
    requires Legal(p, Init(now), steps) && PoliteRun(p, Init(now), steps)
    ensures var s := Reached(p, now, steps);
      && Bounded(s.e)
      && AdmittedIds(s.e) <= Owners(s) <= s.e.held
      && |AdmittedIds(s.e)| <= Slots(p)
      && (s.pending.releasing == multiset{} ==> s.e.held == Owners(s))
      && (s.pending.releasing == multiset{} && s.pass.phase.Idle? ==> s.e.held == AdmittedIds(s.e))
  {
    InitInv(p, now);
    ReachedInv(p, now, steps);
    PoliteRunStaysCovered(p, Init(now), steps);
    var s := Reached(p, now, steps);
    SubsetSize(AdmittedIds(s.e), s.e.held);
  }

  // ---- wakeups ----

  /**
   * Whenever a waiter is queued and admissions are not paused, some admitted build is still to
   * release its slot, or a retry timer runs, or an operation under way will call schedule, or a
   * scheduling pass is in progress.
   */
  lemma NoLostWakeup(p: Policy, now: Time, steps: seq<Step>)
    requires Legal(p, Init(now), steps)
    ensures var s := Reached(p, now, steps);
      && Bounded(s.e)
      && (SomeoneQueued(s.e) && !s.e.paused ==>
            AdmittedIds(s.e) != {} || TimerLive(s.e) || CallDue(s.pending) || !s.pass.phase.Idle?)
  {
    ReachedInv(p, now, steps);
    var s := Reached(p, now, steps);
    if s.pass.phase.Idle? && s.e.held != {} && !CallDue(s.pending) {
      var id :| id in s.e.held;
      assert id in Owners(s) || id in s.pending.releasing;
      assert id in AdmittedIds(s.e);
    }
  }

  // ---- order ----

  /** Admissions happen in ticket order, and whoever still waits came after everyone admitted. */
  lemma FirstComeFirstServed(p: Policy, now: Time, steps: seq<Step>)
    requires Legal(p, Init(now), steps)
    ensures var s := Reached(p, now, steps);
      && Sorted(s.e.queue)
      && InOrder(s.past.log)
      && (forall t | t in s.e.queue :: AheadOf(Settled(s), t))
  {
    ReachedInv(p, now, steps);
  }

  // ---- stagger spacing ----

  /**
   * Two admissions of overlapping target sets are at least a window apart, unless the id of the
   * earlier one was admitted again no later than the other.
   */
  lemma OverlappingAdmissionsAreSpaced(p: Policy, now: Time, steps: seq<Step>, i: nat, j: nat)
    requires Legal(p, Init(now), steps)
    requires i < j < |Reached(p, now, steps).past.log|
    requires var log := Reached(p, now, steps).past.log;
      Overlap(log[i].targets, log[j].targets) && !Readmitted(log, i, j)
    ensures var log := Reached(p, now, steps).past.log; log[j].at - log[i].at >= p.window
  {
    ReachedInv(p, now, steps);
  }

  // ---- anti-stampede ----

  /** Between two load samples no more builds are admitted than the last sample read has headroom for. */
  lemma SampleHeadroomBoundsAdmissions(p: Policy, now: Time, steps: seq<Step>)
    requires Legal(p, Init(now), steps) && p.cpuHigh > 0.0
    ensures var s := Reached(p, now, steps);
      s.e.recentlyAdmitted > 0 ==>
        && s.past.lastCpu.Some?
        && s.e.recentlyAdmitted <= Ceiling((p.cpuHigh - s.past.lastCpu.value) / RAMP_PER_HEAD)
  {
    ReachedInv(p, now, steps);
    var s := Reached(p, now, steps);
    if s.e.recentlyAdmitted > 0 {
      RampBound(p, s);
    }
  }

  // ---- verdicts ----

  /** A waiter's channel is sent to at most once, and only while its one slot is empty. */
  lemma VerdictsAreSingleShot(p: Policy, now: Time, steps: seq<Step>)
    requires Legal(p, Init(now), steps)
    ensures var s := Reached(p, now, steps);
      && (forall t: nat :: s.past.sends[t] <= 1)
      && (Enabled(s, DenyStep) || Enabled(s, AdmitStep) ==> Head(s.e).buffer.None?)
  {
    hide FifoInv, SpacingInv, RampInv, SlotInv, Awake, Run, Legal;
    ReachedInv(p, now, steps);
    var s := Reached(p, now, steps);
    forall t: nat
      ensures s.past.sends[t] <= 1
    {
      if t < |s.e.waiters| {
        assert HeardOnce(s, t);
      }
    }
    if Enabled(s, DenyStep) || Enabled(s, AdmitStep) {
      assert HeardOnce(s, s.e.queue[0]);
    }
  }

  /** How many times an ALLOW has been returned to callers of `id`. */
  function ReturnsFor(s: System, allowed: seq<nat>, id: string): nat {
    if allowed == [] then 0
    else
      var t := allowed[|allowed| - 1];
      ReturnsFor(s, allowed[..|allowed| - 1], id) + if t < |s.e.waiters| && s.e.waiters[t].req.id == id then 1 else 0
  }

  lemma {:induction false} DistinctReturnsAreFew(s: System, allowed: seq<nat>, id: string, tickets: set<nat>)
    requires NoRepeats(allowed)
    requires forall t | t in allowed && t < |s.e.waiters| && s.e.waiters[t].req.id == id :: t in tickets
    ensures ReturnsFor(s, allowed, id) <= |tickets|
  {
    if allowed != [] {
      var front, t := allowed[..|allowed| - 1], allowed[|allowed| - 1];
      assert t !in front;
      if t < |s.e.waiters| && s.e.waiters[t].req.id == id {
        DistinctReturnsAreFew(s, front, id, tickets - {t});
      } else {
        DistinctReturnsAreFew(s, front, id, tickets);
      }
    }
  }

  /**
   * No waiter's ALLOW is returned twice, and callers of an id are told ALLOW at most once per acquisition
   * made for it.
   */
  lemma AllowsNeverExceedAcquisitions(p: Policy, now: Time, steps: seq<Step>, id: string)
    requires Legal(p, Init(now), steps)
    ensures var s := Reached(p, now, steps);
      && NoRepeats(s.past.allowed)
      && (forall t | t in s.past.allowed :: t < |s.e.waiters|)
      && ReturnsFor(s, s.past.allowed, id) <= |AdmittedTickets(s.past.log, id)|
  {
    ReachedInv(p, now, steps);
    var s := Reached(p, now, steps);
    forall t | t in s.past.allowed && t < |s.e.waiters| && s.e.waiters[t].req.id == id
      ensures t in AdmittedTickets(s.past.log, id)
    {
      assert HeardOnce(s, t);
    }
    DistinctReturnsAreFew(s, s.past.allowed, id, AdmittedTickets(s.past.log, id));
  }

  /**
   * A new poll for an admitted id joins the waiter that was admitted. If nobody has taken its ALLOW
   * yet, the ALLOW is there to be received; and the poll takes no slot, sends nothing and admits nobody.
   */
  lemma RepollFindsTheBufferedAllow(p: Policy, now: Time, steps: seq<Step>, req: Request)
    requires Legal(p, Init(now), steps)
    requires var s := Reached(p, now, steps);
      Enabled(s, AttachStep(req)) && req.id in AdmittedIds(s.e)
    ensures var s := Reached(p, now, steps);
      var r := Apply(p, s, AttachStep(req));
      var t := s.e.byID[req.id];
      && TicketFor(s.e, req.id) == t && r.e.byID == s.e.byID && r.e.queue == s.e.queue
      && r.e.waiters[t].buffer == (if t in s.past.allowed then None else Some(Allow))
      && r.e.held == s.e.held && r.past == s.past
  {
    ReachedInv(p, now, steps);
    var s := Reached(p, now, steps);
    assert HeardOnce(s, s.e.byID[req.id]);
  }

  /**
   * The rest of that poll, with nothing in between: its own schedule call admits other waiters at most, so
   * the ALLOW that nobody has taken yet is what the poll returns, without a second slot or a second send.
   */
  lemma RepollIsAnsweredWithoutASecondSlot(p: Policy, now: Time, steps: seq<Step>, req: Request,
                                           reading: ScheduleSpec.Clock, builds: seq<ActiveBuild>, k: nat)
    requires Legal(p, Init(now), steps)
    requires var s := Reached(p, now, steps);
      && Enabled(s, AttachStep(req)) && req.id in AdmittedIds(s.e) && s.e.byID[req.id] !in s.past.allowed
    ensures var s := Reached(p, now, steps);
      var a := Attach(s.e, req);
      && Bounded(a)
      && var o := ScheduleSpec.Schedule(p, reading, a, builds, k);
      && s.e.byID[req.id] < |o.e.waiters| && o.e.waiters[s.e.byID[req.id]].buffer == Some(Allow)
      && (forall t | t in o.admitted :: t < |a.waiters| && a.waiters[t].req.id != req.id)
  {
    ReachedInv(p, now, steps);
    var s := Reached(p, now, steps);
    var t := s.e.byID[req.id];
    RepollFindsTheBufferedAllow(p, now, steps, req);
    AttachKeepsIndex(s.e, req);
    var a := Attach(s.e, req);
    assert a == Apply(p, s, AttachStep(req)).e;
    hide Inv, Run, Legal, Apply, Attach;
    assert Filed(a, t);
    AdmittedIsLeftAlone(p, reading, a, builds, k, t);
  }

  /** A schedule call neither touches an admitted waiter nor admits another of the same id. */
  lemma AdmittedIsLeftAlone(p: Policy, reading: ScheduleSpec.Clock, e: Engine, builds: seq<ActiveBuild>, k: nat, t: nat)
    requires Indexed(e) && t < |e.waiters| && e.waiters[t].state.Admitted?
    ensures var o := ScheduleSpec.Schedule(p, reading, e, builds, k);
      && t < |o.e.waiters| && o.e.waiters[t] == e.waiters[t]
      && forall u | u in o.admitted :: u < |e.waiters| && e.waiters[u].req.id != e.waiters[t].req.id
  {
    ScheduleSpec.ScheduleSparesTheSettled(p, reading, e, builds, k);
    ScheduleSpec.ScheduleAdmitsOnlyTheWaiting(p, reading, e, builds, k);
    assert Filed(e, t);
    hide ScheduleSpec.Schedule, Sorted;
    forall u | u in ScheduleSpec.Schedule(p, reading, e, builds, k).admitted
      ensures u < |e.waiters| && e.waiters[u].req.id != e.waiters[t].req.id
    {
      assert u in e.queue && Filed(e, u);
    }
  }
}
