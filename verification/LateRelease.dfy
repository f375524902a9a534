/** A run on which a gate release that arrives late lets two builds in where there is one slot. */
module LateRelease {
  import opened AdmissionModel
  import opened AdmissionSystem
  import opened QueueIndex
  import opened ScheduleRuns
  import opened SlotSafety
  import opened Targets

  /** One slot, and neither the load gate nor the stagger gate in use. */
  const ONE_SLOT := Policy(1, 0.0, 0, 0, 0)

  function Plain(id: string): Request {
    Request(id, "", 0, "")
  }

  /** A lone queued waiter whose slot is free is admitted when its schedule call runs undisturbed. */
  lemma LoneHeadIsAdmitted(p: Policy, s: System) returns (r: System)
    requires Bounded(s.e) && s.pass.phase.Idle? && s.pending.owed > 0 && !s.e.paused && !s.e.draining
    requires |s.e.queue| == 1 && QueuedHead(s.e) && SlotFree(p, s.e, Head(s.e).req.id)
    requires p.window <= 0 && LoadAdmits(p, s.e.cpu, s.e.ramP, s.e.recentlyAdmitted)
    ensures Leads(p, s, r)
    ensures r.e == AdmitHead(TakeRecord(TakeSlot(s.e), s.now)) && r.pass.phase.Idle? && r.now == s.now
    ensures r.pending == s.pending.(owed := s.pending.owed - 1)
  {
    hide Leads, LoadAdmits;
    r := LoneHeadPasses(p, s);
    assert s.e.(recent := AfterTry(p.window, s.now, Head(s.e).req, s.e.recent)) == s.e;
  }

  /** `a` is admitted, and its release has cleared the index but not yet reached the semaphore. */
  lemma ReleaseUnderWay(a: string) returns (s: System)
    ensures Leads(ONE_SLOT, Init(0), s) && Bounded(s.e) && s.pass.phase.Idle? && s.now == 0
    ensures s.e == EMPTY_ENGINE.(waiters := s.e.waiters, held := {a}, recent := s.e.recent, recentlyAdmitted := 1)
    ensures |s.e.waiters| == 1 && s.pending == Pending(multiset{a}, multiset{}, 0, 0)
  {
    hide Leads, Normalised, Hold, AfterTry, Fresh, GcQueued, DenyHead, ArmTimer;
    var s0 := Init(0);
    var s1 := Apply(ONE_SLOT, s0, AttachStep(Plain(a)));
    LeadsByStep(ONE_SLOT, s0, AttachStep(Plain(a)));
    var s2 := LoneHeadIsAdmitted(ONE_SLOT, s1);
    LeadsOn(ONE_SLOT, s0, s1, s2);
    ThenStep(ONE_SLOT, s0, s2, ReleaseEntryStep(a));
    s := Apply(ONE_SLOT, s2, ReleaseEntryStep(a));
    assert s.pending.releasing == multiset{a};
  }

  /** Before it does, `a` attaches again and is admitted on the slot it still holds. */
  lemma ReattachedBeforeItsReleaseLands(a: string) returns (s: System)
    ensures Leads(ONE_SLOT, Init(0), s) && Bounded(s.e) && s.pass.phase.Idle? && s.now == 0
    ensures AdmittedIds(s.e) == {a} == s.e.byID.Keys && s.e.held == {a} && s.e.queue == []
    ensures !s.e.paused && !s.e.draining && s.pending.releasing == multiset{a} && s.pending.owed == 0
  {
    hide Leads, Normalised, Hold, AfterTry, Fresh, GcQueued, DenyHead, ArmTimer;
    var s3 := ReleaseUnderWay(a);
    ThenStep(ONE_SLOT, Init(0), s3, AttachStep(Plain(a)));
    var s4 := Apply(ONE_SLOT, s3, AttachStep(Plain(a)));
    s := LoneHeadIsAdmitted(ONE_SLOT, s4);
    LeadsOn(ONE_SLOT, Init(0), s4, s);
  }

  /** The release then lands on the new waiter's slot, and `b` attaches. */
  lemma SlotFreedUnderTheNewWaiter(a: string, b: string) returns (s: System)
    requires a != b
    ensures Leads(ONE_SLOT, Init(0), s) && Bounded(s.e) && s.pass.phase.Idle? && s.pending.owed > 0
    ensures !s.e.paused && !s.e.draining && s.e.held == {} && AdmittedIds(s.e) == {a}
    ensures |s.e.queue| == 1 && QueuedHead(s.e) && Head(s.e).req == Plain(b)
    ensures b in s.e.byID && s.e.byID[b] == s.e.queue[0] && s.e.byID.Keys == {a, b}
  {
    hide Leads, Normalised, Hold, AfterTry, Fresh, GcQueued, DenyHead, ArmTimer;
    var s5 := ReattachedBeforeItsReleaseLands(a);
    ThenStep(ONE_SLOT, Init(0), s5, ReleaseSlotStep(a));
    var s6 := Apply(ONE_SLOT, s5, ReleaseSlotStep(a));
    ThenStep(ONE_SLOT, Init(0), s6, AttachStep(Plain(b)));
    s := Apply(ONE_SLOT, s6, AttachStep(Plain(b)));
    assert forall k | k in s5.e.byID :: s.e.byID[k] == s5.e.byID[k] && s.e.waiters[s.e.byID[k]] == s5.e.waiters[s5.e.byID[k]];
  }

  /** It takes the slot: two admitted builds, one slot. */
  lemma LateReleaseAdmitsTooMany(a: string, b: string) returns (s: System)
    requires a != b
    ensures Leads(ONE_SLOT, Init(0), s) && Bounded(s.e)
    ensures Slots(ONE_SLOT) == 1 && AdmittedIds(s.e) == {a, b} && s.e.held == {b}
  {
    hide Leads, Normalised, Hold, AfterTry, Fresh, GcQueued, DenyHead, ArmTimer;
    var s7 := SlotFreedUnderTheNewWaiter(a, b);
    s := LoneHeadIsAdmitted(ONE_SLOT, s7);
    LeadsOn(ONE_SLOT, Init(0), s7, s);
    assert forall k | k in s.e.byID && k != b :: s.e.byID[k] == s7.e.byID[k];
  }
}
