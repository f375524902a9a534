/** Semaphore slots: never too many, never leaked, and exactly when one is lost. */
module SlotSafety {
  import opened AdmissionModel
  import opened AdmissionSystem
  import opened QueueIndex

  predicate TakingSlot(s: System) {
    (s.pass.phase.SlotTaken? || s.pass.phase.RecordTaken?) && HasHead(s.e)
  }

  /** The ids the index leads to an admitted waiter. */
  function AdmittedIds(e: Engine): set<string>
    requires Bounded(e)
  {
    set id | id in e.byID && e.waiters[e.byID[id]].state.Admitted?
  }

  /** Ids that own a slot: the admitted ones, and that of the head whose admission is being completed. */
  function Owners(s: System): set<string>
    requires Bounded(s.e)
  {
    AdmittedIds(s.e) + if TakingSlot(s) then {Head(s.e).req.id} else {}
  }

  predicate SlotInv(p: Policy, s: System)
    requires Bounded(s.e)
  {
    && |s.e.held| <= Slots(p)
    && (forall id | id in s.e.held :: id in Owners(s) || id in s.pending.releasing)
    && OfferHolds(p, s)
  }

  function OwnersAfter(s: System, step: Step): set<string>
    requires Enabled(s, step)
  {
    match step
    case ReleaseEntryStep(id) => Owners(s) - {id}
    case TakeSlotStep => Owners(s) + {Head(s.e).req.id}
    case _ => Owners(s)
  }

  lemma SameShapeSameAdmitted(e: Engine, r: Engine)
    requires Bounded(e) && Bounded(r) && SameFiling(e, r)
    ensures AdmittedIds(r) == AdmittedIds(e)
  {
  }

  lemma AttachSameAdmitted(e: Engine, req: Request)
    requires Indexed(e)
    ensures Bounded(Attach(e, req))
    ensures AdmittedIds(Attach(e, req)) == AdmittedIds(e)
  {
    hide Filed, Sorted;
    AttachKeepsIndex(e, req);
    var r := Attach(e, req);
    if req.id in e.byID {
      SameShapeSameAdmitted(e, r);
    } else {
      forall id
        ensures id in AdmittedIds(r) <==> id in AdmittedIds(e)
      {
        assert id in e.byID ==> r.byID[id] == e.byID[id] && r.waiters[e.byID[id]] == e.waiters[e.byID[id]];
        assert id == req.id ==> r.waiters[r.byID[id]].state == Queued;
      }
    }
  }

  lemma ReleaseEntryAdmitted(e: Engine, id: string)
    requires Indexed(e)
    ensures Bounded(ReleaseEntry(e, id))
    ensures AdmittedIds(ReleaseEntry(e, id)) == AdmittedIds(e) - {id}
  {
    hide Filed, Sorted, StopTimer;
    var r := ReleaseEntry(e, id);
    ReleaseEntryKeepsIndex(e, id);
    forall k | k in r.byID
      ensures r.waiters[r.byID[k]] == e.waiters[e.byID[k]]
    {
    }
  }

  lemma CollectionSameAdmitted(e: Engine, now: Time, grace: int)
    requires Indexed(e)
    ensures Bounded(GcQueued(e, now, grace))
    ensures AdmittedIds(GcQueued(e, now, grace)) == AdmittedIds(e)
  {
    CollectionKeepsIndex(e, now, grace);
    CollectionRemovesOnlyTheStale(e, now, grace);
    var r := GcQueued(e, now, grace);
    forall id
      ensures id in AdmittedIds(r) <==> id in AdmittedIds(e)
    {
    }
  }

  lemma DenySameAdmitted(e: Engine)
    requires Indexed(e) && QueuedHead(e)
    ensures Bounded(DenyHead(e))
    ensures AdmittedIds(DenyHead(e)) == AdmittedIds(e)
  {
    DenyKeepsIndex(e);
    var r := DenyHead(e);
    forall id
      ensures id in AdmittedIds(r) <==> id in AdmittedIds(e)
    {
    }
  }

  lemma AdmitAddsAdmitted(e: Engine)
    requires Indexed(e) && QueuedHead(e)
    ensures Bounded(AdmitHead(e))
    ensures AdmittedIds(AdmitHead(e)) == AdmittedIds(e) + {Head(e).req.id}
  {
    AdmitKeepsIndex(e);
    var r := AdmitHead(e);
    assert Filed(e, e.queue[0]);
    forall id
      ensures id in AdmittedIds(r) <==> id in AdmittedIds(e) || id == Head(e).req.id
    {
    }
  }

  lemma PhaseOfOwners(p: Policy, s: System, step: Step)
    requires PassHasHead(s) && Enabled(s, step) && !Refiles(step) && !step.TakeSlotStep?
    ensures TakingSlot(Apply(p, s, step)) == TakingSlot(s)
    ensures TakingSlot(s) ==> Head(Apply(p, s, step).e).req.id == Head(s.e).req.id
  {
    FilingFrame(p, s, step);
    if !IsPassStep(step) {
      hide Apply;
      PassFrame(p, s, step);
    }
  }

  lemma LoudStepOwners(p: Policy, s: System, step: Step)
    requires Indexed(s.e) && PassHasHead(s) && Enabled(s, step) && (Refiles(step) || step.TakeSlotStep?)
    ensures Bounded(Apply(p, s, step).e)
    ensures Owners(Apply(p, s, step)) == OwnersAfter(s, step)
  {
    hide AdmittedIds, Indexed, Attach, ReleaseEntry, GcQueued;
    match step
    case AttachStep(req) => AttachSameAdmitted(s.e, req);
    case ReleaseEntryStep(id) => ReleaseEntryAdmitted(s.e, id);
    case CollectQueueStep => CollectionSameAdmitted(s.e, s.now, p.grace);
    case DenyStep => DenySameAdmitted(s.e);
    case AdmitStep => AdmitAddsAdmitted(s.e);
    case TakeSlotStep => SameShapeSameAdmitted(s.e, TakeSlot(s.e));
  }

  lemma QuietStepOwners(p: Policy, s: System, step: Step)
    requires Indexed(s.e) && PassHasHead(s) && Enabled(s, step) && !Refiles(step) && !step.TakeSlotStep?
    ensures Bounded(Apply(p, s, step).e)
    ensures Owners(Apply(p, s, step)) == Owners(s)
  {
    hide Apply, Filed, Sorted, PassHasHead;
    StepKeepsIndex(p, s, step);
    FilingFrame(p, s, step);
    PhaseOfOwners(p, s, step);
    SameShapeSameAdmitted(s.e, Apply(p, s, step).e);
  }

  /** A step changes who owns a slot only by completing a release entry or taking a slot. */
  lemma StepOwners(p: Policy, s: System, step: Step)
    requires Indexed(s.e) && PassHasHead(s) && Enabled(s, step)
    ensures Bounded(Apply(p, s, step).e)
    ensures Owners(Apply(p, s, step)) == OwnersAfter(s, step)
  {
    if Refiles(step) || step.TakeSlotStep? {
      LoudStepOwners(p, s, step);
    } else {
      hide Apply, Owners, Indexed, PassHasHead;
      QuietStepOwners(p, s, step);
    }
  }

  lemma StepKeepsSlotInv(p: Policy, s: System, step: Step)
    requires Indexed(s.e) && PassHasHead(s) && SlotInv(p, s) && Enabled(s, step)
    ensures Bounded(Apply(p, s, step).e) && SlotInv(p, Apply(p, s, step))
  {
    StepOwners(p, s, step);
    SlotFrame(p, s, step);
    OfferStands(p, s, step);
    hide Owners, Indexed, PassHasHead, Slots, Hold, Attach, GcQueued, DenyHead, AdmitHead, ReleaseEntry, AfterTry, LoadAdmits, Fresh;
    var r := Apply(p, s, step);
    match step
    case ReleaseSlotStep(id) =>
      assert r.e.held == s.e.held - {id};
      assert r.pending.releasing == s.pending.releasing - multiset{id};
    case ReleaseEntryStep(id) =>
      assert r.pending.releasing == s.pending.releasing + multiset{id};
    case TakeSlotStep =>
      TakingAFreeSlotFits(p, s.e, Head(s.e).req.id);
    case _ =>
      hide Apply;
  }

  lemma TakingAFreeSlotFits(p: Policy, e: Engine, id: string)
    requires |e.held| <= Slots(p) && SlotFree(p, e, id)
    ensures |e.held + {id}| <= Slots(p)
  {
    if id in e.held {
      assert e.held + {id} == e.held;
    }
  }

  predicate OfferHolds(p: Policy, s: System) {
    (s.pass.phase.SlotOffered? || s.pass.phase.LoadOffered? || s.pass.phase.Cleared?) && HasHead(s.e)
    ==> SlotFree(p, s.e, Head(s.e).req.id)
  }

  lemma PassKeepsOffer(p: Policy, s: System, step: Step)
    requires PassHasHead(s) && OfferHolds(p, s) && Enabled(s, step) && IsPassStep(step)
    ensures OfferHolds(p, Apply(p, s, step))
  {
    hide Hold, AfterTry, Fresh, LoadAdmits, Slots;
  }

  lemma SlotReleaseKeepsOffer(p: Policy, s: System, id: string)
    requires OfferHolds(p, s) && |s.e.held| <= Slots(p) && Enabled(s, ReleaseSlotStep(id))
    ensures OfferHolds(p, Apply(p, s, ReleaseSlotStep(id)))
  {
    hide Slots;
    assert Apply(p, s, ReleaseSlotStep(id)).e == s.e.(held := s.e.held - {id});
    if id in s.e.held {
      assert |s.e.held - {id}| == |s.e.held| - 1;
    } else {
      assert s.e.held - {id} == s.e.held;
    }
  }

  /** A free slot stays free for the head while the pass goes through the other gates. */
  lemma OfferStands(p: Policy, s: System, step: Step)
    requires PassHasHead(s) && OfferHolds(p, s) && |s.e.held| <= Slots(p) && Enabled(s, step)
    ensures OfferHolds(p, Apply(p, s, step))
  {
    hide Apply, Slots;
    if IsPassStep(step) {
      PassKeepsOffer(p, s, step);
    } else if step.ReleaseSlotStep? {
      SlotReleaseKeepsOffer(p, s, step.id);
    } else {
      PassFrame(p, s, step);
      SlotFrame(p, s, step);
      if step.AttachStep? || step.ReleaseEntryStep? || step.CollectQueueStep? {
        assert s.pass.phase.Idle?;
      } else {
        FilingFrame(p, s, step);
        var r := Apply(p, s, step);
        assert HasHead(r.e) ==> HasHead(s.e) && Head(r.e).req.id == Head(s.e).req.id;
        assert r.e.held == s.e.held;
      }
    }
  }

  // ---- is every owner's slot really held? ----

  predicate Covered(s: System)
    requires Bounded(s.e)
  {
    Owners(s) <= s.e.held
  }

  /** A slot release that reaches the semaphore while its id owns a slot again. */
  predicate LateRelease(s: System, step: Step)
    requires Bounded(s.e)
  {
    step.ReleaseSlotStep? && step.id in Owners(s)
  }

  /** The only step that takes an owner's slot away is the late gate release of that very id. */
  lemma SlotLostExactlyByLateRelease(p: Policy, s: System, step: Step)
    requires Indexed(s.e) && PassHasHead(s) && Covered(s) && Enabled(s, step)
    ensures Bounded(Apply(p, s, step).e)
    ensures Covered(Apply(p, s, step)) <==> !LateRelease(s, step)
  {
    StepOwners(p, s, step);
    SlotFrame(p, s, step);
    hide Owners, Indexed, PassHasHead;
    var r := Apply(p, s, step);
    match step
    case ReleaseSlotStep(id) => assert r.e.held == s.e.held - {id};
    case TakeSlotStep => assert r.e.held == s.e.held + {Head(s.e).req.id};
    case _ => hide Apply;
  }

  /** No waiter is created for an id whose own Release is still on its way to the semaphore. */
  predicate Polite(s: System, step: Step) {
    step.AttachStep? && step.req.id !in s.e.byID ==> step.req.id !in s.pending.releasing
  }

  predicate NoReleaseOfIndexed(s: System) {
    forall id | id in s.e.byID :: id !in s.pending.releasing
  }

  lemma PoliteStepKeepsApart(p: Policy, s: System, step: Step)
    requires Indexed(s.e) && NoReleaseOfIndexed(s) && Enabled(s, step) && Polite(s, step)
    ensures NoReleaseOfIndexed(Apply(p, s, step))
  {
    SlotFrame(p, s, step);
    if !Refiles(step) {
      FilingFrame(p, s, step);
    }
  }

  lemma OwnersAreIndexed(s: System)
    requires Indexed(s.e) && PassHasHead(s)
    ensures forall id | id in Owners(s) :: id in s.e.byID
  {
    if TakingSlot(s) {
      assert Filed(s.e, s.e.queue[0]);
    }
  }

  lemma PoliteStepKeepsCover(p: Policy, s: System, step: Step)
    requires Indexed(s.e) && PassHasHead(s) && Enabled(s, step) && Polite(s, step)
    requires Covered(s) && NoReleaseOfIndexed(s)
    ensures Bounded(Apply(p, s, step).e)
    ensures Covered(Apply(p, s, step)) && NoReleaseOfIndexed(Apply(p, s, step))
  {
    hide Apply;
    OwnersAreIndexed(s);
    SlotLostExactlyByLateRelease(p, s, step);
    PoliteStepKeepsApart(p, s, step);
  }

  lemma SubsetSize<T>(a: set<T>, b: set<T>)
    requires a <= b
    ensures |a| <= |b|
  {
    assert b == a + (b - a);
  }
}
