/** The reaper lists its waiters under the lock and releases them after probing outside it: whom does a release hit? */
module LateProbe {
  import opened AdmissionModel
  import opened Targets
  import opened AdmissionSystem
  import opened QueueIndex
  import opened SlotSafety
  import opened AdmissionTheorems

  /** What a step makes of a waiter's state, if the waiter waits no more. */
  function StateAfter(w: WaiterView, step: Step): WaiterState {
    if step == ReleaseEntryStep(w.req.id) then Done else w.state
  }

  lemma SettledStep(p: Policy, s: System, step: Step, t: nat)
    requires Indexed(s.e) && Enabled(s, step) && t < |s.e.waiters| && !s.e.waiters[t].state.Queued?
    ensures var r := Apply(p, s, step).e;
      && t < |r.waiters| && r.waiters[t].req.id == s.e.waiters[t].req.id
      && (s.e.waiters[t].state.Admitted? ==> r.waiters[t].state == StateAfter(s.e.waiters[t], step))
      && (s.e.waiters[t].state.Done? ==> r.waiters[t].state.Done?)
  {
    StepKeepsTicketId(p, s, step, t);
    if Refiles(step) {
      SettledRefiling(p, s, step, t);
    } else {
      FilingFrame(p, s, step);
    }
    hide Apply;
  }

  lemma SettledRefiling(p: Policy, s: System, step: Step, t: nat)
    requires Indexed(s.e) && Enabled(s, step) && t < |s.e.waiters| && !s.e.waiters[t].state.Queued?
    requires Refiles(step) && t < |Apply(p, s, step).e.waiters|
    ensures Apply(p, s, step).e.waiters[t].state ==
      if step.ReleaseEntryStep? && s.e.waiters[t].state.Admitted? then StateAfter(s.e.waiters[t], step) else s.e.waiters[t].state
  {
    if step.ReleaseEntryStep? {
      SettledRelease(s.e, step.id, t);
      hide ReleaseEntry, Indexed;
    } else {
      hide ReleaseEntry, Sorted, Filed, Normalised, Hold;
    }
  }

  lemma SettledRelease(e: Engine, id: string, t: nat)
    requires Indexed(e) && t < |e.waiters| && !e.waiters[t].state.Queued?
    ensures var r := ReleaseEntry(e, id);
      && t < |r.waiters|
      && r.waiters[t].state == if e.waiters[t].req.id == id then Done else e.waiters[t].state
  {
    assert Filed(e, t);
    hide Sorted;
    if id in e.byID {
      assert e.waiters[e.byID[id]].req.id == id;
    }
  }

  /** An admitted waiter stays admitted until its id is released, and is done from then on; a done one stays done. */
  lemma {:induction false} SettledRun(p: Policy, s: System, steps: seq<Step>, t: nat)
    requires Inv(p, s) && Legal(p, s, steps) && t < |s.e.waiters| && !s.e.waiters[t].state.Queued?
    ensures var r := Run(p, s, steps).e;
      && t < |r.waiters| && r.waiters[t].req.id == s.e.waiters[t].req.id
      && (s.e.waiters[t].state.Admitted? ==>
            r.waiters[t].state == if ReleaseEntryStep(s.e.waiters[t].req.id) in steps then Done else Admitted)
      && (s.e.waiters[t].state.Done? ==> r.waiters[t].state.Done?)
    decreases |steps|
  {
    hide Apply, Enabled, Inv, Indexed;
    if steps != [] {
      StepKeepsInv(p, s, steps[0]);
      InvIsIndexed(p, s);
      SettledStep(p, s, steps[0], t);
      SettledRun(p, Apply(p, s, steps[0]), steps[1..], t);
      assert steps == [steps[0]] + steps[1..];
    }
  }

  /**
   * When the release that follows a probe comes, it reaches the very waiter that was listed exactly if its
   * id has not been released in between. Otherwise it reaches nobody, or a waiter created after the listing.
   */
  lemma ReleaseAfterProbeHits(p: Policy, start: Time, before: seq<Step>, steps: seq<Step>, id: string)
    requires Legal(p, Init(start), before) && Legal(p, Reached(p, start, before), steps)
    requires Bounded(Reached(p, start, before).e) && id in AdmittedIds(Reached(p, start, before).e)
    ensures var s := Reached(p, start, before);
      var r := Run(p, s, steps);
      && (id in r.e.byID && r.e.byID[id] == s.e.byID[id] <==> ReleaseEntryStep(id) !in steps)
      && (id in r.e.byID && r.e.byID[id] != s.e.byID[id] ==> r.e.byID[id] >= |s.e.waiters|)
  {
    ReachedInv(p, start, before);
    var s := Reached(p, start, before);
    var r := Run(p, s, steps);
    RunKeepsInv(p, s, steps);
    InvIsIndexed(p, s);
    InvIsIndexed(p, r);
    var t := s.e.byID[id];
    SettledRun(p, s, steps, t);
    assert Filed(r.e, t);
    hide Inv, Run, Legal, Sorted;
    if id in r.e.byID && r.e.byID[id] != t && r.e.byID[id] < |s.e.waiters| {
      var u := r.e.byID[id];
      SameIdAllAlong(p, s, steps, u);
      assert Filed(s.e, u) && Filed(r.e, u);
      SettledRun(p, s, steps, u);
    }
  }

  lemma {:induction false} SameIdAllAlong(p: Policy, s: System, steps: seq<Step>, t: nat)
    requires Inv(p, s) && Legal(p, s, steps) && t < |s.e.waiters|
    ensures var r := Run(p, s, steps).e; t < |r.waiters| && r.waiters[t].req.id == s.e.waiters[t].req.id
    decreases |steps|
  {
    hide Apply, Enabled, Inv;
    if steps != [] {
      StepKeepsInv(p, s, steps[0]);
      StepKeepsTicketId(p, s, steps[0], t);
      SameIdAllAlong(p, Apply(p, s, steps[0]), steps[1..], t);
    }
  }
}
