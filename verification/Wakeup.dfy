/** No lost wakeup: whoever leaves a waiter queued leaves behind something that will look again. */
module Wakeup {
  import opened AdmissionModel
  import opened AdmissionSystem
  import opened QueueIndex

  predicate SomeoneQueued(e: Engine) {
    exists t :: t in e.queue && t < |e.waiters| && e.waiters[t].state.Queued?
  }

  predicate TimerLive(e: Engine) {
    exists h :: 0 <= h < |e.timers| && e.timers[h].live
  }

  /** An operation under way will still call schedule. */
  predicate CallDue(q: Pending) {
    q.owed > 0 || q.releasing != multiset{} || q.fired != multiset{}
  }

  predicate Awake(s: System) {
    s.pass.phase.Idle? && !s.e.paused && SomeoneQueued(s.e) ==> s.e.held != {} || TimerLive(s.e) || CallDue(s.pending)
  }

  lemma ArmedTimerLives(e: Engine, id: string, delay: int)
    requires Bounded(e) && delay > 0
    ensures TimerLive(ArmTimer(e, id, delay))
  {
    assert ArmTimer(e, id, delay).timers[|e.timers|].live;
  }

  lemma PassStepKeepsAwake(p: Policy, s: System, step: Step)
    requires Awake(s) && Enabled(s, step) && IsPassStep(step)
    ensures Awake(Apply(p, s, step))
  {
    match step
    case TryLoadStep => ArmedTimerLives(s.e, Head(s.e).req.id, LOAD_RETRY);
    case TryStaggerStep =>
      var hold := Hold(p.window, s.now, Head(s.e).req, s.e.recent, s.pass.builds);
      StaggerHoldIsPositive(p, s);
      if hold > 0 {
        var e := s.e.(recent := AfterTry(p.window, s.now, Head(s.e).req, s.e.recent));
        ArmedTimerLives(e, Head(e).req.id, hold);
      }
    case _ =>
  }

  lemma StaggerHoldIsPositive(p: Policy, s: System)
    requires QueuedHead(s.e)
    ensures Hold(p.window, s.now, Head(s.e).req, s.e.recent, s.pass.builds) >= 0
  {
  }

  lemma CollectedStaySilent(e: Engine, now: Time, grace: int)
    requires Bounded(e)
    ensures SomeoneQueued(GcQueued(e, now, grace)) ==> SomeoneQueued(e)
  {
    var r := GcQueued(e, now, grace);
    KeptMembers(e.waiters, e.queue, now, grace);
    if SomeoneQueued(r) {
      var t :| t in r.queue && t < |r.waiters| && r.waiters[t].state.Queued?;
      assert t in e.queue && e.waiters[t].state.Queued?;
    }
  }

  lemma OtherStepKeepsAwake(p: Policy, s: System, step: Step)
    requires Awake(s) && Enabled(s, step) && !IsPassStep(step)
    ensures Awake(Apply(p, s, step))
  {
    var r := Apply(p, s, step);
    match step
    case CollectQueueStep => CollectedStaySilent(s.e, s.now, p.grace);
    case ReleaseEntryStep(id) => assert id in r.pending.releasing;
    case ExpireStep(h) => assert s.e.timers[h].id in r.pending.fired;
    case DetachStep(t) =>
      assert SomeoneQueued(r.e) ==> SomeoneQueued(s.e);
    case ReceiveStep(t) =>
      assert SomeoneQueued(r.e) ==> SomeoneQueued(s.e);
    case _ =>
  }

  lemma StepKeepsAwake(p: Policy, s: System, step: Step)
    requires Awake(s) && Enabled(s, step)
    ensures Awake(Apply(p, s, step))
  {
    hide Apply, Enabled, Awake;
    if IsPassStep(step) {
      PassStepKeepsAwake(p, s, step);
    } else {
      OtherStepKeepsAwake(p, s, step);
    }
  }
}
