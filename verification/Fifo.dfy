/** First come, first served: admissions happen in the order in which waiters were created. */
module Fifo {
  import opened AdmissionModel
  import opened AdmissionSystem
  import opened QueueIndex

  /** The logged admissions whose waiter has left the queue. */
  function Settled(s: System): seq<Admission> {
    if s.pass.phase.RecordTaken? && s.past.log != [] then s.past.log[..|s.past.log| - 1] else s.past.log
  }

  predicate InOrder(log: seq<Admission>) {
    forall i, j | 0 <= i < j < |log| :: log[i].ticket < log[j].ticket
  }

  predicate AheadOf(log: seq<Admission>, t: nat) {
    forall i | 0 <= i < |log| :: log[i].ticket < t
  }

  predicate FifoInv(s: System) {
    && InOrder(s.past.log)
    && AheadOf(s.past.log, |s.e.waiters|)
    && (forall t | t in s.e.queue :: AheadOf(Settled(s), t))
    && (s.pass.phase.RecordTaken? && HasHead(s.e) ==>
          s.past.log != [] && s.past.log[|s.past.log| - 1].ticket == s.e.queue[0])
  }

  lemma OtherStepKeepsFifo(p: Policy, s: System, step: Step)
    requires Indexed(s.e) && PassHasHead(s) && FifoInv(s) && Enabled(s, step) && !IsPassStep(step)
    ensures FifoInv(Apply(p, s, step))
  {
    PassFrame(p, s, step);
    RecordFrame(p, s, step);
    var r := Apply(p, s, step);
    match step
    case AttachStep(req) =>
    case ReleaseEntryStep(id) =>
    case CollectQueueStep => KeptMembers(s.e.waiters, s.e.queue, s.now, p.grace);
    case _ => FilingFrame(p, s, step);
      hide Apply;
  }

  lemma DequeueKeepsFifo(p: Policy, s: System, step: Step)
    requires Indexed(s.e) && FifoInv(s) && Enabled(s, step) && (step.PopStep? || step.DenyStep?)
    ensures FifoInv(Apply(p, s, step))
  {
    var r := Apply(p, s, step);
    assert r.past.log == s.past.log && r.e.queue == s.e.queue[1..];
    assert |r.e.waiters| == |s.e.waiters| && Settled(r) == Settled(s);
    forall t | t in r.e.queue
      ensures AheadOf(Settled(r), t)
    {
      assert t in s.e.queue;
    }
  }

  lemma AdmitKeepsFifo(p: Policy, s: System)
    requires Indexed(s.e) && FifoInv(s) && Enabled(s, AdmitStep)
    ensures FifoInv(Apply(p, s, AdmitStep))
  {
    var r := Apply(p, s, AdmitStep);
    var log := s.past.log;
    assert r.past.log == log && r.e.queue == s.e.queue[1..];
    forall t | t in r.e.queue
      ensures AheadOf(log, t)
    {
      HeadLeavesQueue(s.e, t);
      var i :| 0 <= i < |r.e.queue| && r.e.queue[i] == t;
      assert s.e.queue[0] < s.e.queue[i + 1];
      assert log == Settled(s) + [log[|log| - 1]];
      assert AheadOf(Settled(s), t);
    }
  }

  lemma RecordKeepsFifo(p: Policy, s: System)
    requires Indexed(s.e) && FifoInv(s) && Enabled(s, TakeRecordStep)
    ensures FifoInv(Apply(p, s, TakeRecordStep))
  {
    var r := Apply(p, s, TakeRecordStep);
    assert r.e.queue == s.e.queue && |r.e.waiters| == |s.e.waiters|;
    assert Settled(s) == s.past.log;
    assert AheadOf(s.past.log, s.e.queue[0]);
    assert r.past.log[..|s.past.log|] == s.past.log;
    assert Settled(r) == s.past.log;
  }

  lemma PassStepKeepsFifo(p: Policy, s: System, step: Step)
    requires Indexed(s.e) && PassHasHead(s) && FifoInv(s) && Enabled(s, step) && IsPassStep(step)
    ensures FifoInv(Apply(p, s, step))
  {
    match step
    case PopStep => DequeueKeepsFifo(p, s, step);
    case DenyStep => DequeueKeepsFifo(p, s, step);
    case AdmitStep => AdmitKeepsFifo(p, s);
    case TakeRecordStep => RecordKeepsFifo(p, s);
    case _ =>
      RecordFrame(p, s, step);
      FilingFrame(p, s, step);
  }

  lemma StepKeepsFifo(p: Policy, s: System, step: Step)
    requires Indexed(s.e) && PassHasHead(s) && FifoInv(s) && Enabled(s, step)
    ensures FifoInv(Apply(p, s, step))
  {
    hide Apply, Enabled, FifoInv, Indexed, PassHasHead;
    if IsPassStep(step) {
      PassStepKeepsFifo(p, s, step);
    } else {
      OtherStepKeepsFifo(p, s, step);
    }
  }
}
