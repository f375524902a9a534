/** The anti-stampede debit bounds how many builds one load sample can let in. */
module Stampede {
  import opened Wrappers
  import opened AdmissionModel
  import opened AdmissionSystem

  predicate LoadPassed(phase: Phase) {
    phase.LoadOffered? || phase.Cleared? || phase.SlotTaken? || phase.RecordTaken?
  }

  /** With `n` admissions already debited, the sample `cpu` still lets one more through. */
  predicate RoomAt(p: Policy, cpu: real, n: nat) {
    cpu + n as real * RAMP_PER_HEAD < p.cpuHigh
  }

  predicate RampInv(p: Policy, s: System) {
    p.cpuHigh > 0.0 ==>
      && (s.e.recentlyAdmitted > 0 ==>
            s.past.lastCpu.Some? && RoomAt(p, s.past.lastCpu.value, s.e.recentlyAdmitted - 1))
      && (LoadPassed(s.pass.phase) ==> RoomAt(p, s.pass.read.sample.cpu, s.e.recentlyAdmitted))
  }

  /** Only a reset, a passing load gate and an admission touch what the debit depends on. */
  lemma RampFrame(p: Policy, s: System, step: Step)
    requires Enabled(s, step) && !step.ResetStep? && !step.TryLoadStep? && !step.AdmitStep?
    ensures var r := Apply(p, s, step);
      && r.e.recentlyAdmitted == s.e.recentlyAdmitted && r.past.lastCpu == s.past.lastCpu
      && (LoadPassed(r.pass.phase) ==> LoadPassed(s.pass.phase) && r.pass.read == s.pass.read)
  {
    hide Hold, AfterTry, Fresh, SlotFree, LoadAdmits;
  }

  lemma StepKeepsRamp(p: Policy, s: System, step: Step)
    requires RampInv(p, s) && Enabled(s, step)
    ensures RampInv(p, Apply(p, s, step))
  {
    if step.ResetStep? || step.TryLoadStep? || step.AdmitStep? {
      hide Hold, AfterTry, Fresh, SlotFree, StopTimer, Attach, ReleaseEntry, GcQueued, DenyHead;
    } else {
      hide Apply;
      RampFrame(p, s, step);
    }
  }

  function Ceiling(x: real): int {
    -((-x).Floor)
  }

  /** The number of builds admitted since the last reset fits the headroom of the sample last read. */
  lemma RampBound(p: Policy, s: System)
    requires RampInv(p, s) && p.cpuHigh > 0.0 && s.e.recentlyAdmitted > 0
    ensures s.past.lastCpu.Some?
    ensures s.e.recentlyAdmitted <= Ceiling((p.cpuHigh - s.past.lastCpu.value) / RAMP_PER_HEAD)
  {
    var n := s.e.recentlyAdmitted;
    var room := (p.cpuHigh - s.past.lastCpu.value) / RAMP_PER_HEAD;
    assert (n - 1) as real * RAMP_PER_HEAD < p.cpuHigh - s.past.lastCpu.value;
    assert (n - 1) as real < room;
  }
}
