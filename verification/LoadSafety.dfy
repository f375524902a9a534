/** The load gate: which loads refuse, and that nobody is ever admitted on such a load. */
module LoadSafety {
  import opened Wrappers
  import opened AdmissionModel
  import opened AdmissionSystem
  import opened AdmissionTheorems
  import opened ScheduleSpec
  import opened Stampede

  /** Too busy, with a tenth reserved for each admission since the sample; a limit of 0 is no limit. */
  predicate Busy(p: Policy, cpu: real, debit: nat) {
    p.cpuHigh > 0.0 && cpu + debit as real * 0.10 >= p.cpuHigh
  }

  predicate UnderPressure(p: Policy, ramP: int) {
    p.ramMax > 0 && ramP > p.ramMax
  }

  /** The gate refuses exactly when the machine is too busy or short of memory. */
  lemma LoadRefusesExactly(p: Policy, cpu: real, ramP: int, debit: nat)
    ensures !LoadAdmits(p, cpu, ramP, debit) <==> Busy(p, cpu, debit) || UnderPressure(p, ramP)
  {
  }

  /** A pass on such a load admits nobody. */
  lemma {:induction false} LoadedPassAdmitsNobody(p: Policy, reading: Clock, x: PassState)
    requires Bounded(x.e)
    requires Busy(p, x.e.cpu, x.e.recentlyAdmitted) || UnderPressure(p, x.e.ramP)
    ensures var o := RunPass(p, reading, x);
      o.admitted == x.admitted && o.e.held == x.e.held && o.e.recentlyAdmitted == x.e.recentlyAdmitted
    decreases |x.e.queue|
  {
    LoadRefusesExactly(p, x.e.cpu, x.e.ramP, x.e.recentlyAdmitted);
    hide LoadAdmits, Busy, UnderPressure, HeadHold, AdmitOne, Tried;
    if x.e.queue != [] {
      if !Head(x.e).state.Queued? {
        LoadedPassAdmitsNobody(p, reading, x.(e := PopHead(x.e)));
      } else if x.e.draining {
        LoadedPassAdmitsNobody(p, reading, x.(e := DenyHead(x.e)));
      }
    }
  }

  /** Nor does a whole schedule call, whatever waits. */
  lemma LoadedScheduleAdmitsNobody(p: Policy, reading: Clock, e: Engine, builds: seq<ActiveBuild>, k: nat)
    requires Bounded(e)
    requires Busy(p, e.cpu, e.recentlyAdmitted) || UnderPressure(p, e.ramP)
    ensures var o := Schedule(p, reading, e, builds, k); o.admitted == [] && o.e.held == e.held
  {
    LoadedPassAdmitsNobody(p, reading, PassState(e, builds, k, []));
  }

  // ---- over runs ----

  predicate HasRoom(p: Policy, load: Load) {
    !Busy(p, load.sample.cpu, load.debit) && !UnderPressure(p, load.sample.ramP)
  }

  /** What was read is a stored sample with room, for each admission so far and for the head past the load gate. */
  predicate LoadInv(p: Policy, s: System) {
    && s.past.samples != [] && s.past.samples[|s.past.samples| - 1] == Sample(s.e.cpu, s.e.ramP)
    && |s.past.loads| == |s.past.log|
    && (forall l | l in s.past.loads :: HasRoom(p, l) && l.sample in s.past.samples)
    && (LoadPassed(s.pass.phase) ==> HasRoom(p, s.pass.read) && s.pass.read.sample in s.past.samples)
  }

  /** Only a sample is put into the bucket, and only a passing load gate is a reading. */
  lemma LoadFrame(p: Policy, s: System, step: Step)
    requires Enabled(s, step)
    ensures var r := Apply(p, s, step);
      && (!step.SampleStep? ==> r.e.cpu == s.e.cpu && r.e.ramP == s.e.ramP)
      && (!step.TryLoadStep? && LoadPassed(r.pass.phase) ==> LoadPassed(s.pass.phase) && r.pass.read == s.pass.read)
  {
    hide Hold, AfterTry, Fresh, SlotFree, LoadAdmits;
  }

  lemma StepKeepsLoads(p: Policy, s: System, step: Step)
    requires LoadInv(p, s) && Enabled(s, step)
    ensures LoadInv(p, Apply(p, s, step))
  {
    hide HasRoom;
    HistoryFrame(p, s, step);
    LogFrame(p, s, step);
    LoadFrame(p, s, step);
    match step
    case TryLoadStep => PassingLoadHasRoom(p, s);
    case SampleStep(cpu, ramP) =>
    case TakeRecordStep =>
    case _ => hide Apply;
  }

  lemma PassingLoadHasRoom(p: Policy, s: System)
    requires Enabled(s, TryLoadStep)
    ensures LoadPassed(Apply(p, s, TryLoadStep).pass.phase) ==>
      Apply(p, s, TryLoadStep).pass.read == Reading(s.e) && HasRoom(p, Reading(s.e))
  {
    LoadRefusesExactly(p, s.e.cpu, s.e.ramP, s.e.recentlyAdmitted);
  }

  lemma {:induction false} RunKeepsLoads(p: Policy, s: System, steps: seq<Step>)
    requires LoadInv(p, s) && Legal(p, s, steps)
    ensures LoadInv(p, Run(p, s, steps))
    decreases |steps|
  {
    hide Apply, Enabled, LoadInv;
    if steps != [] {
      StepKeepsLoads(p, s, steps[0]);
      RunKeepsLoads(p, Apply(p, s, steps[0]), steps[1..]);
    }
  }

  /**
   * Over every run, each admission was made on a sample that had been stored, whose memory pressure is within
   * its limit and whose CPU load is below its own even with the tenths reserved.
   */
  lemma EveryAdmissionHadRoom(p: Policy, now: Time, steps: seq<Step>, i: nat)
    requires Legal(p, Init(now), steps) && i < |Reached(p, now, steps).past.log|
    ensures var past := Reached(p, now, steps).past;
      && |past.loads| == |past.log|
      && past.loads[i].sample in past.samples
      && !(p.ramMax > 0 && past.loads[i].sample.ramP > p.ramMax)
      && !(p.cpuHigh > 0.0 && past.loads[i].sample.cpu + past.loads[i].debit as real * 0.10 >= p.cpuHigh)
  {
    RunKeepsLoads(p, Init(now), steps);
    assert Reached(p, now, steps).past.loads[i] in Reached(p, now, steps).past.loads;
  }
}
