/** An undisturbed scheduling pass is one run of the concurrent system, so all that holds of runs holds of it. */
module ScheduleRuns {
  import opened Wrappers
  import opened AdmissionModel
  import opened AdmissionSystem
  import opened QueueIndex
  import opened ScheduleSpec
  import opened Targets

  /** Some sequence of enabled steps takes the system from `s` to `r`. */
  ghost predicate Leads(p: Policy, s: System, r: System) {
    exists steps :: Legal(p, s, steps) && Run(p, s, steps) == r
  }

  lemma LeadsByStep(p: Policy, s: System, step: Step)
    requires Enabled(s, step)
    ensures Leads(p, s, Apply(p, s, step))
  {
    hide Apply, Enabled;
    var r := Apply(p, s, step);
    assert [step][1..] == [];
    assert Legal(p, r, []) && Run(p, r, []) == r;
    assert Legal(p, s, [step]) && Run(p, s, [step]) == r;
  }

  lemma LeadsOn(p: Policy, s: System, m: System, r: System)
    requires Leads(p, s, m) && Leads(p, m, r)
    ensures Leads(p, s, r)
  {
    hide Apply, Enabled;
    var xs :| Legal(p, s, xs) && Run(p, s, xs) == m;
    var ys :| Legal(p, m, ys) && Run(p, m, ys) == r;
    RunConcat(p, s, xs, ys);
  }

  lemma ThenStep(p: Policy, s: System, m: System, step: Step)
    requires Leads(p, s, m) && Enabled(m, step)
    ensures Leads(p, s, Apply(p, m, step))
  {
    hide Apply, Enabled, Leads;
    LeadsByStep(p, m, step);
    LeadsOn(p, s, m, Apply(p, m, step));
  }

  /** The pass offers the head to the semaphore and the load gate, and both let it through. */
  lemma FirstGates(p: Policy, s: System, t: Time)
    requires Bounded(s.e) && s.pass.phase.AtHead? && QueuedHead(s.e) && !s.e.draining && s.now <= t
    requires SlotFree(p, s.e, Head(s.e).req.id) && LoadAdmits(p, s.e.cpu, s.e.ramP, s.e.recentlyAdmitted)
    ensures Leads(p, s, s.(pass := Pass(LoadOffered, s.pass.builds, Reading(s.e)), now := t))
  {
    var s1 := s.(pass := Pass(SlotOffered, s.pass.builds, s.pass.read));
    var s2 := s.(pass := Pass(LoadOffered, s.pass.builds, Reading(s.e)));
    assert Apply(p, s, TrySlotStep) == s1;
    assert Apply(p, s1, TryLoadStep) == s2;
    hide Leads, Hold, AfterTry;
    LeadsByStep(p, s, TrySlotStep);
    ThenStep(p, s, s1, TryLoadStep);
    ThenStep(p, s, s2, TickStep(t));
  }

  /** The stagger gate lets the head through, and the admission is completed at clock times `t1` and `t2`. */
  lemma Completion(p: Policy, s: System, t1: Time, t2: Time)
    requires Bounded(s.e) && s.pass.phase.LoadOffered? && QueuedHead(s.e) && s.now <= t1 <= t2
    requires Hold(p.window, s.now, Head(s.e).req, s.e.recent, s.pass.builds) == 0
    ensures var req := Head(s.e).req;
      var tried := s.e.(recent := AfterTry(p.window, s.now, req, s.e.recent));
      Leads(p, s, System(AdmitHead(TakeRecord(TakeSlot(tried), t1)),
                         Pass(AtHead, s.pass.builds + [JustAdmitted(req, t2)], s.pass.read),
                         s.pending,
                         Admitted(s.past, s.e.queue[0], req, t1, s.pass.read),
                         t2))
  {
    hide Normalised, Fresh, LoadAdmits, SlotFree, GcQueued, DenyHead, ReleaseEntry, Attach;
    var tried := s.e.(recent := AfterTry(p.window, s.now, Head(s.e).req, s.e.recent));
    var s1 := s.(e := tried, pass := Go(s, Cleared));
    var s2 := s1.(e := TakeSlot(tried), pass := Go(s, SlotTaken));
    assert Apply(p, s, TryStaggerStep) == s1;
    assert Apply(p, s1, TakeSlotStep) == s2;
    hide Leads, Hold, AfterTry;
    LeadsByStep(p, s, TryStaggerStep);
    ThenStep(p, s, s1, TakeSlotStep);
    var s3 := s2.(now := t1);
    ThenStep(p, s, s2, TickStep(t1));
    Recording(p, s3, t2);
    LeadsOn(p, s, s3, Admitting(s3, t2));
  }

  function Admitted(past: History, ticket: nat, req: Request, at: Time, read: Load): History {
    History(past.log + [Admission(ticket, req.id, Normalised(req.targets), at)],
            past.sends + multiset{ticket}, past.allowed, Some(read.sample.cpu), past.samples, past.loads + [read])
  }

  function Admitting(s: System, t2: Time): System
    requires HasHead(s.e)
  {
    var req := Head(s.e).req;
    System(AdmitHead(TakeRecord(s.e, s.now)), Pass(AtHead, s.pass.builds + [JustAdmitted(req, t2)], s.pass.read),
           s.pending, Admitted(s.past, s.e.queue[0], req, s.now, s.pass.read), t2)
  }

  lemma Recording(p: Policy, s: System, t2: Time)
    requires Bounded(s.e) && s.pass.phase.SlotTaken? && QueuedHead(s.e) && s.now <= t2
    ensures Leads(p, s, Admitting(s, t2))
  {
    var s1 := Apply(p, s, TakeRecordStep);
    var s2 := s1.(now := t2);
    assert Apply(p, s1, TickStep(t2)) == s2;
    assert Apply(p, s2, AdmitStep) == Admitting(s, t2);
    hide Leads;
    LeadsByStep(p, s, TakeRecordStep);
    ThenStep(p, s, s1, TickStep(t2));
    ThenStep(p, s, s2, AdmitStep);
  }

  ghost predicate Nondecreasing(reading: Clock) {
    forall i: nat, j: nat | i <= j :: reading(i) <= reading(j)
  }

  function Tickets(log: seq<Admission>): seq<nat> {
    seq(|log|, i requires 0 <= i < |log| => log[i].ticket)
  }

  /** `s` is in the pass that `x` describes. */
  predicate InPass(reading: Clock, s: System, x: PassState) {
    s.pass.phase.AtHead? && s.e == x.e && s.pass.builds == x.builds && s.now <= reading(x.k)
  }

  /** `r` is the system after the pass from `s` has ended in `o`. */
  predicate PassEnded(reading: Clock, s: System, r: System, o: PassState, admitted: seq<nat>) {
    && r.e == o.e && r.pass.phase.Idle? && r.pending == s.pending && r.now <= reading(o.k)
    && Tickets(r.past.log) == Tickets(s.past.log) + admitted
  }

  lemma RefusedRun(p: Policy, reading: Clock, s: System, x: PassState) returns (r: System)
    requires Nondecreasing(reading) && Bounded(x.e) && InPass(reading, s, x) && QueuedHead(x.e) && !x.e.draining
    requires !SlotFree(p, x.e, Head(x.e).req.id) || !LoadAdmits(p, x.e.cpu, x.e.ramP, x.e.recentlyAdmitted)
    ensures Leads(p, s, r) && PassEnded(reading, s, r, RunPass(p, reading, x), [])
  {
    r := Apply(p, s, TrySlotStep);
    if !SlotFree(p, x.e, Head(x.e).req.id) {
      LeadsByStep(p, s, TrySlotStep);
    } else {
      var m := r;
      assert m == s.(pass := Go(s, SlotOffered));
      r := Apply(p, m, TryLoadStep);
      assert r.e == ArmTimer(s.e, Head(s.e).req.id, LOAD_RETRY);
      hide Leads;
      LeadsByStep(p, s, TrySlotStep);
      ThenStep(p, s, m, TryLoadStep);
    }
  }

  lemma StaggeredRun(p: Policy, reading: Clock, s: System, x: PassState) returns (r: System)
    requires Nondecreasing(reading) && Bounded(x.e) && InPass(reading, s, x) && QueuedHead(x.e) && !x.e.draining
    requires SlotFree(p, x.e, Head(x.e).req.id) && LoadAdmits(p, x.e.cpu, x.e.ramP, x.e.recentlyAdmitted)
    requires HeadHold(p, reading, x) != 0
    ensures Leads(p, s, r) && PassEnded(reading, s, r, RunPass(p, reading, x), [])
  {
    hide Normalised, Fresh, AfterTry, ArmTimer, AdmitOne, GcQueued, ReleaseEntry, Attach, DenyHead;
    FirstGates(p, s, reading(x.k));
    var m := s.(pass := Pass(LoadOffered, s.pass.builds, Reading(s.e)), now := reading(x.k));
    r := Apply(p, m, TryStaggerStep);
    hide Leads;
    ThenStep(p, s, m, TryStaggerStep);
  }

  /** Admitting one head is a run to the same pass one waiter further on. */
  lemma AdmitOneRun(p: Policy, reading: Clock, s: System, x: PassState) returns (m: System)
    requires Nondecreasing(reading) && Bounded(x.e) && InPass(reading, s, x) && QueuedHead(x.e) && !x.e.draining
    requires SlotFree(p, x.e, Head(x.e).req.id) && LoadAdmits(p, x.e.cpu, x.e.ramP, x.e.recentlyAdmitted)
    requires HeadHold(p, reading, x) == 0
    ensures Leads(p, s, m) && InPass(reading, m, AdmitOne(p, reading, x)) && m.pending == s.pending
    ensures Tickets(m.past.log) == Tickets(s.past.log) + [x.e.queue[0]]
  {
    hide Leads, Hold, Normalised, AfterTry;
    FirstGates(p, s, reading(x.k));
    var s1 := s.(pass := Pass(LoadOffered, s.pass.builds, Reading(s.e)), now := reading(x.k));
    var k := AfterLook(p, Head(x.e).req, x.k);
    Completion(p, s1, reading(k), reading(k + 1));
    var req := Head(x.e).req;
    m := System(AdmitHead(TakeRecord(TakeSlot(Tried(p, reading, x)), reading(k))),
                Pass(AtHead, s.pass.builds + [JustAdmitted(req, reading(k + 1))], Reading(s.e)),
                s.pending, Admitted(s.past, s.e.queue[0], req, reading(k), Reading(s.e)), reading(k + 1));
    LeadsOn(p, s, s1, m);
  }

  lemma {:induction false} PassIsARun(p: Policy, reading: Clock, s: System, x: PassState) returns (r: System, admitted: seq<nat>)
    requires Nondecreasing(reading) && Bounded(x.e) && InPass(reading, s, x)
    ensures Leads(p, s, r) && PassEnded(reading, s, r, RunPass(p, reading, x), admitted)
    ensures RunPass(p, reading, x).admitted == x.admitted + admitted
    decreases |x.e.queue|
  {
    hide Leads, AdmitOne, HeadHold, SlotFree, LoadAdmits;
    var e := x.e;
    admitted := [];
    if e.queue == [] {
      LeadsByStep(p, s, ExitStep);
      r := Apply(p, s, ExitStep);
    } else if !Head(e).state.Queued? || e.draining {
      var step := if Head(e).state.Queued? then DenyStep else PopStep;
      var m := Apply(p, s, step);
      LeadsByStep(p, s, step);
      r, admitted := PassIsARun(p, reading, m, x.(e := m.e));
      LeadsOn(p, s, m, r);
    } else if !SlotFree(p, e, Head(e).req.id) || !LoadAdmits(p, e.cpu, e.ramP, e.recentlyAdmitted) {
      r := RefusedRun(p, reading, s, x);
      RefusedPassAdmitsNobody(p, reading, x);
    } else if HeadHold(p, reading, x) != 0 {
      r := StaggeredRun(p, reading, s, x);
      RefusedPassAdmitsNobody(p, reading, x);
    } else {
      var m := AdmitOneRun(p, reading, s, x);
      AdmitOneLists(p, reading, x);
      PassGoesOn(p, reading, x);
      var rest;
      r, rest := PassIsARun(p, reading, m, AdmitOne(p, reading, x));
      LeadsOn(p, s, m, r);
      admitted := [e.queue[0]] + rest;
    }
  }

  lemma RefusedPassAdmitsNobody(p: Policy, reading: Clock, x: PassState)
    requires Bounded(x.e) && QueuedHead(x.e) && !x.e.draining
    requires !SlotFree(p, x.e, Head(x.e).req.id) || !LoadAdmits(p, x.e.cpu, x.e.ramP, x.e.recentlyAdmitted)
      || HeadHold(p, reading, x) != 0
    ensures RunPass(p, reading, x).admitted == x.admitted
  {
  }

  /** A schedule call that is due, run undisturbed, is a run of the system that ends as Schedule says. */
  lemma ScheduleIsARun(p: Policy, reading: Clock, s: System, builds: seq<ActiveBuild>, k: nat) returns (r: System)
    requires Nondecreasing(reading) && Bounded(s.e) && s.pass.phase.Idle? && s.pending.owed > 0 && s.now <= reading(k)
    ensures Leads(p, s, r)
    ensures var o := Schedule(p, reading, s.e, builds, k);
      && r.e == o.e && r.pass.phase.Idle? && r.pending == s.pending.(owed := s.pending.owed - 1)
      && Tickets(r.past.log) == Tickets(s.past.log) + o.admitted
  {
    hide Leads, RunPass;
    var idle := s.e.paused || s.e.queue == [];
    var m := s.(pending := s.pending.(owed := s.pending.owed - 1),
                pass := if idle then s.pass else Pass(AtHead, builds, s.pass.read));
    assert Apply(p, s, EnterStep(builds)) == m;
    LeadsByStep(p, s, EnterStep(builds));
    hide Apply;
    if idle {
      assert Tickets(m.past.log) == Tickets(s.past.log) + [];
    }
    if s.e.paused || s.e.queue == [] {
      r := m;
    } else {
      var admitted;
      r, admitted := PassIsARun(p, reading, m, PassState(s.e, builds, k, []));
      LeadsOn(p, s, m, r);
    }
  }

  /** A queued waiter that is alone and that every gate lets through is admitted by its schedule call. */
  lemma LoneHeadPasses(p: Policy, s: System) returns (r: System)
    requires Bounded(s.e) && s.pass.phase.Idle? && s.pending.owed > 0 && !s.e.paused && !s.e.draining
    requires |s.e.queue| == 1 && QueuedHead(s.e) && SlotFree(p, s.e, Head(s.e).req.id)
    requires LoadAdmits(p, s.e.cpu, s.e.ramP, s.e.recentlyAdmitted)
    requires Hold(p.window, s.now, Head(s.e).req, s.e.recent, []) == 0
    ensures Leads(p, s, r)
    ensures var tried := s.e.(recent := AfterTry(p.window, s.now, Head(s.e).req, s.e.recent));
      r.e == AdmitHead(TakeRecord(TakeSlot(tried), s.now)) && r.pass.phase.Idle? && r.now == s.now
    ensures r.pending == s.pending.(owed := s.pending.owed - 1)
    ensures var req := Head(s.e).req;
      r.past.log == s.past.log + [Admission(s.e.queue[0], req.id, Normalised(req.targets), s.now)]
  {
    hide Leads, Normalised, AfterTry, Fresh, GcQueued, ReleaseEntry, Attach;
    var s1 := s.(pending := s.pending.(owed := s.pending.owed - 1), pass := Pass(AtHead, [], s.pass.read));
    assert s1 == Apply(p, s, EnterStep([]));
    LeadsByStep(p, s, EnterStep([]));
    FirstGates(p, s1, s.now);
    var s2 := s1.(pass := Pass(LoadOffered, [], Reading(s.e)));
    assert s2 == s1.(pass := Pass(LoadOffered, s1.pass.builds, Reading(s1.e)), now := s.now);
    Completion(p, s2, s.now, s.now);
    var req := Head(s.e).req;
    assert s2.pass.builds + [JustAdmitted(req, s.now)] == [JustAdmitted(req, s.now)];
    var tried := s.e.(recent := AfterTry(p.window, s.now, req, s.e.recent));
    var s3 := System(AdmitHead(TakeRecord(TakeSlot(tried), s.now)), Pass(AtHead, [JustAdmitted(req, s.now)], Reading(s.e)),
                     s1.pending, Admitted(s.past, s.e.queue[0], req, s.now, Reading(s.e)), s.now);
    LeadsOn(p, s, s1, s2);
    LeadsOn(p, s, s2, s3);
    ThenStep(p, s, s3, ExitStep);
    r := Apply(p, s3, ExitStep);
  }
}
