/** A run on which an id that is admitted again loses its earlier record, so that an overlapping build comes too soon. */
module Readmission {
  import opened Wrappers
  import opened Targets
  import opened AdmissionModel
  import opened AdmissionSystem
  import opened ScheduleRuns
  import opened Spacing

  /** Three slots and a stagger window, the load gate not in use. */
  const STAGGERED := Policy(3, 0.0, 0, 8, 0)

  function Build(id: string, targets: string): Request {
    Request(id, "", 0, targets)
  }

  /** An idle engine that owes no call, with nobody waiting and a given admission history. */
  predicate Quiet(s: System) {
    && Bounded(s.e) && s.pass.phase.Idle? && s.now == 0 && s.pending.owed == 0
    && s.e.queue == [] && !s.e.paused && !s.e.draining && |s.e.held| < 3
  }

  /** An unknown build attaches to a quiet engine whose records do not hold it back, and is admitted. */
  lemma QuietEngineAdmits(s: System, req: Request) returns (r: System)
    requires Leads(STAGGERED, Init(0), s) && Quiet(s) && req.id !in s.e.byID
    requires Hold(STAGGERED.window, 0, req, s.e.recent, []) == 0
    requires forall k | k in s.e.recent :: s.e.recent[k].admittedAt == 0
    ensures Leads(STAGGERED, Init(0), r) && r.now == 0
    ensures r.e.held == s.e.held + {req.id} && r.e.queue == [] && r.e.byID == s.e.byID[req.id := |s.e.waiters|]
    ensures r.e.recent == s.e.recent[req.id := Record(Normalised(req.targets), 0)]
    ensures |r.e.held| < 3 ==> Quiet(r)
    ensures Bounded(r.e) && r.pass.phase.Idle? && r.pending == s.pending && |r.e.waiters| == |s.e.waiters| + 1
    ensures r.past.log == s.past.log + [Admission(|s.e.waiters|, req.id, Normalised(req.targets), 0)]
  {
    hide Leads, Normalised, Hold;
    ThenStep(STAGGERED, Init(0), s, AttachStep(req));
    var m := Apply(STAGGERED, s, AttachStep(req));
    assert Head(m.e).req == req;
    r := LoneHeadPasses(STAGGERED, m);
    assert AfterTry(8, 0, req, s.e.recent) == s.e.recent;
    LeadsOn(STAGGERED, Init(0), m, r);
  }

  /** The release of an admitted build, undisturbed, leaves the engine quiet; its record stays. */
  lemma Released(s: System, id: string) returns (r: System)
    requires Leads(STAGGERED, Init(0), s) && Quiet(s) && id in s.e.byID && id in s.e.held
    ensures Leads(STAGGERED, Init(0), r) && Quiet(r)
    ensures r.e.byID == s.e.byID - {id} && r.e.held == s.e.held - {id} && r.e.recent == s.e.recent
    ensures |r.e.waiters| == |s.e.waiters| && r.past == s.past
  {
    hide Leads, Hold, Normalised;
    ThenStep(STAGGERED, Init(0), s, ReleaseEntryStep(id));
    var m := Apply(STAGGERED, s, ReleaseEntryStep(id));
    ThenStep(STAGGERED, Init(0), m, ReleaseSlotStep(id));
    var n := Apply(STAGGERED, m, ReleaseSlotStep(id));
    ThenStep(STAGGERED, Init(0), n, EnterStep([]));
    r := Apply(STAGGERED, n, EnterStep([]));
  }

  /** `a` is admitted for `x` and released; its record is all that is left of it. */
  lemma CameAndWent(a: string, x: string) returns (s: System)
    ensures Leads(STAGGERED, Init(0), s) && Quiet(s) && s.e.byID == map[] && s.e.held == {} && |s.e.waiters| == 1
    ensures s.e.recent == map[a := Record(Normalised(x), 0)] && s.past.log == [Admission(0, a, Normalised(x), 0)]
  {
    hide Leads, Normalised, Hold;
    var s0 := Init(0);
    StartsHere(s0);
    NobodyRecorded(Build(a, x));
    var s1 := QuietEngineAdmits(s0, Build(a, x));
    assert s1.e.held == {a};
    s := Released(s1, a);
  }

  /** It is admitted again for `y`; the new record replaces the one it left. */
  lemma CameAgain(a: string, x: string, y: string) returns (s: System)
    ensures Leads(STAGGERED, Init(0), s) && Quiet(s) && s.e.byID.Keys == {a} && s.e.held == {a} && |s.e.waiters| == 2
    ensures s.e.recent == map[a := Record(Normalised(y), 0)]
    ensures s.past.log == [Admission(0, a, Normalised(x), 0), Admission(1, a, Normalised(y), 0)]
  {
    hide Leads, Normalised, Hold;
    var s2 := CameAndWent(a, x);
    OtherTargetsPass(s2.e.recent, Build(a, y), a);
    assert s2.e.held + {a} == {a};
    s := QuietEngineAdmits(s2, Build(a, y));
  }

  /**
   * `a` is admitted for `x`, released, and admitted again for targets apart from those; its second record
   * replaces the first, and `b` is admitted for `x` at once: two overlapping admissions less than a window apart.
   */
  lemma ReadmissionForgetsTheFirstTargets(a: string, b: string, x: string, y: string) returns (s: System)
    requires a != b && Normalised(x) != {} && !Overlap(Normalised(x), Normalised(y))
    ensures Leads(STAGGERED, Init(0), s) && |s.past.log| == 3
    ensures var log := s.past.log;
      && Overlap(log[0].targets, log[2].targets) && log[2].at - log[0].at < STAGGERED.window
      && log[0].id != log[2].id && Readmitted(log, 0, 2)
  {
    assert Overlap(Normalised(x), Normalised(x)) && !Overlap(Normalised(x), Normalised(y));
    hide Leads, Normalised, Hold, Overlap, Readmitted, Quiet;
    var s3 := CameAgain(a, x, y);
    OtherTargetsPass(s3.e.recent, Build(b, x), a);
    s := QuietEngineAdmits(s3, Build(b, x));
    AgainAtOne(s.past.log);
  }

  lemma AgainAtOne(log: seq<Admission>)
    requires |log| == 3 && log[1].id == log[0].id
    ensures Readmitted(log, 0, 2)
  {
  }

  lemma StartsHere(s: System)
    ensures Leads(STAGGERED, s, s)
  {
    assert Legal(STAGGERED, s, []) && Run(STAGGERED, s, []) == s;
  }

  lemma NobodyRecorded(req: Request)
    ensures Hold(STAGGERED.window, 0, req, map[], []) == 0
  {
  }

  /** One record holds back neither its own id nor targets apart from its own. */
  lemma OtherTargetsPass(recent: map<string, Record>, req: Request, id: string)
    requires recent.Keys == {id} && (req.id == id || !Overlap(Normalised(req.targets), recent[id].targets))
    ensures Hold(STAGGERED.window, 0, req, recent, []) == 0
  {
    assert Blocking(STAGGERED.window, 0, req.id, Normalised(req.targets), recent, []) == {};
  }
}
