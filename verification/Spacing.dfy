/** Overlapping builds are admitted at least a stagger window apart, over whole runs. */
module Spacing {
  import opened Targets
  import opened AdmissionModel
  import opened StaggerLaws
  import opened AdmissionSystem
  import opened QueueIndex

  /** No later admission bears the same id. */
  predicate LastOf(log: seq<Admission>, i: nat)
    requires i < |log|
  {
    forall k | i < k < |log| :: log[k].id != log[i].id
  }

  /** The id of admission `i` was admitted again, at `j` at the latest. */
  predicate Readmitted(log: seq<Admission>, i: nat, j: nat)
    requires i <= j < |log|
  {
    exists k | i < k <= j :: log[k].id == log[i].id
  }

  predicate Spaced(window: int, log: seq<Admission>) {
    forall i, j | 0 <= i < j < |log| ::
      Overlap(log[i].targets, log[j].targets) && !Readmitted(log, i, j) ==> log[j].at - log[i].at >= window
  }

  /** The gate still has the record of admission `a`, or the window since then has passed. */
  predicate Remembered(window: int, now: Time, recent: map<string, Record>, a: Admission) {
    (a.id in recent && recent[a.id] == Record(a.targets, a.at)) || now - a.at >= window
  }

  predicate RecordsKept(window: int, now: Time, recent: map<string, Record>, log: seq<Admission>) {
    && (forall i | 0 <= i < |log| :: log[i].at <= now)
    && (forall i | 0 <= i < |log| && LastOf(log, i) :: Remembered(window, now, recent, log[i]))
  }

  /** Every overlapping admission of another id that was not followed by a newer one is a window old. */
  predicate ClearOf(window: int, now: Time, log: seq<Admission>, req: Request) {
    forall i | 0 <= i < |log| && LastOf(log, i) ::
      log[i].id != req.id && Overlap(log[i].targets, Normalised(req.targets)) ==> now - log[i].at >= window
  }

  predicate PastStagger(s: System) {
    (s.pass.phase.Cleared? || s.pass.phase.SlotTaken?) && HasHead(s.e)
  }

  predicate SpacingInv(p: Policy, s: System) {
    && Spaced(p.window, s.past.log)
    && RecordsKept(p.window, s.now, s.e.recent, s.past.log)
    && (PastStagger(s) ==> ClearOf(p.window, s.now, s.past.log, Head(s.e).req))
  }

  lemma ForgettingTheAged(window: int, now: Time, recent: map<string, Record>, log: seq<Admission>)
    requires RecordsKept(window, now, recent, log)
    ensures RecordsKept(window, now, Fresh(window, now, recent), log)
  {
    forall i | 0 <= i < |log| && LastOf(log, i)
      ensures Remembered(window, now, Fresh(window, now, recent), log[i])
    {
      assert Remembered(window, now, recent, log[i]);
    }
  }

  lemma TimePasses(window: int, now: Time, later: Time, recent: map<string, Record>, log: seq<Admission>)
    requires RecordsKept(window, now, recent, log) && now <= later
    ensures RecordsKept(window, later, recent, log)
  {
    forall i | 0 <= i < |log| && LastOf(log, i)
      ensures Remembered(window, later, recent, log[i])
    {
      assert Remembered(window, now, recent, log[i]);
    }
  }

  /** What a passing Try says about the admissions so far. */
  lemma PassingTryIsClear(window: int, now: Time, req: Request, recent: map<string, Record>, builds: seq<ActiveBuild>, log: seq<Admission>)
    requires RecordsKept(window, now, recent, log)
    requires Hold(window, now, req, recent, builds) == 0
    ensures ClearOf(window, now, log, req)
  {
    var want := Normalised(req.targets);
    RefusesExactlyWhenHeldBack(window, now, req, recent, builds);
    forall i | 0 <= i < |log| && LastOf(log, i) && log[i].id != req.id && Overlap(log[i].targets, want)
      ensures now - log[i].at >= window
    {
      assert Remembered(window, now, recent, log[i]);
      var k := log[i].id;
      if k in recent && recent[k] == Record(log[i].targets, log[i].at) {
        assert !Blocks(window, now, want, recent[k].targets, recent[k].admittedAt);
      }
    }
  }

  lemma StillLast(log: seq<Admission>, a: Admission, i: nat)
    requires i < |log| && LastOf(log + [a], i)
    ensures LastOf(log, i) && log[i].id != a.id
  {
    var r := log + [a];
    assert r[|log|] == a;
    forall k | i < k < |log|
      ensures log[k].id != log[i].id
    {
      assert r[k].id != r[i].id;
    }
  }

  lemma AdmissionKeepsSpacing(window: int, now: Time, req: Request, log: seq<Admission>, ticket: nat)
    requires Spaced(window, log) && ClearOf(window, now, log, req)
    ensures Spaced(window, log + [Admission(ticket, req.id, Normalised(req.targets), now)])
  {
    var r := log + [Admission(ticket, req.id, Normalised(req.targets), now)];
    forall i, j | 0 <= i < j < |r| && Overlap(r[i].targets, r[j].targets) && !Readmitted(r, i, j)
      ensures r[j].at - r[i].at >= window
    {
      if j < |log| {
        assert forall k | i < k <= j :: r[k] == log[k];
        assert !Readmitted(log, i, j);
      } else {
        assert LastOf(r, i);
        StillLast(log, r[j], i);
      }
    }
  }

  lemma RecordingRemembers(window: int, now: Time, recent: map<string, Record>, log: seq<Admission>, a: Admission)
    requires RecordsKept(window, now, recent, log) && a.at == now
    ensures RecordsKept(window, now, recent[a.id := Record(a.targets, a.at)], log + [a])
  {
    var r := log + [a];
    forall i | 0 <= i < |r| && LastOf(r, i)
      ensures Remembered(window, now, recent[a.id := Record(a.targets, a.at)], r[i])
    {
      if i < |log| {
        StillLast(log, a, i);
        assert Remembered(window, now, recent, log[i]);
      }
    }
  }

  lemma HeadRequestFrame(p: Policy, s: System, step: Step)
    requires Enabled(s, step) && PassHasHead(s) && PastStagger(s)
    requires !IsPassStep(step)
    ensures HasHead(Apply(p, s, step).e) && Head(Apply(p, s, step).e).req == Head(s.e).req
  {
  }

  lemma OtherStepKeepsSpacing(p: Policy, s: System, step: Step)
    requires PassHasHead(s) && SpacingInv(p, s) && Enabled(s, step) && !IsPassStep(step)
    ensures SpacingInv(p, Apply(p, s, step))
  {
    if step.TickStep? {
      TickKeepsSpacing(p, s, step.to);
    } else if step.CollectRecordsStep? {
      hide Normalised, Fresh, RecordsKept, Spaced, ClearOf;
      ForgettingTheAged(p.window, s.now, s.e.recent, s.past.log);
    } else {
      PassFrame(p, s, step);
      RecordFrame(p, s, step);
      if PastStagger(s) {
        HeadRequestFrame(p, s, step);
      }
      hide Apply, Enabled, PassHasHead, RecordsKept, Spaced, ClearOf;
    }
  }

  lemma TickKeepsSpacing(p: Policy, s: System, to: Time)
    requires SpacingInv(p, s) && Enabled(s, TickStep(to))
    ensures SpacingInv(p, Apply(p, s, TickStep(to)))
  {
    hide Normalised, Fresh, RecordsKept, Spaced;
    TimePasses(p.window, s.now, to, s.e.recent, s.past.log);
  }

  lemma RecordStepKeepsSpacing(p: Policy, s: System)
    requires SpacingInv(p, s) && Enabled(s, TakeRecordStep)
    ensures SpacingInv(p, Apply(p, s, TakeRecordStep))
  {
    var req := Head(s.e).req;
    var a := Admission(s.e.queue[0], req.id, Normalised(req.targets), s.now);
    AdmissionKeepsSpacing(p.window, s.now, req, s.past.log, s.e.queue[0]);
    RecordingRemembers(p.window, s.now, s.e.recent, s.past.log, a);
  }

  lemma TryStepKeepsSpacing(p: Policy, s: System)
    requires SpacingInv(p, s) && Enabled(s, TryStaggerStep)
    ensures SpacingInv(p, Apply(p, s, TryStaggerStep))
  {
    var req := Head(s.e).req;
    ForgettingTheAged(p.window, s.now, s.e.recent, s.past.log);
    if Hold(p.window, s.now, req, s.e.recent, s.pass.builds) == 0 {
      PassingTryIsClear(p.window, s.now, req, s.e.recent, s.pass.builds, s.past.log);
    }
  }

  /** Only a passing Try brings a head past the stagger gate. */
  lemma ReachesStagger(p: Policy, s: System, step: Step)
    requires Enabled(s, step) && IsPassStep(step) && !step.TryStaggerStep?
    ensures PastStagger(Apply(p, s, step)) ==> PastStagger(s) && Head(Apply(p, s, step).e).req == Head(s.e).req
  {
  }

  lemma PassStepKeepsSpacing(p: Policy, s: System, step: Step)
    requires PassHasHead(s) && SpacingInv(p, s) && Enabled(s, step) && IsPassStep(step)
    ensures SpacingInv(p, Apply(p, s, step))
  {
    match step
    case TakeRecordStep => RecordStepKeepsSpacing(p, s);
    case TryStaggerStep => TryStepKeepsSpacing(p, s);
    case _ =>
      hide Apply, Normalised, Fresh, RecordsKept, Spaced;
      RecordFrame(p, s, step);
      ReachesStagger(p, s, step);
  }

  lemma StepKeepsSpacing(p: Policy, s: System, step: Step)
    requires PassHasHead(s) && SpacingInv(p, s) && Enabled(s, step)
    ensures SpacingInv(p, Apply(p, s, step))
  {
    hide Apply, Enabled, SpacingInv, PassHasHead;
    if IsPassStep(step) {
      PassStepKeepsSpacing(p, s, step);
    } else {
      OtherStepKeepsSpacing(p, s, step);
    }
  }
}
