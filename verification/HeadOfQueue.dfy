/**
 * A waiter at the head of the queue is not starved by later arrivals: nobody is recorded while it stays
 * there, so once its hold has run out only builds of the registry's snapshot can still refuse it.
 */
module HeadOfQueue {
  import opened Targets
  import opened AdmissionModel
  import opened StaggerLaws
  import opened AdmissionSystem
  import opened AdmissionTheorems

  predicate HeadIs(s: System, t: nat) {
    HasHead(s.e) && s.e.queue[0] == t
  }

  /** `t` is at the head in every state of the run. */
  ghost predicate StaysAtHead(p: Policy, s: System, steps: seq<Step>, t: nat)
    requires Legal(p, s, steps)
    decreases |steps|
  {
    HeadIs(s, t) && (steps != [] ==> StaysAtHead(p, Apply(p, s, steps[0]), steps[1..], t))
  }

  /** No record is dated after the clock. */
  predicate RecordsDated(s: System) {
    forall k | k in s.e.recent :: s.e.recent[k].admittedAt <= s.now
  }

  lemma StepKeepsDates(p: Policy, s: System, step: Step)
    requires RecordsDated(s) && Enabled(s, step)
    ensures RecordsDated(Apply(p, s, step))
  {
    RecordFrame(p, s, step);
    if !step.CollectRecordsStep? && !step.TryStaggerStep? && !step.TakeRecordStep? && !step.TickStep? {
      hide Apply;
    }
  }

  lemma FreshIsDated(start: Time)
    ensures RecordsDated(Init(start))
  {
  }

  lemma RecordedBefore(s: System)
    requires RecordsDated(s)
    ensures forall k | k in s.e.recent :: s.e.recent[k].admittedAt <= s.now
  {
  }

  lemma {:induction false} RunKeepsDates(p: Policy, s: System, steps: seq<Step>)
    requires RecordsDated(s) && Legal(p, s, steps)
    ensures RecordsDated(Run(p, s, steps))
    decreases |steps|
  {
    hide Apply, Enabled, RecordsDated;
    if steps != [] {
      StepKeepsDates(p, s, steps[0]);
      RunKeepsDates(p, Apply(p, s, steps[0]), steps[1..]);
    }
  }

  /** `r` has no records that `s` has not, except under `id`. */
  predicate NoNewRecords(s: System, r: System, id: string) {
    forall k | k in r.e.recent && k != id :: k in s.e.recent && r.e.recent[k] == s.e.recent[k]
  }

  lemma StepRecordsOnlyTheHead(p: Policy, s: System, step: Step)
    requires Enabled(s, step) && HasHead(s.e)
    ensures NoNewRecords(s, Apply(p, s, step), Head(s.e).req.id)
  {
    RecordFrame(p, s, step);
    if !step.CollectRecordsStep? && !step.TryStaggerStep? && !step.TakeRecordStep? {
      hide Apply;
    }
  }

  /** While `t` stays at the head, nobody else is recorded. */
  lemma {:induction false} NobodyRecordedMeanwhile(p: Policy, s: System, steps: seq<Step>, t: nat)
    requires Legal(p, s, steps) && StaysAtHead(p, s, steps, t)
    ensures var r := Run(p, s, steps);
      HeadIs(r, t) && Head(r.e).req.id == Head(s.e).req.id && NoNewRecords(s, r, Head(s.e).req.id)
    decreases |steps|
  {
    hide Apply, Enabled, NoNewRecords;
    if steps == [] {
      NoneNew(s, Head(s.e).req.id);
    } else {
      var m := Apply(p, s, steps[0]);
      StepKeepsTicketId(p, s, steps[0], t);
      StepRecordsOnlyTheHead(p, s, steps[0]);
      NobodyRecordedMeanwhile(p, m, steps[1..], t);
      NoneNewTwice(s, m, Run(p, s, steps), Head(s.e).req.id);
    }
  }

  lemma NoneNew(s: System, id: string)
    ensures NoNewRecords(s, s, id)
  {
  }

  lemma NoneNewTwice(s: System, m: System, r: System, id: string)
    requires NoNewRecords(s, m, id) && NoNewRecords(m, r, id)
    ensures NoNewRecords(s, r, id)
  {
  }

  /** A record that does not block at the end of a hold has run out for good. */
  lemma RecordsRunOut(window: int, now: Time, later: Time, req: Request, again: Request, recent: map<string, Record>,
                      left: map<string, Record>, builds: seq<ActiveBuild>)
    requires again.id == req.id && Normalised(again.targets) == Normalised(req.targets)
    requires forall k | k in recent :: recent[k].admittedAt <= now
    requires forall k | k in left && k != req.id :: k in recent && left[k] == recent[k]
    requires later >= now + Hold(window, now, req, recent, builds)
    ensures BlockingRecords(window, later, req.id, Normalised(req.targets), left) == {}
  {
    var want := Normalised(req.targets);
    var rs := Blocking(window, now, req.id, want, recent, builds);
    RefusesExactlyWhenHeldBack(window, now, req, recent, builds);
    assert rs != {} && want != {} && window > 0 ==> forall x | x in rs :: window - (now - x.admittedAt) <= later - now;
    hide Hold, LatestDate, Normalised, Overlap;
    forall k | k in left && k != req.id
      ensures !Blocks(window, later, want, left[k].targets, left[k].admittedAt)
    {
      if Blocks(window, now, want, recent[k].targets, recent[k].admittedAt) {
        assert recent[k] in BlockingRecords(window, now, req.id, want, recent);
        assert recent[k] in rs;
      }
    }
  }

  /**
   * From any reachable state, if `t` stays at the head with the same targets until its hold has run out,
   * then it is refused by the stagger gate exactly if a build of the registry's snapshot holds it back.
   */
  lemma OnlyTheSnapshotStillRefuses(p: Policy, start: Time, before: seq<Step>, steps: seq<Step>, t: nat,
                                    builds: seq<ActiveBuild>, snapshot: seq<ActiveBuild>)
    requires Legal(p, Init(start), before) && Legal(p, Reached(p, start, before), steps)
    requires StaysAtHead(p, Reached(p, start, before), steps, t)
    requires var s := Reached(p, start, before);
      var r := Run(p, s, steps);
      && HasHead(r.e) && Normalised(Head(r.e).req.targets) == Normalised(Head(s.e).req.targets)
      && r.now >= s.now + Hold(p.window, s.now, Head(s.e).req, s.e.recent, builds)
    ensures var r := Run(p, Reached(p, start, before), steps);
      Hold(p.window, r.now, Head(r.e).req, r.e.recent, snapshot) == Hold(p.window, r.now, Head(r.e).req, map[], snapshot)
  {
    hide Run, Legal, RecordsDated, Normalised, Overlap, LatestDate;
    var s := Reached(p, start, before);
    var r := Run(p, s, steps);
    assert RecordsDated(Init(start)) by {
      FreshIsDated(start);
    }
    RunKeepsDates(p, Init(start), before);
    NobodyRecordedMeanwhile(p, s, steps, t);
    hide StaysAtHead;
    RecordedBefore(s);
    RecordsRunOut(p.window, s.now, r.now, Head(s.e).req, Head(r.e).req, s.e.recent, r.e.recent, builds);
    assert BlockingRecords(p.window, r.now, Head(r.e).req.id, Normalised(Head(r.e).req.targets), map[]) == {};
  }
}
