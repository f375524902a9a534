/**
 * The admission engine under concurrency: a transition system whose steps are the code's lock-atomic
 * sections. A scheduling pass holds the engine lock but takes each gate's own lock separately, so it
 * is split into one step per gate call; slot releases, load samples, record collection, timer expiry,
 * verdict receipt and the clock may all fall between those steps.
 */
module AdmissionSystem {
  import opened Wrappers
  import opened Targets
  import opened AdmissionModel

  /** Where the scheduling pass that holds the engine lock stands; Idle when nobody is in one. */
  datatype Phase = Idle | AtHead | SlotOffered | LoadOffered | Cleared | SlotTaken | RecordTaken

  /** One admission, in the order in which stagger records are taken. */
  datatype Admission = Admission(ticket: nat, id: string, targets: set<string>, at: Time)

  datatype Sample = Sample(cpu: real, ramP: int)

  /** What the load gate judges: the sample in the bucket, and the admissions since the last reset. */
  datatype Load = Load(sample: Sample, debit: nat)

  /** The scheduling pass in progress: its registry snapshot and the load its last load gate read. */
  datatype Pass = Pass(phase: Phase, builds: seq<ActiveBuild>, read: Load)

  /**
   * Operations under way. `releasing`: ids whose Release has left the engine lock but not yet reached
   * the semaphore. `fired`: expired timers whose callback has not yet run. `sampled`: load samples
   * stored whose counter reset is still due. `owed`: operations that have made their update and still
   * have to call schedule.
   */
  datatype Pending = Pending(releasing: multiset<string>, fired: multiset<string>, sampled: nat, owed: nat)

  /**
   * What has happened: admissions, verdicts sent, every return of an ALLOW to a caller by the ticket it was
   * for, the load sample read for the last admission, every sample stored, and the load read for each admission.
   */
  datatype History = History(
    log: seq<Admission>, sends: multiset<nat>, allowed: seq<nat>, lastCpu: Option<real>, samples: seq<Sample>, loads: seq<Load>)

  /** The sample a new bucket starts with. */
  const FIRST_SAMPLE := Sample(0.0, 1)

  function Reading(e: Engine): Load {
    Load(Sample(e.cpu, e.ramP), e.recentlyAdmitted)
  }

  datatype System = System(e: Engine, pass: Pass, pending: Pending, past: History, now: Time)

  function Init(now: Time): System {
    System(EMPTY_ENGINE, Pass(Idle, [], Load(FIRST_SAMPLE, 0)), Pending(multiset{}, multiset{}, 0, 0),
           History([], multiset{}, [], None, [FIRST_SAMPLE], []), now)
  }

  datatype Step =
    | AttachStep(req: Request)
    | DetachStep(ticket: nat)
    | ReceiveStep(ticket: nat)
    | ReleaseEntryStep(id: string)
    | ReleaseSlotStep(id: string)
    | CollectQueueStep
    | CollectRecordsStep
    | SetPausedStep(on: bool)
    | SetDrainingStep(on: bool)
    | ResumeStep
    | SampleStep(cpu: real, ramP: int)
    | ResetStep
    | ExpireStep(timer: nat)
    | CallbackStep(id: string)
    | TickStep(to: Time)
    | EnterStep(builds: seq<ActiveBuild>)
    | ExitStep
    | PopStep
    | DenyStep
    | TrySlotStep
    | TryLoadStep
    | TryStaggerStep
    | TakeSlotStep
    | TakeRecordStep
    | AdmitStep

  predicate QueuedHead(e: Engine) {
    HasHead(e) && Head(e).state.Queued?
  }

  /** Steps that need the engine lock wait for the pass in progress; the pass runs its own steps in order. */
  predicate Enabled(s: System, step: Step) {
    && Bounded(s.e)
    && match step
       case AttachStep(_) => s.pass.phase.Idle?
       case DetachStep(t) => s.pass.phase.Idle? && t < |s.e.waiters|
       case ReceiveStep(t) => t < |s.e.waiters| && s.e.waiters[t].buffer.Some?
       case ReleaseEntryStep(_) => s.pass.phase.Idle?
       case ReleaseSlotStep(id) => id in s.pending.releasing
       case CollectQueueStep => s.pass.phase.Idle?
       case CollectRecordsStep => true
       case SetPausedStep(_) => s.pass.phase.Idle?
       case SetDrainingStep(_) => s.pass.phase.Idle?
       case ResumeStep => s.pass.phase.Idle?
       case SampleStep(_, _) => true
       case ResetStep => s.pass.phase.Idle? && s.pending.sampled > 0
       case ExpireStep(h) => h < |s.e.timers| && s.e.timers[h].live
       case CallbackStep(id) => s.pass.phase.Idle? && id in s.pending.fired
       case TickStep(to) => s.now <= to
       case EnterStep(_) => s.pass.phase.Idle? && s.pending.owed > 0
       case ExitStep => s.pass.phase.AtHead? && s.e.queue == []
       case PopStep => s.pass.phase.AtHead? && HasHead(s.e) && !Head(s.e).state.Queued?
       case DenyStep => s.pass.phase.AtHead? && QueuedHead(s.e) && s.e.draining
       case TrySlotStep => s.pass.phase.AtHead? && QueuedHead(s.e) && !s.e.draining
       case TryLoadStep => s.pass.phase.SlotOffered? && QueuedHead(s.e)
       case TryStaggerStep => s.pass.phase.LoadOffered? && QueuedHead(s.e)
       case TakeSlotStep => s.pass.phase.Cleared? && QueuedHead(s.e)
       case TakeRecordStep => s.pass.phase.SlotTaken? && QueuedHead(s.e)
       case AdmitStep => s.pass.phase.RecordTaken? && QueuedHead(s.e)
  }

  /** The operation has made its update and now owes a schedule call. */
  function Owe(q: Pending): Pending {
    q.(owed := q.owed + 1)
  }

  function Go(s: System, phase: Phase): Pass {
    s.pass.(phase := phase)
  }

  /** A refusal leaves the pass, arming the head's retry timer when the gate names a delay. */
  function Refuse(s: System, e: Engine, delay: int): System
    requires Bounded(e) && HasHead(e)
  {
    s.(e := ArmTimer(e, Head(e).req.id, delay), pass := Go(s, Idle))
  }

  ghost function Apply(p: Policy, s: System, step: Step): System
    requires Enabled(s, step)
  {
    var e, q, past := s.e, s.pending, s.past;
    match step
    case AttachStep(req) => s.(e := Attach(e, req), pending := Owe(q))
    case DetachStep(t) => s.(e := Detach(e, t, s.now))
    case ReceiveStep(t) =>
      s.(e := Receive(e, t),
         past := if e.waiters[t].buffer == Some(Allow) then past.(allowed := past.allowed + [t]) else past)
    case ReleaseEntryStep(id) => s.(e := ReleaseEntry(e, id), pending := q.(releasing := q.releasing + multiset{id}))
    case ReleaseSlotStep(id) => s.(e := ReleaseSlot(e, id), pending := Owe(q.(releasing := q.releasing - multiset{id})))
    case CollectQueueStep => s.(e := GcQueued(e, s.now, p.grace))
    case CollectRecordsStep => s.(e := e.(recent := Fresh(p.window, s.now, e.recent)))
    case SetPausedStep(on) => s.(e := e.(paused := on), pending := Owe(q))
    case SetDrainingStep(on) => s.(e := e.(draining := on), pending := Owe(q))
    case ResumeStep => s.(e := e.(paused := false, draining := false), pending := Owe(q))
    case SampleStep(cpu, ramP) =>
      s.(e := e.(cpu := cpu, ramP := ramP), pending := q.(sampled := q.sampled + 1),
         past := past.(samples := past.samples + [Sample(cpu, ramP)]))
    case ResetStep =>
      s.(e := e.(recentlyAdmitted := 0), pending := Owe(q.(sampled := q.sampled - 1)), past := past.(lastCpu := None))
    case ExpireStep(h) =>
      s.(e := e.(timers := StopTimer(e.timers, h)), pending := q.(fired := q.fired + multiset{e.timers[h].id}))
    case CallbackStep(id) =>
      s.(e := e.(retryTimers := e.retryTimers - {id}), pending := Owe(q.(fired := q.fired - multiset{id})))
    case TickStep(to) => s.(now := to)
    case EnterStep(builds) =>
      s.(pending := q.(owed := q.owed - 1),
         pass := if e.paused || e.queue == [] then s.pass else Pass(AtHead, builds, s.pass.read))
    case ExitStep => s.(pass := Go(s, Idle))
    case PopStep => s.(e := PopHead(e))
    case DenyStep => s.(e := DenyHead(e), past := past.(sends := past.sends + multiset{e.queue[0]}))
    case TrySlotStep =>
      if SlotFree(p, e, Head(e).req.id) then s.(pass := Go(s, SlotOffered)) else Refuse(s, e, 0)
    case TryLoadStep =>
      if LoadAdmits(p, e.cpu, e.ramP, e.recentlyAdmitted) then s.(pass := Go(s, LoadOffered).(read := Reading(e)))
      else Refuse(s, e, LOAD_RETRY)
    case TryStaggerStep =>
      var hold := Hold(p.window, s.now, Head(e).req, e.recent, s.pass.builds);
      var tried := e.(recent := AfterTry(p.window, s.now, Head(e).req, e.recent));
      if hold == 0 then s.(e := tried, pass := Go(s, Cleared)) else Refuse(s, tried, hold)
    case TakeSlotStep => s.(e := TakeSlot(e), pass := Go(s, SlotTaken))
    case TakeRecordStep =>
      var req := Head(e).req;
      s.(e := TakeRecord(e, s.now), pass := Go(s, RecordTaken),
         past := past.(log := past.log + [Admission(e.queue[0], req.id, Normalised(req.targets), s.now)],
                       loads := past.loads + [s.pass.read]))
    case AdmitStep =>
      s.(e := AdmitHead(e),
         pass := Pass(AtHead, s.pass.builds + [JustAdmitted(Head(e).req, s.now)], s.pass.read),
         past := past.(sends := past.sends + multiset{e.queue[0]}, lastCpu := Some(s.pass.read.sample.cpu)))
  }

  // ---- what each step leaves alone ----

  predicate IsPassStep(step: Step) {
    || step.EnterStep? || step.ExitStep? || step.PopStep? || step.DenyStep? || step.TrySlotStep? || step.TryLoadStep?
    || step.TryStaggerStep? || step.TakeSlotStep? || step.TakeRecordStep? || step.AdmitStep?
  }

  /** Steps that file a waiter differently. */
  predicate Refiles(step: Step) {
    step.AttachStep? || step.ReleaseEntryStep? || step.CollectQueueStep? || step.DenyStep? || step.AdmitStep?
  }

  /** Same waiters in the same states under the same ids, led to by the same index. */
  predicate SameFiling(e: Engine, r: Engine) {
    && r.byID == e.byID
    && |r.waiters| == |e.waiters|
    && forall t | 0 <= t < |e.waiters| :: r.waiters[t].state == e.waiters[t].state && r.waiters[t].req.id == e.waiters[t].req.id
  }

  lemma FilingFrame(p: Policy, s: System, step: Step)
    requires Enabled(s, step) && !Refiles(step)
    ensures SameFiling(s.e, Apply(p, s, step).e)
    ensures !step.PopStep? ==> Apply(p, s, step).e.queue == s.e.queue
  {
    hide Hold, AfterTry, Fresh, Normalised, SlotFree, LoadAdmits, Slots;
  }

  /** A waiter's id never changes. */
  lemma StepKeepsTicketId(p: Policy, s: System, step: Step, t: nat)
    requires Enabled(s, step) && t < |s.e.waiters|
    ensures var r := Apply(p, s, step).e; t < |r.waiters| && r.waiters[t].req.id == s.e.waiters[t].req.id
  {
    if !Refiles(step) {
      FilingFrame(p, s, step);
      hide Apply;
    }
  }

  lemma PassFrame(p: Policy, s: System, step: Step)
    requires Enabled(s, step) && !IsPassStep(step)
    ensures Apply(p, s, step).pass == s.pass
  {
  }

  /** Steps that leave slots and records alone while the pass is under way. */
  lemma PassLeavesAlone(p: Policy, s: System, step: Step)
    requires Enabled(s, step) && IsPassStep(step) && !step.TryStaggerStep? && !step.TakeSlotStep? && !step.TakeRecordStep?
    ensures Apply(p, s, step).e.held == s.e.held && Apply(p, s, step).e.recent == s.e.recent
  {
    hide SlotFree, LoadAdmits, Slots;
  }

  /** Steps outside the pass that leave slots and records alone. */
  lemma SectionLeavesAlone(p: Policy, s: System, step: Step)
    requires Enabled(s, step) && !IsPassStep(step) && !step.ReleaseSlotStep? && !step.CollectRecordsStep?
    ensures Apply(p, s, step).e.held == s.e.held && Apply(p, s, step).e.recent == s.e.recent
  {
    match step
    case AttachStep(req) =>
      AttachLeavesAlone(s.e, req);
      hide Attach;
    case ReleaseEntryStep(id) =>
      ReleaseEntryLeavesAlone(s.e, id);
      hide ReleaseEntry;
    case CollectQueueStep =>
      hide StaleIn, KeptQueue, MarkDone, IdsOf;
    case _ =>
      hide Attach, ReleaseEntry, GcQueued;
  }

  lemma AttachLeavesAlone(e: Engine, req: Request)
    requires Bounded(e)
    ensures Attach(e, req).held == e.held && Attach(e, req).recent == e.recent
  {
  }

  lemma ReleaseEntryLeavesAlone(e: Engine, id: string)
    requires Bounded(e)
    ensures ReleaseEntry(e, id).held == e.held && ReleaseEntry(e, id).recent == e.recent
  {
  }

  lemma HeldFrame(p: Policy, s: System, step: Step)
    requires Enabled(s, step) && !step.ReleaseSlotStep? && !step.TakeSlotStep?
    ensures Apply(p, s, step).e.held == s.e.held
  {
    if step.TryStaggerStep? || step.TakeRecordStep? || step.CollectRecordsStep? {
      hide Hold, AfterTry, Fresh, Normalised;
    } else {
      hide Apply, Enabled;
      if IsPassStep(step) {
        PassLeavesAlone(p, s, step);
      } else {
        SectionLeavesAlone(p, s, step);
      }
    }
  }

  lemma ReleasingFrame(p: Policy, s: System, step: Step)
    requires Enabled(s, step) && !step.ReleaseEntryStep? && !step.ReleaseSlotStep?
    ensures Apply(p, s, step).pending.releasing == s.pending.releasing
  {
    hide Hold, AfterTry, Fresh, Normalised, SlotFree, LoadAdmits, Slots;
  }

  lemma SlotFrame(p: Policy, s: System, step: Step)
    requires Enabled(s, step)
    ensures !step.ReleaseSlotStep? && !step.TakeSlotStep? ==> Apply(p, s, step).e.held == s.e.held
    ensures !step.ReleaseEntryStep? && !step.ReleaseSlotStep? ==>
      Apply(p, s, step).pending.releasing == s.pending.releasing
  {
    hide Apply, Enabled;
    if !step.ReleaseSlotStep? {
      if !step.TakeSlotStep? {
        HeldFrame(p, s, step);
      }
      if !step.ReleaseEntryStep? {
        ReleasingFrame(p, s, step);
      }
    }
  }

  lemma RecentFrame(p: Policy, s: System, step: Step)
    requires Enabled(s, step) && !step.CollectRecordsStep? && !step.TryStaggerStep? && !step.TakeRecordStep?
    ensures Apply(p, s, step).e.recent == s.e.recent
  {
    if !step.TakeSlotStep? && !step.ReleaseSlotStep? {
      hide Apply, Enabled;
      if IsPassStep(step) {
        PassLeavesAlone(p, s, step);
      } else {
        SectionLeavesAlone(p, s, step);
      }
    }
  }

  lemma LogFrame(p: Policy, s: System, step: Step)
    requires Enabled(s, step)
    ensures var r := Apply(p, s, step);
      && (!step.TakeRecordStep? ==> r.past.log == s.past.log)
      && (!step.TickStep? ==> r.now == s.now)
  {
    hide Hold, AfterTry, Fresh, Normalised, SlotFree, LoadAdmits, Slots;
  }

  lemma RecordFrame(p: Policy, s: System, step: Step)
    requires Enabled(s, step)
    ensures var r := Apply(p, s, step);
      && (!step.CollectRecordsStep? && !step.TryStaggerStep? && !step.TakeRecordStep? ==> r.e.recent == s.e.recent)
      && (!step.TakeRecordStep? ==> r.past.log == s.past.log)
      && (!step.TickStep? ==> r.now == s.now)
  {
    hide Apply, Enabled;
    LogFrame(p, s, step);
    if !step.CollectRecordsStep? && !step.TryStaggerStep? && !step.TakeRecordStep? {
      RecentFrame(p, s, step);
    }
  }

  lemma HistoryFrame(p: Policy, s: System, step: Step)
    requires Enabled(s, step)
    ensures var r := Apply(p, s, step);
      && (!step.DenyStep? && !step.AdmitStep? ==> r.past.sends == s.past.sends)
      && (!step.ReceiveStep? ==> r.past.allowed == s.past.allowed)
      && (!step.ResetStep? && !step.AdmitStep? ==> r.past.lastCpu == s.past.lastCpu)
      && (!step.SampleStep? ==> r.past.samples == s.past.samples)
      && (!step.TakeRecordStep? ==> r.past.loads == s.past.loads)
  {
    hide Hold, AfterTry, Fresh, Normalised, SlotFree, LoadAdmits, Slots;
  }

  /** Every step of the sequence is enabled where it is taken. */
  ghost predicate Legal(p: Policy, s: System, steps: seq<Step>)
    decreases |steps|
  {
    steps == [] || (Enabled(s, steps[0]) && Legal(p, Apply(p, s, steps[0]), steps[1..]))
  }

  ghost function Run(p: Policy, s: System, steps: seq<Step>): System
    requires Legal(p, s, steps)
    decreases |steps|
  {
    if steps == [] then s else Run(p, Apply(p, s, steps[0]), steps[1..])
  }

  lemma {:induction false} RunConcat(p: Policy, s: System, xs: seq<Step>, ys: seq<Step>)
    requires Legal(p, s, xs) && Legal(p, Run(p, s, xs), ys)
    ensures Legal(p, s, xs + ys) && Run(p, s, xs + ys) == Run(p, Run(p, s, xs), ys)
    decreases |xs|
  {
    hide Apply, Enabled;
    if xs == [] {
      assert xs + ys == ys;
    } else {
      RunConcat(p, Apply(p, s, xs[0]), xs[1..], ys);
      assert (xs + ys)[1..] == xs[1..] + ys;
    }
  }
}
