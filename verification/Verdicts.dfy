/** Every waiter hears at most one verdict, and every ALLOW returned stands for one slot acquisition. */
module Verdicts {
  import opened Wrappers
  import opened AdmissionModel
  import opened AdmissionSystem
  import opened QueueIndex

  function AdmittedTickets(log: seq<Admission>, id: string): set<nat> {
    set a | a in log && a.id == id :: a.ticket
  }

  /**
   * One waiter's verdict channel: `sent` is the number of sends so far, `returned` whether its ALLOW
   * reached a caller, `acquired` whether an admission of it is on record.
   */
  predicate SingleShot(w: WaiterView, sent: nat, returned: bool, acquired: bool) {
    && sent <= 1
    && (w.state.Queued? ==> sent == 0)
    && (sent == 0 ==> w.buffer.None? && !returned)
    && (w.state.Admitted? ==> sent == 1 && w.buffer == if returned then None else Some(Allow))
    && (w.buffer == Some(Allow) || returned ==> acquired)
    && !(w.buffer == Some(Allow) && returned)
    && (w.buffer == Some(Deny) ==> w.state.Done?)
    && w.buffer != Some(Queue)
  }

  predicate HeardOnce(s: System, t: nat)
    requires t < |s.e.waiters|
  {
    var w := s.e.waiters[t];
    SingleShot(w, s.past.sends[t], t in s.past.allowed, t in AdmittedTickets(s.past.log, w.req.id))
  }

  predicate NoRepeats(ts: seq<nat>) {
    forall i, j | 0 <= i < j < |ts| :: ts[i] != ts[j]
  }

  ghost predicate VerdictInv(s: System) {
    && NoRepeats(s.past.allowed)
    && (forall t | 0 <= t < |s.e.waiters| :: HeardOnce(s, t))
    && (forall t: nat | |s.e.waiters| <= t :: s.past.sends[t] == 0 && t !in s.past.allowed)
    && (s.pass.phase.RecordTaken? && HasHead(s.e) ==>
          s.e.queue[0] in AdmittedTickets(s.past.log, Head(s.e).req.id))
  }

  /** A step that sends nothing and returns nothing, and changes no waiter's channel, state or id. */
  lemma QuietKeepsVerdicts(s: System, r: System)
    requires VerdictInv(s)
    requires |r.e.waiters| == |s.e.waiters|
    requires forall t | 0 <= t < |s.e.waiters| ::
      && r.e.waiters[t].req.id == s.e.waiters[t].req.id && r.e.waiters[t].buffer == s.e.waiters[t].buffer
      && (r.e.waiters[t].state == s.e.waiters[t].state || r.e.waiters[t].state.Done?)
    requires r.past.sends == s.past.sends && r.past.allowed == s.past.allowed && r.past.log == s.past.log
    requires r.pass.phase.RecordTaken? && HasHead(r.e) ==>
      s.pass.phase.RecordTaken? && HasHead(s.e) && r.e.queue[0] == s.e.queue[0]
    ensures VerdictInv(r)
  {
    forall t | 0 <= t < |r.e.waiters|
      ensures HeardOnce(r, t)
    {
      assert HeardOnce(s, t);
    }
  }

  lemma AttachKeepsVerdicts(p: Policy, s: System, req: Request)
    requires Indexed(s.e) && VerdictInv(s) && Enabled(s, AttachStep(req))
    ensures VerdictInv(Apply(p, s, AttachStep(req)))
  {
    var r := Apply(p, s, AttachStep(req));
    if req.id in s.e.byID {
      QuietKeepsVerdicts(s, r);
    } else {
      forall t | 0 <= t < |r.e.waiters|
        ensures HeardOnce(r, t)
      {
        if t < |s.e.waiters| {
          assert HeardOnce(s, t);
        }
      }
    }
  }

  /** An ALLOW that is about to be returned has not been returned before. */
  lemma AllowIsNewsToItsWaiter(p: Policy, s: System, ticket: nat)
    requires VerdictInv(s) && Enabled(s, ReceiveStep(ticket))
    ensures s.e.waiters[ticket].buffer == Some(Allow) ==> ticket !in s.past.allowed
  {
    assert HeardOnce(s, ticket);
  }

  lemma ReceiveKeepsVerdicts(p: Policy, s: System, ticket: nat)
    requires PassHasHead(s) && VerdictInv(s) && Enabled(s, ReceiveStep(ticket))
    ensures VerdictInv(Apply(p, s, ReceiveStep(ticket)))
  {
    var r := Apply(p, s, ReceiveStep(ticket));
    forall t | 0 <= t < |r.e.waiters|
      ensures HeardOnce(r, t)
    {
      assert HeardOnce(s, t);
    }
    AllowIsNewsToItsWaiter(p, s, ticket);
  }

  lemma CollectKeepsVerdicts(p: Policy, s: System)
    requires Indexed(s.e) && VerdictInv(s) && Enabled(s, CollectQueueStep)
    ensures VerdictInv(Apply(p, s, CollectQueueStep))
  {
    CollectionRemovesOnlyTheStale(s.e, s.now, p.grace);
    QuietKeepsVerdicts(s, Apply(p, s, CollectQueueStep));
  }

  lemma SendKeepsVerdicts(p: Policy, s: System, step: Step)
    requires Indexed(s.e) && VerdictInv(s) && Enabled(s, step) && (step.DenyStep? || step.AdmitStep?)
    ensures VerdictInv(Apply(p, s, step))
    ensures Head(s.e).buffer.None?
  {
    var r := Apply(p, s, step);
    var head := s.e.queue[0];
    assert HeardOnce(s, head);
    assert r.past.sends == s.past.sends + multiset{head};
    forall t | 0 <= t < |r.e.waiters|
      ensures HeardOnce(r, t)
    {
      assert HeardOnce(s, t);
    }
  }

  lemma RecordKeepsVerdicts(p: Policy, s: System)
    requires VerdictInv(s) && Enabled(s, TakeRecordStep)
    ensures VerdictInv(Apply(p, s, TakeRecordStep))
  {
    var r := Apply(p, s, TakeRecordStep);
    var a := r.past.log[|s.past.log|];
    assert r.past.log == s.past.log + [a];
    forall t | 0 <= t < |r.e.waiters|
      ensures HeardOnce(r, t)
    {
      assert HeardOnce(s, t);
      var id := s.e.waiters[t].req.id;
      assert AdmittedTickets(s.past.log, id) <= AdmittedTickets(r.past.log, id);
    }
    assert a in r.past.log;
  }

  lemma SilentStepKeepsVerdicts(p: Policy, s: System, step: Step)
    requires Indexed(s.e) && PassHasHead(s) && VerdictInv(s) && Enabled(s, step)
    requires !Refiles(step) && !step.ReceiveStep? && !step.TakeRecordStep?
    ensures VerdictInv(Apply(p, s, step))
  {
    HistoryFrame(p, s, step);
    QuietKeepsVerdicts(s, Apply(p, s, step));
  }

  lemma StepKeepsVerdicts(p: Policy, s: System, step: Step)
    requires Indexed(s.e) && PassHasHead(s) && VerdictInv(s) && Enabled(s, step)
    ensures VerdictInv(Apply(p, s, step))
  {
    hide Apply, Enabled, VerdictInv, PassHasHead, Indexed;
    match step
    case AttachStep(req) => AttachKeepsVerdicts(p, s, req);
    case ReceiveStep(t) => ReceiveKeepsVerdicts(p, s, t);
    case ReleaseEntryStep(id) => ReleaseEntryKeepsVerdicts(p, s, id);
    case CollectQueueStep => CollectKeepsVerdicts(p, s);
    case DenyStep => SendKeepsVerdicts(p, s, step);
    case AdmitStep => SendKeepsVerdicts(p, s, step);
    case TakeRecordStep => RecordKeepsVerdicts(p, s);
    case _ => SilentStepKeepsVerdicts(p, s, step);
  }

  lemma ReleaseEntryKeepsVerdicts(p: Policy, s: System, id: string)
    requires Indexed(s.e) && VerdictInv(s) && Enabled(s, ReleaseEntryStep(id))
    ensures VerdictInv(Apply(p, s, ReleaseEntryStep(id)))
  {
    var r := Apply(p, s, ReleaseEntryStep(id));
    assert r.e == ReleaseEntry(s.e, id) && r.past == s.past && r.pass == s.pass;
    ReleaseEntryIsSilent(s.e, id);
    hide ReleaseEntry, Apply, HeardOnce;
    QuietKeepsVerdicts(s, r);
  }

  lemma ReleaseEntryIsSilent(e: Engine, id: string)
    requires Bounded(e)
    ensures var r := ReleaseEntry(e, id);
      && |r.waiters| == |e.waiters| && r.queue == e.queue
      && forall t | 0 <= t < |e.waiters| ::
          && r.waiters[t].req.id == e.waiters[t].req.id && r.waiters[t].buffer == e.waiters[t].buffer
          && (r.waiters[t].state == e.waiters[t].state || r.waiters[t].state.Done?)
  {
  }
}
