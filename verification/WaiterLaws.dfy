/** What polls, disconnections and collections do to one waiter over whole runs. */
module WaiterLaws {
  import opened Wrappers
  import opened AdmissionModel
  import opened AdmissionSystem
  import opened QueueIndex
  import opened AdmissionTheorems

  /** The step is a poll that joins the waiter `t`. */
  predicate Rejoins(s: System, step: Step, t: nat) {
    step.AttachStep? && step.req.id in s.e.byID && s.e.byID[step.req.id] == t
  }

  /** The requests of the polls that join the waiter `t` during a run. */
  ghost function Repolls(p: Policy, s: System, steps: seq<Step>, t: nat): seq<Request>
    requires Legal(p, s, steps)
    decreases |steps|
  {
    if steps == [] then []
    else (if Rejoins(s, steps[0], t) then [steps[0].req] else []) + Repolls(p, Apply(p, s, steps[0]), steps[1..], t)
  }

  // ---- one step ----

  predicate SamePresence(w: WaiterView, v: WaiterView) {
    v.connected == w.connected && v.lastDetach == w.lastDetach
  }

  /** A poll connects the waiter and brings what it carries; an empty field leaves the old one. */
  predicate Joined(w: WaiterView, v: WaiterView, req: Request) {
    && v.connected && v.lastDetach == w.lastDetach
    && v.req.id == w.req.id
    && v.req.pid == (if req.pid != 0 then req.pid else w.req.pid)
    && v.req.targets == (if req.targets != "" then req.targets else w.req.targets)
    && v.req.worktree == (if req.worktree != "" then req.worktree else w.req.worktree)
  }

  /** A waiter's request and presence change by polls that join it and by its own disconnections only. */
  lemma StepOnWaiter(p: Policy, s: System, step: Step, t: nat)
    requires Enabled(s, step) && t < |s.e.waiters|
    ensures var r := Apply(p, s, step);
      && t < |r.e.waiters|
      && var w, v := s.e.waiters[t], r.e.waiters[t];
      && (Rejoins(s, step, t) ==> Joined(w, v, step.req))
      && (step == DetachStep(t) ==> !v.connected && v.lastDetach == Some(s.now))
      && (!Rejoins(s, step, t) ==> v.req == w.req)
      && (!Rejoins(s, step, t) && step != DetachStep(t) ==> SamePresence(w, v))
  {
    hide Joined, SamePresence, Hold, AfterTry, Fresh, SlotFree, LoadAdmits, Slots;
    SameIsSame(s.e.waiters[t]);
    match step
    case AttachStep(req) =>
      AttachJoins(s.e, req, t);
      hide Attach;
    case DetachStep(u) =>
      DetachOnWaiter(s.e, u, s.now, t);
      hide Detach;
    case ReleaseEntryStep(id) =>
      ReleaseLeavesPresence(s.e, id, t);
      hide ReleaseEntry;
    case CollectQueueStep =>
      CollectionLeavesPresence(s.e, s.now, p.grace, t);
      hide GcQueued;
    case _ =>
      PassOnWaiter(p, s, step, t);
      hide Apply;
  }

  lemma SameIsSame(w: WaiterView)
    ensures SamePresence(w, w)
  {
  }

  lemma AttachJoins(e: Engine, req: Request, t: nat)
    requires Bounded(e) && t < |e.waiters|
    ensures var w, r := e.waiters[t], Attach(e, req);
      t < |r.waiters| && if req.id in e.byID && e.byID[req.id] == t then Joined(w, r.waiters[t], req) else r.waiters[t] == w
  {
  }

  lemma DetachOnWaiter(e: Engine, u: nat, now: Time, t: nat)
    requires u < |e.waiters| && t < |e.waiters|
    ensures var w, r := e.waiters[t], Detach(e, u, now);
      && |r.waiters| == |e.waiters| && r.waiters[t].req == w.req
      && if u == t then !r.waiters[t].connected && r.waiters[t].lastDetach == Some(now) else r.waiters[t] == w
  {
  }

  lemma ReleaseLeavesPresence(e: Engine, id: string, t: nat)
    requires Bounded(e) && t < |e.waiters|
    ensures var r := ReleaseEntry(e, id);
      |r.waiters| == |e.waiters| && r.waiters[t].req == e.waiters[t].req && SamePresence(e.waiters[t], r.waiters[t])
  {
  }

  lemma CollectionLeavesPresence(e: Engine, now: Time, grace: int, t: nat)
    requires Bounded(e) && t < |e.waiters|
    ensures var r := GcQueued(e, now, grace);
      |r.waiters| == |e.waiters| && r.waiters[t].req == e.waiters[t].req && SamePresence(e.waiters[t], r.waiters[t])
  {
    hide StaleIn, KeptQueue, IdsOf;
  }

  lemma PassOnWaiter(p: Policy, s: System, step: Step, t: nat)
    requires Enabled(s, step) && t < |s.e.waiters|
    requires !step.AttachStep? && !step.DetachStep? && !step.ReleaseEntryStep? && !step.CollectQueueStep?
    ensures var r := Apply(p, s, step).e;
      |r.waiters| == |s.e.waiters| && r.waiters[t].req == s.e.waiters[t].req && SamePresence(s.e.waiters[t], r.waiters[t])
  {
    hide Hold, AfterTry, Fresh, SlotFree, LoadAdmits, Slots, Attach, Detach, ReleaseEntry, GcQueued, StopTimer;
  }

  // ---- requests ----

  /** `v` is the last of `given` that is not empty, or `first` if all are. */
  predicate IsLatest<T(==)>(empty: T, first: T, given: seq<T>, v: T) {
    if forall x | x in given :: x == empty then v == first
    else exists i :: 0 <= i < |given| && given[i] == v != empty && forall j | i < j < |given| :: given[j] == empty
  }

  lemma LatestOneMore<T>(empty: T, first: T, x: T, rest: seq<T>, v: T)
    requires IsLatest(empty, if x != empty then x else first, rest, v)
    ensures IsLatest(empty, first, [x] + rest, v)
  {
    var all := [x] + rest;
    assert all[0] == x && x in all;
    if forall y | y in rest :: y == empty {
      assert forall j | 0 < j < |all| :: all[j] in rest;
    } else {
      var i :| 0 <= i < |rest| && rest[i] == v != empty && forall j | i < j < |rest| :: rest[j] == empty;
      assert all[i + 1] in all;
      assert all[i + 1] == v && forall j | i + 1 < j < |all| :: all[j] == rest[j - 1];
    }
  }

  function Pids(reqs: seq<Request>): seq<int> {
    if reqs == [] then [] else [reqs[0].pid] + Pids(reqs[1..])
  }

  function TargetTexts(reqs: seq<Request>): seq<string> {
    if reqs == [] then [] else [reqs[0].targets] + TargetTexts(reqs[1..])
  }

  function Worktrees(reqs: seq<Request>): seq<string> {
    if reqs == [] then [] else [reqs[0].worktree] + Worktrees(reqs[1..])
  }

  /** Of each field the request has the latest that any of these polls gave. */
  predicate HasTheLatest(w: Request, reqs: seq<Request>, v: Request) {
    && v.id == w.id
    && IsLatest(0, w.pid, Pids(reqs), v.pid)
    && IsLatest("", w.targets, TargetTexts(reqs), v.targets)
    && IsLatest("", w.worktree, Worktrees(reqs), v.worktree)
  }

  lemma RequestOneMore(w: WaiterView, m: WaiterView, req: Request, reqs: seq<Request>, v: Request)
    requires Joined(w, m, req) && HasTheLatest(m.req, reqs, v)
    ensures HasTheLatest(w.req, [req] + reqs, v)
  {
    hide IsLatest;
    assert ([req] + reqs)[1..] == reqs;
    LatestOneMore(0, w.req.pid, req.pid, Pids(reqs), v.pid);
    LatestOneMore("", w.req.targets, req.targets, TargetTexts(reqs), v.targets);
    LatestOneMore("", w.req.worktree, req.worktree, Worktrees(reqs), v.worktree);
  }

  /**
   * Over any run a waiter's request carries of each field the latest that a poll joining it gave, or the
   * first if none gave any: late pids and targets arrive, in whatever state the waiter is, and none is lost.
   */
  lemma {:induction false} RequestIsTheLatestGiven(p: Policy, s: System, steps: seq<Step>, t: nat)
    requires Legal(p, s, steps) && t < |s.e.waiters|
    ensures var r := Run(p, s, steps);
      t < |r.e.waiters| && HasTheLatest(s.e.waiters[t].req, Repolls(p, s, steps, t), r.e.waiters[t].req)
    decreases |steps|
  {
    hide Apply, Enabled, Joined, HasTheLatest;
    if steps == [] {
      NoneGiven(s.e.waiters[t].req);
    } else {
      var m := Apply(p, s, steps[0]);
      StepOnWaiter(p, s, steps[0], t);
      RequestIsTheLatestGiven(p, m, steps[1..], t);
      if Rejoins(s, steps[0], t) {
        RequestOneMore(s.e.waiters[t], m.e.waiters[t], steps[0].req, Repolls(p, m, steps[1..], t), Run(p, s, steps).e.waiters[t].req);
      } else {
        assert Repolls(p, s, steps, t) == Repolls(p, m, steps[1..], t);
      }
    }
  }

  lemma NoneGiven(w: Request)
    ensures HasTheLatest(w, [], w)
  {
  }

  // ---- collection ----

  /** Without a disconnection, a waiter is connected if it was or if a poll has joined it. */
  lemma {:induction false} PresenceRun(p: Policy, s: System, steps: seq<Step>, t: nat)
    requires Legal(p, s, steps) && t < |s.e.waiters| && DetachStep(t) !in steps
    ensures var r := Run(p, s, steps).e;
      && t < |r.waiters|
      && r.waiters[t].connected == (s.e.waiters[t].connected || Repolls(p, s, steps, t) != [])
      && r.waiters[t].lastDetach == s.e.waiters[t].lastDetach
    decreases |steps|
  {
    hide Apply, Enabled, Rejoins;
    if steps != [] {
      StepOnWaiter(p, s, steps[0], t);
      PresenceRun(p, Apply(p, s, steps[0]), steps[1..], t);
    }
  }

  /** A collection takes a waiting waiter out exactly if it is disconnected and has been so for the grace period. */
  lemma CollectedExactly(e: Engine, now: Time, grace: int, t: nat)
    requires Indexed(e) && t < |e.waiters| && e.waiters[t].state.Queued?
    ensures var w, r := e.waiters[t], GcQueued(e, now, grace);
      var gone := !w.connected && w.lastDetach.Some? && now - w.lastDetach.value >= grace;
      && (t in r.queue <==> !gone)
      && (w.req.id in r.byID <==> !gone)
      && r.waiters[t] == if gone then w.(state := Done) else w
  {
    assert Filed(e, t);
    KeptMembers(e.waiters, e.queue, now, grace);
    CollectionRemovesOnlyTheStale(e, now, grace);
  }

  /**
   * In any run, a waiter that disconnects, does so no second time and still waits when the queue is
   * collected goes exactly if no poll has joined it since and the grace period is over.
   */
  lemma DisconnectedIsCollectedExactly(p: Policy, start: Time, before: seq<Step>, steps: seq<Step>, t: nat)
    requires Legal(p, Init(start), before) && Enabled(Reached(p, start, before), DetachStep(t))
    requires Legal(p, Apply(p, Reached(p, start, before), DetachStep(t)), steps) && DetachStep(t) !in steps
    requires var r := Run(p, Apply(p, Reached(p, start, before), DetachStep(t)), steps);
      Enabled(r, CollectQueueStep) && t < |r.e.waiters| && r.e.waiters[t].state.Queued?
    ensures var s := Reached(p, start, before);
      var m := Apply(p, s, DetachStep(t));
      var r := Run(p, m, steps);
      t in Apply(p, r, CollectQueueStep).e.queue <==> Repolls(p, m, steps, t) != [] || r.now - s.now < p.grace
  {
    ReachedInv(p, start, before);
    hide Apply, Enabled, Inv, Legal, Run, Repolls;
    var s := Reached(p, start, before);
    StepKeepsInv(p, s, DetachStep(t));
    DetachMeans(p, s, t);
    CollectedAfter(p, Apply(p, s, DetachStep(t)), steps, t);
  }

  lemma DetachMeans(p: Policy, s: System, t: nat)
    requires Enabled(s, DetachStep(t))
    ensures var r := Apply(p, s, DetachStep(t)).e;
      t < |r.waiters| && !r.waiters[t].connected && r.waiters[t].lastDetach == Some(s.now)
  {
  }

  lemma AttachMeans(p: Policy, s: System, req: Request)
    requires Enabled(s, AttachStep(req))
    ensures var r, t := Apply(p, s, AttachStep(req)).e, TicketFor(s.e, req.id);
      t < |r.waiters| && r.waiters[t].connected
  {
  }

  lemma CollectMeans(p: Policy, s: System)
    requires Enabled(s, CollectQueueStep)
    ensures Bounded(s.e) && Apply(p, s, CollectQueueStep).e == GcQueued(s.e, s.now, p.grace)
  {
  }

  /** Who is still in the queue after a collection, of those that do not disconnect before it. */
  lemma CollectedAfter(p: Policy, m: System, steps: seq<Step>, t: nat)
    requires Inv(p, m) && t < |m.e.waiters| && Legal(p, m, steps) && DetachStep(t) !in steps
    requires var r := Run(p, m, steps); Enabled(r, CollectQueueStep) && t < |r.e.waiters| && r.e.waiters[t].state.Queued?
    ensures var w, r := m.e.waiters[t], Run(p, m, steps);
      t in Apply(p, r, CollectQueueStep).e.queue <==>
        w.connected || Repolls(p, m, steps, t) != [] || w.lastDetach.None? || r.now - w.lastDetach.value < p.grace
  {
    RunKeepsInv(p, m, steps);
    PresenceRun(p, m, steps, t);
    var r := Run(p, m, steps);
    CollectMeans(p, r);
    InvIsIndexed(p, r);
    hide Inv, Run, Legal, Indexed, Apply, Enabled, GcQueued;
    CollectedExactly(r.e, r.now, p.grace, t);
  }

  /** In any run, a waiter that has been polled for and has not disconnected since survives every collection. */
  lemma ConnectedIsNeverCollected(p: Policy, start: Time, before: seq<Step>, req: Request, steps: seq<Step>)
    requires Legal(p, Init(start), before) && Enabled(Reached(p, start, before), AttachStep(req))
    requires Legal(p, Apply(p, Reached(p, start, before), AttachStep(req)), steps)
    requires var t := TicketFor(Reached(p, start, before).e, req.id);
      var r := Run(p, Apply(p, Reached(p, start, before), AttachStep(req)), steps);
      DetachStep(t) !in steps && Enabled(r, CollectQueueStep) && t < |r.e.waiters| && r.e.waiters[t].state.Queued?
    ensures var s := Reached(p, start, before);
      var r := Run(p, Apply(p, s, AttachStep(req)), steps);
      TicketFor(s.e, req.id) in Apply(p, r, CollectQueueStep).e.queue
  {
    ReachedInv(p, start, before);
    hide Apply, Enabled, Inv, Legal, Run, Repolls;
    var s := Reached(p, start, before);
    StepKeepsInv(p, s, AttachStep(req));
    AttachMeans(p, s, req);
    CollectedAfter(p, Apply(p, s, AttachStep(req)), steps, TicketFor(s.e, req.id));
  }
}
