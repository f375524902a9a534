/** Queue and index stay consistent through every critical section of the engine. */
module QueueIndex {
  import opened AdmissionModel
  import opened AdmissionSystem

  predicate Sorted(queue: seq<nat>) {
    forall i, j | 0 <= i < j < |queue| :: queue[i] < queue[j]
  }

  /** Where waiter `t` is to be found, given its state. */
  predicate Filed(e: Engine, t: nat)
    requires t < |e.waiters|
  {
    var w := e.waiters[t];
    match w.state
    case Queued => t in e.queue && w.req.id in e.byID && e.byID[w.req.id] == t
    case Admitted => t !in e.queue && w.req.id in e.byID && e.byID[w.req.id] == t
    case Done => !(w.req.id in e.byID && e.byID[w.req.id] == t)
  }

  /**
   * The queue holds distinct waiters in order of creation; a queued waiter is in the queue and the
   * index leads its id to that very waiter; an admitted one is in the index only; a done one never is.
   */
  predicate Indexed(e: Engine) {
    && Bounded(e)
    && Sorted(e.queue)
    && (forall t | 0 <= t < |e.waiters| :: Filed(e, t))
    && (forall id | id in e.byID :: e.waiters[e.byID[id]].req.id == id)
  }

  lemma {:induction false} KeptMembers(waiters: seq<WaiterView>, queue: seq<nat>, now: Time, grace: int)
    requires forall i | 0 <= i < |queue| :: queue[i] < |waiters|
    ensures forall t :: t in KeptQueue(waiters, queue, now, grace) <==> t in queue && !Stale(waiters[t], now, grace)
  {
    if queue == [] {
    } else {
      var front, last := queue[..|queue| - 1], queue[|queue| - 1];
      KeptMembers(waiters, front, now, grace);
      assert queue == front + [last];
    }
  }

  /** Collection keeps the waiters that are not stale, in their order. */
  lemma {:induction false} KeptIsStableFilter(waiters: seq<WaiterView>, queue: seq<nat>, now: Time, grace: int)
    requires forall i | 0 <= i < |queue| :: queue[i] < |waiters|
    requires Sorted(queue)
    ensures forall t :: t in KeptQueue(waiters, queue, now, grace) <==> t in queue && !Stale(waiters[t], now, grace)
    ensures Sorted(KeptQueue(waiters, queue, now, grace))
  {
    KeptMembers(waiters, queue, now, grace);
    if queue == [] {
    } else {
      var front, last := queue[..|queue| - 1], queue[|queue| - 1];
      KeptIsStableFilter(waiters, front, now, grace);
      var kept := KeptQueue(waiters, front, now, grace);
      forall i | 0 <= i < |kept|
        ensures kept[i] < last
      {
        assert kept[i] in front;
      }
    }
  }

  lemma EnqueueKeepsFiled(e: Engine, req: Request, t: nat)
    requires Indexed(e) && req.id !in e.byID && t < |e.waiters|
    ensures Filed(Attach(e, req), t)
  {
    assert Filed(e, t);
    var r := Attach(e, req);
    assert r.waiters[t] == e.waiters[t];
    assert t in r.queue <==> t in e.queue;
  }

  lemma NewcomerIsFiled(e: Engine, req: Request)
    requires Indexed(e) && req.id !in e.byID
    ensures Filed(Attach(e, req), |e.waiters|)
  {
    assert Attach(e, req).queue[|e.queue|] == |e.waiters|;
  }

  lemma AttachKeepsIndex(e: Engine, req: Request)
    requires Indexed(e)
    ensures Indexed(Attach(e, req))
  {
    var r := Attach(e, req);
    if req.id in e.byID {
      SameShapeKeepsIndex(e, r);
    } else {
      var n := |e.waiters|;
      hide Filed;
      forall t | 0 <= t < |r.waiters|
        ensures Filed(r, t)
      {
        if t < n {
          EnqueueKeepsFiled(e, req, t);
        } else {
          NewcomerIsFiled(e, req);
        }
      }
    }
  }

  lemma ArmKeepsIndex(e: Engine, id: string, delay: int)
    requires Indexed(e)
    ensures Indexed(ArmTimer(e, id, delay))
  {
    SameShapeKeepsIndex(e, ArmTimer(e, id, delay));
  }

  lemma SameShapeKeepsIndex(e: Engine, r: Engine)
    requires Indexed(e) && Bounded(r)
    requires r.queue == e.queue && r.byID == e.byID && |r.waiters| == |e.waiters|
    requires forall t | 0 <= t < |e.waiters| :: r.waiters[t].state == e.waiters[t].state && r.waiters[t].req.id == e.waiters[t].req.id
    ensures Indexed(r)
  {
    forall t | 0 <= t < |r.waiters|
      ensures Filed(r, t)
    {
      assert Filed(e, t);
    }
  }

  /** Filing untouched, and no more timers led to than before. */
  lemma QuietKeepsIndex(e: Engine, r: Engine)
    requires Indexed(e) && SameFiling(e, r) && r.queue == e.queue && |r.timers| == |e.timers|
    requires forall id | id in r.retryTimers :: id in e.retryTimers && r.retryTimers[id] == e.retryTimers[id]
    ensures Indexed(r)
  {
    SameShapeKeepsIndex(e, r);
  }

  lemma DropTimerKeepsIndex(e: Engine, id: string)
    requires Indexed(e)
    ensures Indexed(DropTimer(e, id))
  {
    QuietKeepsIndex(e, DropTimer(e, id));
  }

  lemma DropWaiterKeepsIndex(e: Engine, id: string)
    requires Indexed(e)
    ensures Indexed(DropWaiter(e, id))
  {
    var r := DropWaiter(e, id);
    forall t | 0 <= t < |r.waiters|
      ensures Filed(r, t)
    {
      assert Filed(e, t);
    }
  }

  lemma ReleaseEntryKeepsIndex(e: Engine, id: string)
    requires Indexed(e)
    ensures Indexed(ReleaseEntry(e, id))
  {
    hide DropTimer, DropWaiter, Filed;
    DropWaiterKeepsIndex(e, id);
    DropTimerKeepsIndex(DropWaiter(e, id), id);
  }

  /** Deleting a collected waiter's id never takes a newer waiter of that id out of the index. */
  lemma CollectionRemovesOnlyTheStale(e: Engine, now: Time, grace: int)
    requires Indexed(e)
    ensures var r := GcQueued(e, now, grace);
      && (forall id :: id in r.byID <==> id in e.byID && !Stale(e.waiters[e.byID[id]], now, grace))
      && (forall id | id in r.byID :: r.byID[id] == e.byID[id])
      && (forall t | 0 <= t < |e.waiters| ::
            r.waiters[t] == if Stale(e.waiters[t], now, grace) then e.waiters[t].(state := Done) else e.waiters[t])
  {
    var r := GcQueued(e, now, grace);
    forall t | 0 <= t < |e.waiters|
      ensures Stale(e.waiters[t], now, grace) ==>
        t in e.queue && e.waiters[t].req.id in e.byID && e.byID[e.waiters[t].req.id] == t
    {
      assert Filed(e, t);
    }
    forall id | id in e.byID
      ensures id in r.byID <==> !Stale(e.waiters[e.byID[id]], now, grace)
    {
      var t := e.byID[id];
      if Stale(e.waiters[t], now, grace) {
        assert t in e.queue;
      }
    }
  }

  lemma CollectionKeepsIndex(e: Engine, now: Time, grace: int)
    requires Indexed(e)
    ensures Indexed(GcQueued(e, now, grace))
  {
    var r := GcQueued(e, now, grace);
    KeptIsStableFilter(e.waiters, e.queue, now, grace);
    CollectionRemovesOnlyTheStale(e, now, grace);
    forall i | 0 <= i < |r.queue|
      ensures r.queue[i] < |r.waiters|
    {
      assert r.queue[i] in r.queue;
    }
    forall t | 0 <= t < |r.waiters|
      ensures Filed(r, t)
    {
      assert Filed(e, t);
    }
  }

  lemma StaleInAppend(waiters: seq<WaiterView>, xs: seq<nat>, t: nat, now: Time, grace: int)
    requires t < |waiters| && forall i | 0 <= i < |xs| :: xs[i] < |waiters|
    ensures StaleIn(waiters, xs + [t], now, grace)
         == StaleIn(waiters, xs, now, grace) + if Stale(waiters[t], now, grace) then {t} else {}
    ensures KeptQueue(waiters, xs + [t], now, grace)
         == KeptQueue(waiters, xs, now, grace) + if Stale(waiters[t], now, grace) then [] else [t]
  {
    assert (xs + [t])[..|xs|] == xs;
  }

  lemma MarkOneMore(waiters: seq<WaiterView>, ts: set<nat>, t: nat)
    requires t < |waiters| && t !in ts && forall k | k in ts :: k < |waiters|
    ensures MarkDone(waiters, ts + {t}) == MarkDone(waiters, ts)[t := waiters[t].(state := Done)]
    ensures |MarkDone(waiters, ts)| == |waiters| && MarkDone(waiters, ts)[t] == waiters[t]
    ensures IdsOf(waiters, ts + {t}) == IdsOf(waiters, ts) + {waiters[t].req.id}
  {
  }

  /** What one more step of the collecting walk adds to the stale and to the kept. */
  lemma StaleOneMore(e: Engine, n: nat, now: Time, grace: int)
    requires Bounded(e) && Sorted(e.queue) && n < |e.queue|
    ensures var t := e.queue[n];
      var stale := StaleIn(e.waiters, e.queue[..n], now, grace);
      && t !in stale && (forall k | k in stale :: k < |e.waiters|)
      && StaleIn(e.waiters, e.queue[..n + 1], now, grace) == (if Stale(e.waiters[t], now, grace) then stale + {t} else stale)
      && KeptQueue(e.waiters, e.queue[..n + 1], now, grace)
         == KeptQueue(e.waiters, e.queue[..n], now, grace) + if Stale(e.waiters[t], now, grace) then [] else [t]
  {
    assert e.queue[..n + 1] == e.queue[..n] + [e.queue[n]];
    StaleInAppend(e.waiters, e.queue[..n], e.queue[n], now, grace);
  }

  lemma HeadLeavesQueue(e: Engine, t: nat)
    requires HasHead(e) && Sorted(e.queue)
    ensures t in e.queue[1..] <==> t in e.queue && t != e.queue[0]
    ensures Sorted(e.queue[1..])
  {
  }

  lemma PopKeepsIndex(e: Engine)
    requires Indexed(e) && HasHead(e) && !Head(e).state.Queued?
    ensures Indexed(PopHead(e))
  {
    var r := PopHead(e);
    forall t | 0 <= t < |r.waiters|
      ensures Filed(r, t)
    {
      assert Filed(e, t);
      HeadLeavesQueue(e, t);
    }
  }

  /** Denying deletes the index entry of the denied waiter itself, never that of a newer one. */
  lemma DenyKeepsIndex(e: Engine)
    requires Indexed(e) && QueuedHead(e)
    ensures Indexed(DenyHead(e))
    ensures Head(e).req.id in e.byID && e.byID[Head(e).req.id] == e.queue[0]
  {
    var r := DenyHead(e);
    assert Filed(e, e.queue[0]);
    forall t | 0 <= t < |r.waiters|
      ensures Filed(r, t)
    {
      assert Filed(e, t);
      HeadLeavesQueue(e, t);
    }
  }

  lemma AdmitKeepsIndex(e: Engine)
    requires Indexed(e) && QueuedHead(e)
    ensures Indexed(AdmitHead(e))
  {
    var r := AdmitHead(e);
    forall t | 0 <= t < |r.waiters|
      ensures Filed(r, t)
    {
      assert Filed(e, t);
      HeadLeavesQueue(e, t);
    }
  }

  /** The scheduling pass past its first gate is looking at a waiter that is still queued. */
  predicate PassHasHead(s: System) {
    !s.pass.phase.Idle? && !s.pass.phase.AtHead? ==> QueuedHead(s.e)
  }

  lemma PassStepKeepsIndex(p: Policy, s: System, step: Step)
    requires Indexed(s.e) && PassHasHead(s) && Enabled(s, step) && IsPassStep(step)
    ensures Indexed(Apply(p, s, step).e) && PassHasHead(Apply(p, s, step))
  {
    if step.PopStep? {
      PopKeepsIndex(s.e);
    } else if step.DenyStep? {
      DenyKeepsIndex(s.e);
    } else if step.AdmitStep? {
      AdmitKeepsIndex(s.e);
    } else if step.TrySlotStep? || step.TryLoadStep? {
      ArmKeepsIndex(s.e, Head(s.e).req.id, if step.TryLoadStep? then LOAD_RETRY else 0);
    } else if step.TryStaggerStep? {
      var e := s.e.(recent := AfterTry(p.window, s.now, Head(s.e).req, s.e.recent));
      SameShapeKeepsIndex(s.e, e);
      ArmKeepsIndex(e, Head(s.e).req.id, Hold(p.window, s.now, Head(s.e).req, s.e.recent, s.pass.builds));
    } else {
      SameShapeKeepsIndex(s.e, Apply(p, s, step).e);
    }
  }

  lemma OtherStepKeepsIndex(p: Policy, s: System, step: Step)
    requires Indexed(s.e) && PassHasHead(s) && Enabled(s, step) && !IsPassStep(step)
    ensures Indexed(Apply(p, s, step).e) && PassHasHead(Apply(p, s, step))
  {
    if step.AttachStep? {
      AttachKeepsIndex(s.e, step.req);
    } else if step.ReleaseEntryStep? {
      ReleaseEntryKeepsIndex(s.e, step.id);
    } else if step.CollectQueueStep? {
      CollectionKeepsIndex(s.e, s.now, p.grace);
    } else {
      SameShapeKeepsIndex(s.e, Apply(p, s, step).e);
    }
  }

  lemma StepKeepsIndex(p: Policy, s: System, step: Step)
    requires Indexed(s.e) && PassHasHead(s) && Enabled(s, step)
    ensures Indexed(Apply(p, s, step).e) && PassHasHead(Apply(p, s, step))
  {
    hide Apply, Enabled, Indexed, PassHasHead;
    if IsPassStep(step) {
      PassStepKeepsIndex(p, s, step);
    } else {
      OtherStepKeepsIndex(p, s, step);
    }
  }
}
