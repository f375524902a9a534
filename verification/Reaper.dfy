/** The PID reaper: the backstop that releases the slots of admitted builds whose process is dead. */
module Reaper {
  import opened AdmissionModel
  import opened QueueIndex
  import opened ScheduleSpec
  import opened AdmissionEngine

  datatype HeldSlot = HeldSlot(id: string, pid: int)

  /** The slots the reaper probes: admitted, with a known pid. */
  predicate Probed(e: AdmissionModel.Engine, h: HeldSlot)
    requires Bounded(e)
  {
    && h.id in e.byID && e.waiters[e.byID[h.id]].state.Admitted?
    && e.waiters[e.byID[h.id]].req.pid == h.pid && h.pid > 0
  }

  predicate DeadBuild(w: WaiterView, alive: int -> bool) {
    w.state.Admitted? && w.req.pid > 0 && !alive(w.req.pid)
  }

  /** The first `n` probes are done: of the waiters that were settled, just the dead among those probed are released. */
  ghost predicate Reaped(e: AdmissionModel.Engine, r: AdmissionModel.Engine, held: seq<HeldSlot>, n: nat, alive: int -> bool)
    requires Bounded(e) && n <= |held|
  {
    && |r.waiters| >= |e.waiters|
    && (forall t | 0 <= t < |e.waiters| && !e.waiters[t].state.Queued? ::
          r.waiters[t] ==
            if DeadBuild(e.waiters[t], alive) && HeldSlot(e.waiters[t].req.id, e.waiters[t].req.pid) in held[..n]
            then e.waiters[t].(state := Done) else e.waiters[t])
  }

  lemma ReleaseReapsOne(e: AdmissionModel.Engine, r: AdmissionModel.Engine, o: AdmissionModel.Engine, held: seq<HeldSlot>, n: nat,
                        alive: int -> bool)
    requires Indexed(e) && Indexed(r) && n < |held| && Reaped(e, r, held, n, alive)
    requires Probed(e, held[n]) && !alive(held[n].pid)
    requires forall i | 0 <= i < n :: held[i] != held[n]
    requires var released := ReleaseSlot(ReleaseEntry(r, held[n].id), held[n].id);
      && |o.waiters| == |released.waiters|
      && forall t | 0 <= t < |released.waiters| && !released.waiters[t].state.Queued? :: o.waiters[t] == released.waiters[t]
    ensures Reaped(e, o, held, n + 1, alive)
  {
    var id := held[n].id;
    var t0 := e.byID[id];
    assert held[n] !in held[..n];
    assert r.waiters[t0] == e.waiters[t0];
    assert Filed(r, t0);
    assert held[..n + 1] == held[..n] + [held[n]];
    var released := ReleaseSlot(ReleaseEntry(r, id), id);
    assert released.waiters == r.waiters[t0 := r.waiters[t0].(state := Done)];
    forall t | 0 <= t < |e.waiters| && !e.waiters[t].state.Queued?
      ensures o.waiters[t] ==
        if DeadBuild(e.waiters[t], alive) && HeldSlot(e.waiters[t].req.id, e.waiters[t].req.pid) in held[..n + 1]
        then e.waiters[t].(state := Done) else e.waiters[t]
    {
      assert Filed(e, t);
    }
  }

  lemma LiveProbeReapsNone(e: AdmissionModel.Engine, r: AdmissionModel.Engine, held: seq<HeldSlot>, n: nat, alive: int -> bool)
    requires Bounded(e) && n < |held| && Reaped(e, r, held, n, alive) && alive(held[n].pid)
    ensures Reaped(e, r, held, n + 1, alive)
  {
    assert held[..n + 1] == held[..n] + [held[n]];
  }

  /** The locked walk over the index that lists the slots to probe. */
  method ListHeld(engine: AdmissionEngine.Engine) returns (held: seq<HeldSlot>)
    requires engine.Valid()
    ensures Bounded(engine.View())
    ensures forall h :: h in held <==> Probed(engine.View(), h)
    ensures forall i, j | 0 <= i < j < |held| :: held[i] != held[j]
  {
    IndexedIsBounded(engine.View());
    held := [];
    var rest := engine.byID.Keys;
    while rest != {}
      invariant rest <= engine.byID.Keys
      invariant forall h :: h in held <==> Probed(engine.View(), h) && h.id !in rest
      invariant forall i, j | 0 <= i < j < |held| :: held[i] != held[j]
      decreases rest
    {
      var id :| id in rest;
      var w := engine.byID[id];
      assert engine.View().waiters[w.ticket] == w.View();
      rest := rest - {id};
      if w.state.Admitted? && w.req.pid > 0 {
        assert HeldSlot(id, w.req.pid) !in held;
        held := held + [HeldSlot(id, w.req.pid)];
      }
    }
  }

  method ReleaseDead(engine: AdmissionEngine.Engine, ghost e: AdmissionModel.Engine, held: seq<HeldSlot>, i: nat, alive: int -> bool,
                     builds: seq<ActiveBuild>)
    requires engine.Valid() && Indexed(e) && i < |held| && Reaped(e, engine.View(), held, i, alive)
    requires Probed(e, held[i]) && !alive(held[i].pid)
    requires forall j | 0 <= j < i :: held[j] != held[i]
    modifies engine, engine.created, engine.armed, engine.sem, engine.stagger, engine.clock
    ensures engine.Valid() && Reaped(e, engine.View(), held, i + 1, alive)
    ensures engine.created == old(engine.created)
    ensures |old(engine.armed)| <= |engine.armed| && engine.armed[..|old(engine.armed)|] == old(engine.armed)
    ensures forall k | |old(engine.armed)| <= k < |engine.armed| :: fresh(engine.armed[k])
  {
    hide Filed, Sorted, Reaped, Probed, WaiterViews, TimerViews, Numbered, AllKnown, TimersKnown, TicketsOf, TicketIndex, HandleIndex;
    ghost var r := engine.View();
    ghost var k := engine.clock.looks;
    engine.Release(held[i].id, builds);
    ghost var released := ReleaseSlot(ReleaseEntry(r, held[i].id), held[i].id);
    ScheduleSparesTheSettled(engine.policy, engine.clock.reading, released, builds, k);
    ReleaseReapsOne(e, r, engine.View(), held, i, alive);
  }

  /**
   * reapDeadPIDs: of the waiters that were admitted when it began, exactly those with a known and dead
   * pid are released; `snapshots` are the registry snapshots of the schedule calls in between.
   */
  method ReapDeadPids(engine: AdmissionEngine.Engine, alive: int -> bool, snapshots: nat -> seq<ActiveBuild>)
    requires engine.Valid()
    modifies engine, engine.created, engine.armed, engine.sem, engine.stagger, engine.clock
    ensures engine.Valid()
    ensures |engine.View().waiters| >= |old(engine.View()).waiters|
    ensures var e, r := old(engine.View()), engine.View();
      forall t | 0 <= t < |e.waiters| && e.waiters[t].state.Admitted? ::
        var w := e.waiters[t];
        r.waiters[t] == if w.req.pid > 0 && !alive(w.req.pid) then w.(state := Done) else w
  {
    ghost var e := engine.View();
    var held := ListHeld(engine);
    NothingReapedYet(e, held, alive);
    WalkDead(engine, e, held, alive, snapshots);
    AllReaped(e, engine.View(), held, alive);
  }

  /** The probes, one after the other, outside the lock. */
  method WalkDead(engine: AdmissionEngine.Engine, ghost e: AdmissionModel.Engine, held: seq<HeldSlot>, alive: int -> bool,
                  snapshots: nat -> seq<ActiveBuild>)
    requires engine.Valid() && Indexed(e) && Reaped(e, engine.View(), held, 0, alive)
    requires forall h | h in held :: Probed(e, h)
    requires forall i, j | 0 <= i < j < |held| :: held[i] != held[j]
    modifies engine, engine.created, engine.armed, engine.sem, engine.stagger, engine.clock
    ensures engine.Valid() && Reaped(e, engine.View(), held, |held|, alive)
  {
    hide Filed, Sorted, Reaped, Probed, WaiterViews, TimerViews, Numbered, AllKnown, TimersKnown, TicketsOf, TicketIndex, HandleIndex;
    ghost var armed := engine.armed;
    for i := 0 to |held|
      invariant engine.Valid() && engine.created == old(engine.created)
      invariant |armed| <= |engine.armed| && engine.armed[..|armed|] == armed
      invariant forall k | |armed| <= k < |engine.armed| :: fresh(engine.armed[k])
      invariant Reaped(e, engine.View(), held, i, alive)
    {
      ghost var before := engine.armed;
      ProbeOne(engine, e, held, i, alive, snapshots(i));
      assert engine.armed[..|armed|] == engine.armed[..|before|][..|armed|];
    }
  }

  /** One probe: a dead process has its slot released. */
  method ProbeOne(engine: AdmissionEngine.Engine, ghost e: AdmissionModel.Engine, held: seq<HeldSlot>, i: nat, alive: int -> bool,
                  builds: seq<ActiveBuild>)
    requires engine.Valid() && Indexed(e) && i < |held| && Reaped(e, engine.View(), held, i, alive) && Probed(e, held[i])
    requires forall j | 0 <= j < i :: held[j] != held[i]
    modifies engine, engine.created, engine.armed, engine.sem, engine.stagger, engine.clock
    ensures engine.Valid() && Reaped(e, engine.View(), held, i + 1, alive)
    ensures engine.created == old(engine.created)
    ensures |old(engine.armed)| <= |engine.armed| && engine.armed[..|old(engine.armed)|] == old(engine.armed)
    ensures forall k | |old(engine.armed)| <= k < |engine.armed| :: fresh(engine.armed[k])
  {
    hide Filed, Sorted, Reaped, Probed, AdmissionEngine.Engine.Wired, AdmissionEngine.Engine.View;
    if !alive(held[i].pid) {
      ReleaseDead(engine, e, held, i, alive, builds);
    } else {
      LiveProbeReapsNone(e, engine.View(), held, i, alive);
    }
  }

  lemma NothingReapedYet(e: AdmissionModel.Engine, held: seq<HeldSlot>, alive: int -> bool)
    requires Bounded(e)
    ensures Reaped(e, e, held, 0, alive)
  {
  }

  lemma AllReaped(e: AdmissionModel.Engine, r: AdmissionModel.Engine, held: seq<HeldSlot>, alive: int -> bool)
    requires Indexed(e) && Reaped(e, r, held, |held|, alive)
    requires forall h :: h in held <==> Probed(e, h)
    ensures forall t | 0 <= t < |e.waiters| && e.waiters[t].state.Admitted? ::
      r.waiters[t] == if DeadBuild(e.waiters[t], alive) then e.waiters[t].(state := Done) else e.waiters[t]
  {
    assert held[..|held|] == held;
    forall t | 0 <= t < |e.waiters| && DeadBuild(e.waiters[t], alive)
      ensures HeldSlot(e.waiters[t].req.id, e.waiters[t].req.pid) in held
    {
      assert Filed(e, t);
      assert Probed(e, HeldSlot(e.waiters[t].req.id, e.waiters[t].req.pid));
    }
  }
}
