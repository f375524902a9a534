/** What a scheduling pass leaves besides its admissions: the snapshot it has extended and the retry timer it has armed. */
module PassEffects {
  import opened Targets
  import opened AdmissionModel
  import opened StaggerLaws
  import opened AdmissionSystem
  import opened ScheduleSpec

  // ---- the retry timer ----

  predicate SameTimers(e: Engine, r: Engine) {
    r.timers == e.timers && r.retryTimers == e.retryTimers
  }

  /** One more timer runs, for `id` and after `delay`; the one that the id had before is stopped, all others are as they were. */
  predicate Armed(e: Engine, r: Engine, id: string, delay: int)
    requires Bounded(e)
  {
    && |r.timers| == |e.timers| + 1 && r.timers[|e.timers|] == TimerView(id, delay, true)
    && r.retryTimers == e.retryTimers[id := |e.timers|]
    && (forall h | 0 <= h < |e.timers| ::
          r.timers[h] == if id in e.retryTimers && h == e.retryTimers[id] then e.timers[h].(live := false) else e.timers[h])
  }

  /**
   * The timer that a pass from `e` to `r` leaves: none new if nobody is refused or the slots refuse, which
   * wait for a release; two seconds if the load refuses; and if the targets do, the rest of their window.
   */
  ghost predicate Retried(p: Policy, e: Engine, r: Engine, builds: seq<ActiveBuild>, now: Time)
    requires Bounded(e)
  {
    if r.queue == [] then SameTimers(e, r)
    else
      && HasHead(r)
      && var req := Head(r).req;
      if !SlotFree(p, r, req.id) then SameTimers(e, r)
      else if !LoadAdmits(p, r.cpu, r.ramP, r.recentlyAdmitted) then Armed(e, r, req.id, 2_000_000_000)
      else
        var hold := Hold(p.window, now, req, r.recent, builds);
        hold > 0 && Armed(e, r, req.id, hold)
  }

  lemma RefusedHeadIsRetried(p: Policy, reading: Clock, x: PassState)
    requires Bounded(x.e) && QueuedHead(x.e) && !x.e.draining
    requires !SlotFree(p, x.e, Head(x.e).req.id) || !LoadAdmits(p, x.e.cpu, x.e.ramP, x.e.recentlyAdmitted)
      || HeadHold(p, reading, x) != 0
    ensures var o := RunPass(p, reading, x); x.k <= o.k && Retried(p, x.e, o.e, o.builds, reading(x.k))
  {
    TriedStillRefuses(p, reading, x);
    RefusesExactlyWhenHeldBack(p.window, reading(x.k), Head(x.e).req, x.e.recent, x.builds);
    var id, hold := Head(x.e).req.id, HeadHold(p, reading, x);
    ArmTimerArms(x.e, x.e, id, LOAD_RETRY);
    if hold > 0 {
      ArmTimerArms(x.e, Tried(p, reading, x), id, hold);
    }
    hide Hold, AfterTry, Slots, LoadAdmits, Armed, ArmTimer;
  }

  lemma ArmTimerArms(e: Engine, tried: Engine, id: string, delay: int)
    requires Bounded(e) && tried == e.(recent := tried.recent) && delay > 0
    ensures var r := ArmTimer(tried, id, delay);
      Armed(e, r, id, delay) && r == tried.(timers := r.timers, retryTimers := r.retryTimers)
  {
  }

  lemma RetriedFromThere(p: Policy, e: Engine, y: Engine, r: Engine, builds: seq<ActiveBuild>, now: Time)
    requires Bounded(e) && Bounded(y) && SameTimers(e, y) && Retried(p, y, r, builds, now)
    ensures Retried(p, e, r, builds, now)
  {
    hide Hold, SlotFree, LoadAdmits;
  }

  lemma AdmitOneLeavesTimers(p: Policy, reading: Clock, x: PassState)
    requires HasHead(x.e)
    ensures var y := AdmitOne(p, reading, x); SameTimers(x.e, y.e) && x.k <= y.k && |y.e.queue| < |x.e.queue|
  {
  }

  lemma {:induction false} PassRetries(p: Policy, reading: Clock, x: PassState) returns (j: nat)
    requires Bounded(x.e)
    ensures var o := RunPass(p, reading, x); x.k <= j <= o.k && Retried(p, x.e, o.e, o.builds, reading(j))
    decreases |x.e.queue|
  {
    var e := x.e;
    j := x.k;
    if e.queue != [] {
      if !Head(e).state.Queued? || e.draining {
        var y := x.(e := if !Head(e).state.Queued? then PopHead(e) else DenyHead(e));
        j := PassRetries(p, reading, y);
        hide RunPass, Retried;
        RetriedFromThere(p, e, y.e, RunPass(p, reading, y).e, RunPass(p, reading, y).builds, reading(j));
      } else if !SlotFree(p, e, Head(e).req.id) || !LoadAdmits(p, e.cpu, e.ramP, e.recentlyAdmitted) || HeadHold(p, reading, x) != 0 {
        RefusedHeadIsRetried(p, reading, x);
      } else {
        PassGoesOn(p, reading, x);
        AdmitOneLeavesTimers(p, reading, x);
        hide AdmitOne, RunPass, Retried;
        var y := AdmitOne(p, reading, x);
        j := PassRetries(p, reading, y);
        RetriedFromThere(p, e, y.e, RunPass(p, reading, y).e, RunPass(p, reading, y).builds, reading(j));
      }
    }
  }

  /** A schedule call that is not paused leaves just the timer that its refused head needs, at a clock reading of the call. */
  lemma ScheduleRetriesExactly(p: Policy, reading: Clock, e: Engine, builds: seq<ActiveBuild>, k: nat) returns (j: nat)
    requires Bounded(e) && !e.paused
    ensures var o := Schedule(p, reading, e, builds, k); k <= j <= o.k && Retried(p, e, o.e, o.builds, reading(j))
  {
    j := PassRetries(p, reading, PassState(e, builds, k, []));
  }

  // ---- the snapshot ----

  /** The entry that a pass adds to its snapshot for a waiter it has admitted. */
  predicate EntryFor(b: ActiveBuild, req: Request) {
    b.id == req.id && b.targets == Normalised(req.targets) && b.pid == req.pid
  }

  /** Of the waiters `tickets` an entry each has been added, in that order, dated between the readings `from` and `to`. */
  ghost predicate Extended(e: Engine, reading: Clock, before: seq<ActiveBuild>, after: seq<ActiveBuild>, tickets: seq<nat>,
                           from: nat, to: nat) {
    && from <= to && |after| == |before| + |tickets| && after[..|before|] == before
    && forall i | 0 <= i < |tickets| ::
      && tickets[i] < |e.waiters| && EntryFor(after[|before| + i], e.waiters[tickets[i]].req)
      && exists j :: from <= j < to && after[|before| + i].startedAt == reading(j)
  }

  lemma ExtendedByOne(e: Engine, y: Engine, reading: Clock, builds: seq<ActiveBuild>, b: ActiveBuild, after: seq<ActiveBuild>,
                      t0: nat, ts: seq<nat>, from: nat, k: nat, to: nat)
    requires t0 < |e.waiters| && EntryFor(b, e.waiters[t0].req) && from < k && b.startedAt == reading(k - 1)
    requires SameRequests(e, y) && Extended(y, reading, builds + [b], after, ts, k, to)
    ensures Extended(e, reading, builds, after, [t0] + ts, from, to)
  {
    hide EntryFor;
    assert after[..|builds|] == after[..|builds| + 1][..|builds|] == builds;
    assert after[|builds|] == after[..|builds| + 1][|builds|] == b;
    forall i | 0 <= i < |[t0] + ts|
      ensures var t := ([t0] + ts)[i];
        && t < |e.waiters| && EntryFor(after[|builds| + i], e.waiters[t].req)
        && exists j :: from <= j < to && after[|builds| + i].startedAt == reading(j)
    {
      if i > 0 {
        assert after[|builds| + i] == after[|builds + [b]| + (i - 1)] && ([t0] + ts)[i] == ts[i - 1];
        var j :| k <= j < to && after[|builds| + i].startedAt == reading(j);
        assert from <= j < to;
      }
    }
  }

  predicate SameRequests(e: Engine, y: Engine) {
    |y.waiters| == |e.waiters| && forall t | 0 <= t < |e.waiters| :: y.waiters[t].req == e.waiters[t].req
  }

  lemma ExtendedAlike(e: Engine, y: Engine, reading: Clock, before: seq<ActiveBuild>, after: seq<ActiveBuild>, ts: seq<nat>,
                      from: nat, to: nat)
    requires SameRequests(e, y) && Extended(y, reading, before, after, ts, from, to)
    ensures Extended(e, reading, before, after, ts, from, to)
  {
    hide EntryFor;
  }

  lemma AdmitOneExtends(p: Policy, reading: Clock, x: PassState)
    requires HasHead(x.e)
    ensures var y := AdmitOne(p, reading, x);
      && SameRequests(x.e, y.e) && x.k < y.k && |y.e.queue| < |x.e.queue| && y.admitted == x.admitted + [x.e.queue[0]]
      && |y.builds| == |x.builds| + 1 && y.builds == x.builds + [y.builds[|x.builds|]]
      && EntryFor(y.builds[|x.builds|], Head(x.e).req) && y.builds[|x.builds|].startedAt == reading(y.k - 1)
  {
  }

  lemma RefusalExtendsNothing(p: Policy, reading: Clock, x: PassState)
    requires Bounded(x.e) && QueuedHead(x.e) && !x.e.draining
    requires !SlotFree(p, x.e, Head(x.e).req.id) || !LoadAdmits(p, x.e.cpu, x.e.ramP, x.e.recentlyAdmitted)
      || HeadHold(p, reading, x) != 0
    ensures var o := RunPass(p, reading, x);
      o.admitted == x.admitted && Extended(x.e, reading, x.builds, o.builds, [], x.k, o.k)
  {
    var o := RunPass(p, reading, x);
    assert o.builds == x.builds && o.k >= x.k;
  }

  lemma NothingExtended(e: Engine, reading: Clock, builds: seq<ActiveBuild>, k: nat)
    ensures Extended(e, reading, builds, builds, [], k, k)
  {
  }

  /** A pass adds to its snapshot one entry for each waiter it admits, in order, so that the next head is judged with them. */
  lemma {:induction false} PassExtends(p: Policy, reading: Clock, x: PassState) returns (ts: seq<nat>)
    requires Bounded(x.e)
    ensures var o := RunPass(p, reading, x);
      o.admitted == x.admitted + ts && Extended(x.e, reading, x.builds, o.builds, ts, x.k, o.k)
    decreases |x.e.queue|
  {
    hide Extended, AdmitOne, HeadHold, SlotFree, LoadAdmits, EntryFor;
    var e := x.e;
    ts := [];
    assert Extended(e, reading, x.builds, x.builds, [], x.k, x.k) by {
      NothingExtended(e, reading, x.builds, x.k);
    }
    if e.queue != [] {
      if !Head(e).state.Queued? || e.draining {
        var y := x.(e := if !Head(e).state.Queued? then PopHead(e) else DenyHead(e));
        ts := PassExtends(p, reading, y);
        assert SameRequests(e, y.e);
        hide RunPass, SameRequests;
        ExtendedAlike(e, y.e, reading, x.builds, RunPass(p, reading, y).builds, ts, x.k, RunPass(p, reading, y).k);
      } else if !SlotFree(p, e, Head(e).req.id) || !LoadAdmits(p, e.cpu, e.ramP, e.recentlyAdmitted) || HeadHold(p, reading, x) != 0 {
        RefusalExtendsNothing(p, reading, x);
      } else {
        PassGoesOn(p, reading, x);
        AdmitOneExtends(p, reading, x);
        hide RunPass, SameRequests;
        var y := AdmitOne(p, reading, x);
        ts := PassExtends(p, reading, y);
        var o := RunPass(p, reading, y);
        ExtendedByOne(e, y.e, reading, x.builds, y.builds[|x.builds|], o.builds, e.queue[0], ts, x.k, y.k, o.k);
        ts := [e.queue[0]] + ts;
      }
    }
  }
}
