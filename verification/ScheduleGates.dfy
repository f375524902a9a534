/**
 * Exactly whom a scheduling pass admits, told from the waiters' requests alone: the longest prefix of the
 * waiting ones that the gates accept, each with the slots, debits, records and snapshot entries of those
 * before it in place.
 */
module ScheduleGates {
  import opened Targets
  import opened AdmissionModel
  import opened AdmissionSystem
  import opened StaggerLaws
  import opened QueueIndex
  import opened ScheduleSpec
  import opened ScheduleRuns

  function Requests(e: Engine, tickets: seq<nat>): seq<Request>
    requires forall n | 0 <= n < |tickets| :: tickets[n] < |e.waiters|
  {
    seq(|tickets|, n requires 0 <= n < |tickets| => e.waiters[tickets[n]].req)
  }

  // ---- where a pass from look `k` stands when it has admitted the first `i` of `reqs` ----

  /** The clock look with which it comes to the next. */
  function LookAt(p: Policy, reqs: seq<Request>, k: nat, i: nat): nat
    requires i <= |reqs|
    decreases i
  {
    if i == 0 then k else LookAt(p, reqs[1..], AfterLook(p, reqs[0], k) + 2, i - 1)
  }

  /** The look that dates the record of the `i`-th. */
  function RecordLook(p: Policy, reqs: seq<Request>, k: nat, i: nat): nat
    requires i < |reqs|
  {
    AfterLook(p, reqs[i], LookAt(p, reqs, k, i))
  }

  /** The records taken so far on top of the earlier ones, none of them deleted. */
  function RecordsAt(p: Policy, reading: Clock, reqs: seq<Request>, recent: map<string, Record>, k: nat, i: nat): map<string, Record>
    requires i <= |reqs|
    decreases i
  {
    if i == 0 then recent
    else
      var at := AfterLook(p, reqs[0], k);
      RecordsAt(p, reading, reqs[1..], recent[reqs[0].id := Record(Normalised(reqs[0].targets), reading(at))], at + 2, i - 1)
  }

  /** The snapshot with the entries of those admitted so far. */
  function BuildsAt(p: Policy, reading: Clock, reqs: seq<Request>, builds: seq<ActiveBuild>, k: nat, i: nat): seq<ActiveBuild>
    requires i <= |reqs|
    decreases i
  {
    if i == 0 then builds
    else
      var at := AfterLook(p, reqs[0], k);
      BuildsAt(p, reading, reqs[1..], builds + [JustAdmitted(reqs[0], reading(at + 1))], at + 2, i - 1)
  }

  function EarlierIds(reqs: seq<Request>, i: nat): set<string>
    requires i <= |reqs|
  {
    set n | 0 <= n < i :: reqs[n].id
  }

  /**
   * The `i`-th of `reqs` passes the gates when the pass from `x` has admitted those before it: a slot is
   * free, or its own, with theirs taken; the load sample lets it through with a debit for each of them; and
   * no other record or snapshot entry, theirs included, holds it back at the pass's own look at the clock.
   */
  ghost predicate Accepted(p: Policy, reading: Clock, x: PassState, reqs: seq<Request>, i: nat)
    requires i < |reqs|
  {
    var req := reqs[i];
    var held := x.e.held + EarlierIds(reqs, i);
    && (req.id in held || |held| < Slots(p))
    && !(p.cpuHigh > 0.0 && x.e.cpu + (x.e.recentlyAdmitted + i) as real * 0.10 >= p.cpuHigh)
    && !(p.ramMax > 0 && x.e.ramP > p.ramMax)
    && Hold(p.window, reading(LookAt(p, reqs, x.k, i)), req, RecordsAt(p, reading, reqs, x.e.recent, x.k, i),
            BuildsAt(p, reading, reqs, x.builds, x.k, i)) == 0
  }

  // ---- the pass behind its head ----

  lemma {:induction false} SameRecordsLater(p: Policy, reading: Clock, reqs: seq<Request>, r1: map<string, Record>,
                                            r2: map<string, Record>, k: nat, i: nat)
    requires Nondecreasing(reading) && i <= |reqs| && SameFresh(p.window, reading(k), r1, r2)
    ensures k <= LookAt(p, reqs, k, i)
    ensures SameFresh(p.window, reading(LookAt(p, reqs, k, i)), RecordsAt(p, reading, reqs, r1, k, i),
                      RecordsAt(p, reading, reqs, r2, k, i))
    decreases i
  {
    hide SameFresh, Normalised;
    if i > 0 {
      var at := AfterLook(p, reqs[0], k);
      var rec := Record(Normalised(reqs[0].targets), reading(at));
      SameFreshLater(p.window, reading(k), reading(at), r1, r2);
      RecordingKeepsFresh(p.window, reading(at), r1, r2, reqs[0].id, rec);
      SameFreshLater(p.window, reading(at), reading(at + 2), r1[reqs[0].id := rec], r2[reqs[0].id := rec]);
      SameRecordsLater(p, reading, reqs[1..], r1[reqs[0].id := rec], r2[reqs[0].id := rec], at + 2, i - 1);
    }
  }

  /** What admitting the head leaves for those behind it. */
  lemma BehindTheHead(p: Policy, reading: Clock, x: PassState)
    requires Nondecreasing(reading) && HasHead(x.e)
    ensures var y, req := AdmitOne(p, reading, x), Head(x.e).req;
      var at := AfterLook(p, req, x.k);
      && y.k == at + 2 && y.builds == x.builds + [JustAdmitted(req, reading(at + 1))]
      && y.e.held == x.e.held + {req.id} && y.e.recentlyAdmitted == x.e.recentlyAdmitted + 1
      && y.e.cpu == x.e.cpu && y.e.ramP == x.e.ramP
      && SameFresh(p.window, reading(y.k), y.e.recent, x.e.recent[req.id := Record(Normalised(req.targets), reading(at))])
  {
    var y, req := AdmitOne(p, reading, x), Head(x.e).req;
    var at := AfterLook(p, req, x.k);
    var rec := Record(Normalised(req.targets), reading(at));
    var tried := AfterTry(p.window, reading(x.k), req, x.e.recent);
    assert y.e.recent == tried[req.id := rec];
    CollectingKeepsFresh(p.window, reading(x.k), x.e.recent, x.e.recent);
    assert SameFresh(p.window, reading(x.k), tried, x.e.recent);
    hide SameFresh, AfterTry, Normalised;
    SameFreshLater(p.window, reading(x.k), reading(at), tried, x.e.recent);
    RecordingKeepsFresh(p.window, reading(at), tried, x.e.recent, req.id, rec);
    SameFreshLater(p.window, reading(at), reading(y.k), tried[req.id := rec], x.e.recent[req.id := rec]);
  }

  lemma EarlierIdsBehind(req: Request, rest: seq<Request>, i: nat)
    requires i <= |rest|
    ensures EarlierIds([req] + rest, i + 1) == {req.id} + EarlierIds(rest, i)
  {
    var reqs := [req] + rest;
    forall id | id in {req.id} + EarlierIds(rest, i)
      ensures id in EarlierIds(reqs, i + 1)
    {
      if id == req.id {
        assert reqs[0].id == id;
      } else {
        var n :| 0 <= n < i && rest[n].id == id;
        assert reqs[n + 1].id == id;
      }
    }
  }

  /** Where the pass stands behind its head is where it stands with the head admitted. */
  lemma StandingBehindTheHead(p: Policy, reading: Clock, x: PassState, rest: seq<Request>, i: nat)
    requires Nondecreasing(reading) && HasHead(x.e) && i <= |rest|
    ensures var y, reqs := AdmitOne(p, reading, x), [Head(x.e).req] + rest;
      && LookAt(p, reqs, x.k, i + 1) == LookAt(p, rest, y.k, i)
      && BuildsAt(p, reading, reqs, x.builds, x.k, i + 1) == BuildsAt(p, reading, rest, y.builds, y.k, i)
      && SameFresh(p.window, reading(LookAt(p, rest, y.k, i)), RecordsAt(p, reading, rest, y.e.recent, y.k, i),
                   RecordsAt(p, reading, reqs, x.e.recent, x.k, i + 1))
      && x.e.held + EarlierIds(reqs, i + 1) == y.e.held + EarlierIds(rest, i)
  {
    hide AdmitOne, SameFresh, Normalised, LookAt, BuildsAt, RecordsAt, EarlierIds;
    var y, req := AdmitOne(p, reading, x), Head(x.e).req;
    var at := AfterLook(p, req, x.k);
    BehindTheHead(p, reading, x);
    StandingUnfolds(p, reading, req, rest, x.e.recent, x.builds, x.k, i);
    SameRecordsLater(p, reading, rest, y.e.recent, x.e.recent[req.id := Record(Normalised(req.targets), reading(at))], y.k, i);
    EarlierIdsBehind(req, rest, i);
  }

  lemma StandingUnfolds(p: Policy, reading: Clock, req: Request, rest: seq<Request>, recent: map<string, Record>,
                        builds: seq<ActiveBuild>, k: nat, i: nat)
    requires i <= |rest|
    ensures var reqs := [req] + rest;
      var at := AfterLook(p, req, k);
      && LookAt(p, reqs, k, i + 1) == LookAt(p, rest, at + 2, i)
      && BuildsAt(p, reading, reqs, builds, k, i + 1) == BuildsAt(p, reading, rest, builds + [JustAdmitted(req, reading(at + 1))], at + 2, i)
      && RecordsAt(p, reading, reqs, recent, k, i + 1)
           == RecordsAt(p, reading, rest, recent[req.id := Record(Normalised(req.targets), reading(at))], at + 2, i)
  {
    hide Normalised;
    var reqs := [req] + rest;
    assert reqs[1..] == rest && reqs[0] == req;
  }

  lemma AcceptedBehindTheHead(p: Policy, reading: Clock, x: PassState, rest: seq<Request>, i: nat)
    requires Nondecreasing(reading) && HasHead(x.e) && i < |rest|
    ensures Accepted(p, reading, x, [Head(x.e).req] + rest, i + 1) <==> Accepted(p, reading, AdmitOne(p, reading, x), rest, i)
  {
    var y, reqs := AdmitOne(p, reading, x), [Head(x.e).req] + rest;
    StandingBehindTheHead(p, reading, x, rest, i);
    BehindTheHead(p, reading, x);
    var now := reading(LookAt(p, rest, y.k, i));
    SameFreshSameHold(p.window, now, rest[i], RecordsAt(p, reading, rest, y.e.recent, y.k, i),
                      RecordsAt(p, reading, reqs, x.e.recent, x.k, i + 1), BuildsAt(p, reading, rest, y.builds, y.k, i));
    hide AdmitOne, SameFresh, Normalised, Hold, RecordsAt, BuildsAt, LookAt, LoadAdmits;
  }

  lemma HeadAcceptedExactly(p: Policy, reading: Clock, x: PassState, rest: seq<Request>)
    requires HasHead(x.e)
    ensures Accepted(p, reading, x, [Head(x.e).req] + rest, 0) <==>
      SlotFree(p, x.e, Head(x.e).req.id) && LoadAdmits(p, x.e.cpu, x.e.ramP, x.e.recentlyAdmitted) && HeadHold(p, reading, x) == 0
  {
    var reqs := [Head(x.e).req] + rest;
    assert EarlierIds(reqs, 0) == {};
    assert x.e.held + {} == x.e.held;
  }

  lemma WaitingAreKnown(e: Engine)
    requires Bounded(e)
    ensures forall m | 0 <= m < |WaitingIn(e)| :: WaitingIn(e)[m] < |e.waiters|
  {
    WaitingIsQueued(e.waiters, e.queue);
    assert forall m | 0 <= m < |WaitingIn(e)| :: WaitingIn(e)[m] in WaitingIn(e);
  }

  /** What the waiters that are still waiting ask for, in their order. */
  function WaitingRequests(e: Engine): seq<Request>
    requires Bounded(e)
  {
    WaitingAreKnown(e);
    Requests(e, WaitingIn(e))
  }

  // ---- the theorem ----

  ghost predicate AllAccepted(p: Policy, reading: Clock, x: PassState, reqs: seq<Request>, n: nat)
    requires n <= |reqs|
  {
    forall i: nat | i < n :: Accepted(p, reading, x, reqs, i)
  }

  /** From `x` to `o` the first `n` of `waiting`, who ask for `reqs`, are admitted: they are accepted, and the next is not. */
  ghost predicate AdmitsFirst(p: Policy, reading: Clock, x: PassState, o: PassState, waiting: seq<nat>, reqs: seq<Request>, n: nat) {
    && n <= |waiting| == |reqs|
    && o.admitted == x.admitted + waiting[..n]
    && AllAccepted(p, reading, x, reqs, n)
    && (n < |waiting| ==> !Accepted(p, reading, x, reqs, n))
    && x.k <= LookAt(p, reqs, x.k, n) <= o.k
    && o.builds == BuildsAt(p, reading, reqs, x.builds, x.k, n)
    && SameFresh(p.window, reading(LookAt(p, reqs, x.k, n)), o.e.recent, RecordsAt(p, reading, reqs, x.e.recent, x.k, n))
  }

  /** What a pass from `x` to `o` admits is just the first `n` of those that wait. */
  ghost predicate AdmitsExactly(p: Policy, reading: Clock, x: PassState, o: PassState, n: nat)
    requires Bounded(x.e)
  {
    AdmitsFirst(p, reading, x, o, WaitingIn(x.e), WaitingRequests(x.e), n)
  }

  lemma NobodyWaits(p: Policy, reading: Clock, x: PassState)
    requires Bounded(x.e) && x.e.queue == []
    ensures AdmitsExactly(p, reading, x, x, 0)
  {
    assert WaitingIn(x.e) == [];
    assert x.admitted + [] == x.admitted;
  }

  lemma PopAdmitsExactly(p: Policy, reading: Clock, x: PassState, o: PassState, n: nat)
    requires Bounded(x.e) && HasHead(x.e) && !Head(x.e).state.Queued?
    requires AdmitsExactly(p, reading, x.(e := PopHead(x.e)), o, n)
    ensures AdmitsExactly(p, reading, x, o, n)
  {
    var popped := PopHead(x.e);
    assert WaitingIn(x.e) == WaitingIn(popped);
    WaitingAreKnown(x.e);
    assert Requests(x.e, WaitingIn(x.e)) == Requests(popped, WaitingIn(popped));
    var reqs := Requests(x.e, WaitingIn(x.e));
    assert forall i: nat | i < |reqs| :: Accepted(p, reading, x, reqs, i) == Accepted(p, reading, x.(e := popped), reqs, i);
    hide WaitingIn, Requests, Accepted, SameFresh;
  }

  lemma RefusedHeadAdmitsExactly(p: Policy, reading: Clock, x: PassState)
    requires Nondecreasing(reading) && Bounded(x.e) && QueuedHead(x.e) && !x.e.draining
    requires !SlotFree(p, x.e, Head(x.e).req.id) || !LoadAdmits(p, x.e.cpu, x.e.ramP, x.e.recentlyAdmitted)
      || HeadHold(p, reading, x) != 0
    ensures AdmitsExactly(p, reading, x, RunPass(p, reading, x), 0)
  {
    var waiting := WaitingIn(x.e);
    WaitingAreKnown(x.e);
    assert waiting[0] == x.e.queue[0];
    var reqs := Requests(x.e, waiting);
    assert reqs == [Head(x.e).req] + reqs[1..];
    HeadAcceptedExactly(p, reading, x, reqs[1..]);
    RefusedPassAdmitsNobody(p, reading, x);
    RefusedPassKeepsRecords(p, reading, x);
    hide Accepted, RunPass, SlotFree, LoadAdmits, HeadHold, SameFresh;
    assert x.admitted + waiting[..0] == x.admitted;
  }

  lemma RefusedPassKeepsRecords(p: Policy, reading: Clock, x: PassState)
    requires Bounded(x.e) && QueuedHead(x.e) && !x.e.draining
    requires !SlotFree(p, x.e, Head(x.e).req.id) || !LoadAdmits(p, x.e.cpu, x.e.ramP, x.e.recentlyAdmitted)
      || HeadHold(p, reading, x) != 0
    ensures var o := RunPass(p, reading, x);
      o.builds == x.builds && x.k <= o.k && SameFresh(p.window, reading(x.k), o.e.recent, x.e.recent)
  {
    CollectingKeepsFresh(p.window, reading(x.k), x.e.recent, x.e.recent);
  }

  lemma AdmittedHeadAdmitsExactly(p: Policy, reading: Clock, x: PassState, o: PassState, n: nat)
    requires Nondecreasing(reading) && Indexed(x.e) && QueuedHead(x.e) && Bounded(AdmitOne(p, reading, x).e)
    requires SlotFree(p, x.e, Head(x.e).req.id) && LoadAdmits(p, x.e.cpu, x.e.ramP, x.e.recentlyAdmitted)
    requires HeadHold(p, reading, x) == 0
    requires AdmitsExactly(p, reading, AdmitOne(p, reading, x), o, n)
    ensures AdmitsExactly(p, reading, x, o, n + 1)
  {
    var y := AdmitOne(p, reading, x);
    RequestsBehindTheHead(p, reading, x);
    WaitingAreKnown(y.e);
    WaitingAreKnown(x.e);
    AdmitOneLists(p, reading, x);
    var rest := WaitingIn(y.e);
    var behind := Requests(y.e, rest);
    HeadAcceptedExactly(p, reading, x, behind);
    hide AdmitOne, Accepted, WaitingIn, Requests, SlotFree, LoadAdmits, HeadHold, Indexed, AdmitsFirst;
    HeadThenFirst(p, reading, x, o, rest, behind, n);
  }

  lemma RequestsBehindTheHead(p: Policy, reading: Clock, x: PassState)
    requires Indexed(x.e) && QueuedHead(x.e) && Bounded(AdmitOne(p, reading, x).e)
    ensures WaitingIn(x.e) == [x.e.queue[0]] + WaitingIn(AdmitOne(p, reading, x).e)
    ensures (forall m | 0 <= m < |WaitingIn(x.e)| :: WaitingIn(x.e)[m] < |x.e.waiters|)
    ensures (forall m | 0 <= m < |WaitingIn(AdmitOne(p, reading, x).e)| ::
               WaitingIn(AdmitOne(p, reading, x).e)[m] < |AdmitOne(p, reading, x).e.waiters|)
    ensures Requests(x.e, WaitingIn(x.e)) ==
      [Head(x.e).req] + Requests(AdmitOne(p, reading, x).e, WaitingIn(AdmitOne(p, reading, x).e))
  {
    var y := AdmitOne(p, reading, x);
    AdmitOneTakesTheFirstWaiting(p, reading, x);
    WaitingAreKnown(x.e);
    WaitingAreKnown(y.e);
    assert forall t | 0 <= t < |x.e.waiters| :: y.e.waiters[t].req == x.e.waiters[t].req;
    hide AdmitOne, WaitingIn;
    assert Requests(x.e, WaitingIn(x.e)) == [Head(x.e).req] + Requests(y.e, WaitingIn(y.e));
  }

  lemma HeadThenFirst(p: Policy, reading: Clock, x: PassState, o: PassState, rest: seq<nat>, behind: seq<Request>, n: nat)
    requires Nondecreasing(reading) && HasHead(x.e) && AdmitsFirst(p, reading, AdmitOne(p, reading, x), o, rest, behind, n)
    requires Accepted(p, reading, x, [Head(x.e).req] + behind, 0)
    ensures AdmitsFirst(p, reading, x, o, [x.e.queue[0]] + rest, [Head(x.e).req] + behind, n + 1)
  {
    hide AdmitOne, Accepted, AllAccepted, SameFresh, RecordsAt, BuildsAt, LookAt, EarlierIds;
    var y := AdmitOne(p, reading, x);
    var waiting, reqs := [x.e.queue[0]] + rest, [Head(x.e).req] + behind;
    AdmitOneLists(p, reading, x);
    StandingBehindTheHead(p, reading, x, behind, n);
    SameFreshChains(p.window, reading(LookAt(p, behind, y.k, n)), o.e.recent, RecordsAt(p, reading, behind, y.e.recent, y.k, n),
                    RecordsAt(p, reading, reqs, x.e.recent, x.k, n + 1));
    AllAcceptedBehindTheHead(p, reading, x, behind, n);
    if n < |behind| {
      AcceptedBehindTheHead(p, reading, x, behind, n);
    }
    assert x.admitted + waiting[..n + 1] == (x.admitted + [x.e.queue[0]]) + rest[..n];
  }

  lemma AllAcceptedBehindTheHead(p: Policy, reading: Clock, x: PassState, rest: seq<Request>, n: nat)
    requires Nondecreasing(reading) && HasHead(x.e) && n <= |rest|
    requires AllAccepted(p, reading, AdmitOne(p, reading, x), rest, n)
    requires Accepted(p, reading, x, [Head(x.e).req] + rest, 0)
    ensures AllAccepted(p, reading, x, [Head(x.e).req] + rest, n + 1)
  {
    hide AdmitOne, Accepted;
    forall i: nat | i < n + 1
      ensures Accepted(p, reading, x, [Head(x.e).req] + rest, i)
    {
      if i > 0 {
        AcceptedBehindTheHead(p, reading, x, rest, i - 1);
      }
    }
  }

  lemma SameFreshChains(window: int, now: Time, a: map<string, Record>, b: map<string, Record>, c: map<string, Record>)
    requires SameFresh(window, now, a, b) && SameFresh(window, now, b, c)
    ensures SameFresh(window, now, a, c)
  {
  }

  /** An undraining pass admits exactly the longest prefix of the waiting waiters that the gates accept in turn. */
  lemma {:induction false} PassAdmitsExactlyTheAccepted(p: Policy, reading: Clock, x: PassState) returns (n: nat)
    requires Nondecreasing(reading) && Indexed(x.e) && !x.e.draining
    ensures AdmitsExactly(p, reading, x, RunPass(p, reading, x), n)
    decreases |x.e.queue|
  {
    hide AdmitsExactly, AdmitOne, HeadHold, SlotFree, LoadAdmits;
    var e := x.e;
    n := 0;
    if e.queue == [] {
      NobodyWaits(p, reading, x);
    } else if !Head(e).state.Queued? {
      PopKeepsIndex(e);
      n := PassAdmitsExactlyTheAccepted(p, reading, x.(e := PopHead(e)));
      PopAdmitsExactly(p, reading, x, RunPass(p, reading, x), n);
    } else if !SlotFree(p, e, Head(e).req.id) || !LoadAdmits(p, e.cpu, e.ramP, e.recentlyAdmitted) || HeadHold(p, reading, x) != 0 {
      RefusedHeadAdmitsExactly(p, reading, x);
    } else {
      AdmitOneKeepsIndex(p, reading, x);
      AdmitOneLists(p, reading, x);
      var m := PassAdmitsExactlyTheAccepted(p, reading, AdmitOne(p, reading, x));
      PassGoesOn(p, reading, x);
      AdmittedHeadAdmitsExactly(p, reading, x, RunPass(p, reading, x), m);
      n := m + 1;
    }
  }

  /** A schedule call admits exactly the longest prefix of the waiting waiters that the gates accept in turn. */
  lemma ScheduleAdmitsExactlyTheAccepted(p: Policy, reading: Clock, e: Engine, builds: seq<ActiveBuild>, k: nat) returns (n: nat)
    requires Nondecreasing(reading) && Indexed(e) && !e.paused && !e.draining
    ensures AdmitsExactly(p, reading, PassState(e, builds, k, []), Schedule(p, reading, e, builds, k), n)
  {
    hide AdmitsExactly;
    var x := PassState(e, builds, k, []);
    n := PassAdmitsExactlyTheAccepted(p, reading, x);
    assert e.queue == [] ==> RunPass(p, reading, x) == x;
  }

  // ---- in one pass, overlapping builds are a window apart ----

  /** A record taken in the pass stays until another build of the same id is admitted. */
  lemma {:induction false} RecordStays(p: Policy, reading: Clock, reqs: seq<Request>, recent: map<string, Record>, k: nat, i: nat, id: string)
    requires i <= |reqs| && id in recent && forall n | 0 <= n < i :: reqs[n].id != id
    ensures id in RecordsAt(p, reading, reqs, recent, k, i) && RecordsAt(p, reading, reqs, recent, k, i)[id] == recent[id]
    decreases i
  {
    hide Normalised;
    if i > 0 {
      var at := AfterLook(p, reqs[0], k);
      var next := recent[reqs[0].id := Record(Normalised(reqs[0].targets), reading(at))];
      assert reqs[0].id != id && forall n | 0 <= n < i - 1 :: reqs[1..][n] == reqs[n + 1];
      RecordStays(p, reading, reqs[1..], next, at + 2, i - 1, id);
    }
  }

  lemma {:induction false} RecordTaken(p: Policy, reading: Clock, reqs: seq<Request>, recent: map<string, Record>, k: nat, m: nat, i: nat)
    requires m < i <= |reqs| && forall n | m < n < i :: reqs[n].id != reqs[m].id
    ensures var records := RecordsAt(p, reading, reqs, recent, k, i);
      reqs[m].id in records
      && records[reqs[m].id] == Record(Normalised(reqs[m].targets), reading(RecordLook(p, reqs, k, m)))
    decreases m
  {
    hide Normalised;
    var at := AfterLook(p, reqs[0], k);
    var next := recent[reqs[0].id := Record(Normalised(reqs[0].targets), reading(at))];
    assert forall n | 0 <= n < i - 1 :: reqs[1..][n] == reqs[n + 1];
    if m == 0 {
      RecordStays(p, reading, reqs[1..], next, at + 2, i - 1, reqs[0].id);
    } else {
      RecordTaken(p, reading, reqs[1..], next, at + 2, m - 1, i - 1);
    }
  }

  lemma {:induction false} LooksGoOn(p: Policy, reqs: seq<Request>, k: nat, m: nat, i: nat)
    requires m < i <= |reqs|
    ensures RecordLook(p, reqs, k, m) < LookAt(p, reqs, k, i)
    decreases i
  {
    hide Normalised;
    var at := AfterLook(p, reqs[0], k) + 2;
    if m > 0 {
      LooksGoOn(p, reqs[1..], at, m - 1, i - 1);
    } else {
      LooksRise(p, reqs[1..], at, i - 1);
    }
  }

  lemma {:induction false} LooksRise(p: Policy, reqs: seq<Request>, k: nat, i: nat)
    requires i <= |reqs|
    ensures k <= LookAt(p, reqs, k, i)
    decreases i
  {
    hide Normalised;
    if i > 0 {
      LooksRise(p, reqs[1..], AfterLook(p, reqs[0], k) + 2, i - 1);
    }
  }

  /** Whoever is accepted was recorded at least a window after every overlapping build that the pass admitted before. */
  lemma AcceptedIsSpaced(p: Policy, reading: Clock, x: PassState, reqs: seq<Request>, m: nat, i: nat)
    requires Nondecreasing(reading) && m < i < |reqs| && Accepted(p, reading, x, reqs, i)
    requires forall n | m < n <= i :: reqs[n].id != reqs[m].id
    requires Overlap(Normalised(reqs[m].targets), Normalised(reqs[i].targets))
    ensures reading(RecordLook(p, reqs, x.k, i)) - reading(RecordLook(p, reqs, x.k, m)) >= p.window
  {
    var look, taken := LookAt(p, reqs, x.k, i), RecordLook(p, reqs, x.k, m);
    LooksGoOn(p, reqs, x.k, m, i);
    RecordTaken(p, reading, reqs, x.e.recent, x.k, m, i);
    var records := RecordsAt(p, reading, reqs, x.e.recent, x.k, i);
    assert reading(taken) <= reading(look) <= reading(RecordLook(p, reqs, x.k, i));
    RefusesExactlyWhenHeldBack(p.window, reading(look), reqs[i], records, BuildsAt(p, reading, reqs, x.builds, x.k, i));
    hide Hold, RecordsAt, BuildsAt, LookAt, Normalised;
    assert !Blocks(p.window, reading(look), Normalised(reqs[i].targets), records[reqs[m].id].targets, records[reqs[m].id].admittedAt);
  }

  lemma WaitingIdsDiffer(e: Engine)
    requires Indexed(e)
    ensures var reqs := WaitingRequests(e); forall m, i | 0 <= m < i < |reqs| :: reqs[m].id != reqs[i].id
  {
    WaitingAreKnown(e);
    WaitingRises(e.waiters, e.queue);
    WaitingIsQueued(e.waiters, e.queue);
    var waiting := WaitingIn(e);
    forall m, i | 0 <= m < i < |waiting|
      ensures e.waiters[waiting[m]].req.id != e.waiters[waiting[i]].req.id
    {
      assert waiting[m] in waiting && waiting[i] in waiting;
      assert Filed(e, waiting[m]) && Filed(e, waiting[i]);
    }
  }

  lemma {:induction false} WaitingRises(ws: seq<WaiterView>, queue: seq<nat>)
    requires Sorted(queue) && forall i | 0 <= i < |queue| :: queue[i] < |ws|
    ensures Sorted(Waiting(ws, queue))
  {
    if queue != [] {
      WaitingRises(ws, queue[1..]);
      WaitingIsQueued(ws, queue[1..]);
      var rest := Waiting(ws, queue[1..]);
      forall i | 0 <= i < |rest|
        ensures queue[0] < rest[i]
      {
        assert rest[i] in rest && rest[i] in queue[1..];
      }
    }
  }

  /**
   * Of two waiters with overlapping targets that one schedule call admits, the second is recorded at least
   * a window after the first: a call that finds the clock still standing admits no herd.
   */
  lemma ScheduleSpacesTheAdmitted(p: Policy, reading: Clock, e: Engine, builds: seq<ActiveBuild>, k: nat, m: nat, i: nat)
    requires Nondecreasing(reading) && Indexed(e) && !e.paused && !e.draining
    requires m < i < |Schedule(p, reading, e, builds, k).admitted|
    ensures var reqs := WaitingRequests(e);
      && i < |reqs|
      && (Overlap(Normalised(reqs[m].targets), Normalised(reqs[i].targets)) ==>
            reading(RecordLook(p, reqs, k, i)) - reading(RecordLook(p, reqs, k, m)) >= p.window)
  {
    var x := PassState(e, builds, k, []);
    var n := ScheduleAdmitsExactlyTheAccepted(p, reading, e, builds, k);
    WaitingIdsDiffer(e);
    var reqs := WaitingRequests(e);
    if Overlap(Normalised(reqs[m].targets), Normalised(reqs[i].targets)) {
      AcceptedIsSpaced(p, reading, x, reqs, m, i);
    }
  }
}
