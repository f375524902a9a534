/** What the stagger gate decides, and that collecting aged records never shows. */
module StaggerLaws {
  import opened Targets
  import opened AdmissionModel

  /** Some other build, recorded or in the snapshot, overlaps `req` and is less than a window old. */
  ghost predicate HeldBack(window: int, now: Time, req: Request, recent: map<string, Record>, builds: seq<ActiveBuild>) {
    var want := Normalised(req.targets);
    || (exists k :: k in recent && k != req.id && Blocks(window, now, want, recent[k].targets, recent[k].admittedAt))
    || (exists b :: b in builds && b.id != req.id && Blocks(window, now, want, ToSet(b.targets), b.startedAt))
  }

  /** A build blocks while it is less than a window old and shares a target. */
  lemma BlocksExactly(window: int, now: Time, want: set<string>, targets: set<string>, at: Time)
    ensures Blocks(window, now, want, targets, at) <==>
      at <= now < at + window && exists t :: t in want && t in targets
  {
    if t :| t in want && t in targets {
      assert t in want * targets;
    }
  }

  lemma BlockingIsHeldBack(window: int, now: Time, req: Request, recent: map<string, Record>, builds: seq<ActiveBuild>)
    ensures HeldBack(window, now, req, recent, builds)
       <==> Blocking(window, now, req.id, Normalised(req.targets), recent, builds) != {}
  {
    var want := Normalised(req.targets);
    var rs := Blocking(window, now, req.id, want, recent, builds);
    if HeldBack(window, now, req, recent, builds) {
      if k :| k in recent && k != req.id && Blocks(window, now, want, recent[k].targets, recent[k].admittedAt) {
        assert recent[k] in BlockingRecords(window, now, req.id, want, recent);
        assert recent[k] in rs;
      } else {
        var b :| b in builds && b.id != req.id && Blocks(window, now, want, ToSet(b.targets), b.startedAt);
        assert AsRecord(b) in BlockingBuilds(window, now, req.id, want, builds);
        assert AsRecord(b) in rs;
      }
    }
    if rs != {} {
      var r :| r in rs;
      if r in BlockingRecords(window, now, req.id, want, recent) {
        var k :| k in recent && k != req.id && Blocks(window, now, want, recent[k].targets, recent[k].admittedAt);
      } else {
        var b :| b in builds && b.id != req.id && Blocks(window, now, want, ToSet(b.targets), b.startedAt);
      }
    }
  }

  lemma BlockingAges(window: int, now: Time, id: string, want: set<string>, recent: map<string, Record>,
                     builds: seq<ActiveBuild>, r: Record)
    requires r in Blocking(window, now, id, want, recent, builds)
    ensures 0 <= now - r.admittedAt < window && Overlap(want, r.targets)
  {
  }

  /** Try refuses exactly when some other young build overlaps, and then holds for a part of the window. */
  lemma RefusesExactlyWhenHeldBack(window: int, now: Time, req: Request, recent: map<string, Record>, builds: seq<ActiveBuild>)
    ensures Hold(window, now, req, recent, builds) != 0 <==> HeldBack(window, now, req, recent, builds)
    ensures Hold(window, now, req, recent, builds) != 0 ==> 0 < Hold(window, now, req, recent, builds) <= window
  {
    hide Normalised, Overlap, ToSet;
    BlockingIsHeldBack(window, now, req, recent, builds);
    var want := Normalised(req.targets);
    var rs := Blocking(window, now, req.id, want, recent, builds);
    if rs != {} {
      var r :| r in rs && r.admittedAt == LatestDate(rs);
      BlockingAges(window, now, req.id, want, recent, builds, r);
    }
  }

  /** Some other overlapping build carries a date after `from` and no later than `to`. */
  ghost predicate DatedWithin(from: Time, to: Time, req: Request, recent: map<string, Record>, builds: seq<ActiveBuild>) {
    var want := Normalised(req.targets);
    || (exists k :: k in recent && k != req.id && from < recent[k].admittedAt <= to && Overlap(want, recent[k].targets))
    || (exists b :: b in builds && b.id != req.id && from < b.startedAt <= to && Overlap(want, ToSet(b.targets)))
  }

  /** The blocking build that decides the hold keeps blocking for the whole of it. */
  lemma HeldBackThroughout(window: int, now: Time, t: Time, req: Request, recent: map<string, Record>, builds: seq<ActiveBuild>)
    requires now <= t < now + Hold(window, now, req, recent, builds)
    ensures HeldBack(window, t, req, recent, builds)
  {
    var want := Normalised(req.targets);
    var rs := Blocking(window, now, req.id, want, recent, builds);
    var r :| r in rs && r.admittedAt == LatestDate(rs);
    if r in BlockingRecords(window, now, req.id, want, recent) {
      var k :| k in recent && k != req.id && recent[k] == r && Blocks(window, now, want, r.targets, r.admittedAt);
      assert Blocks(window, t, want, recent[k].targets, recent[k].admittedAt);
    } else {
      var b :| b in builds && b.id != req.id && AsRecord(b) == r && Blocks(window, now, want, ToSet(b.targets), b.startedAt);
      assert Blocks(window, t, want, ToSet(b.targets), b.startedAt);
    }
  }

  lemma RefusedThroughout(window: int, now: Time, t: Time, req: Request, recent: map<string, Record>, builds: seq<ActiveBuild>)
    requires now <= t < now + Hold(window, now, req, recent, builds)
    ensures Hold(window, t, req, recent, builds) != 0
  {
    HeldBackThroughout(window, now, t, req, recent, builds);
    RefusesExactlyWhenHeldBack(window, t, req, recent, builds);
  }

  lemma AdmittedAtItsEnd(window: int, now: Time, req: Request, recent: map<string, Record>, builds: seq<ActiveBuild>)
    requires Hold(window, now, req, recent, builds) > 0
    ensures var end := now + Hold(window, now, req, recent, builds);
      Hold(window, end, req, recent, builds) == 0 <==> !DatedWithin(now, end, req, recent, builds)
  {
    FreeAfterHold(window, now, req, recent, builds);
    RefusesExactlyWhenHeldBack(window, now + Hold(window, now, req, recent, builds), req, recent, builds);
  }

  lemma FreeAfterHold(window: int, now: Time, req: Request, recent: map<string, Record>, builds: seq<ActiveBuild>)
    requires Hold(window, now, req, recent, builds) > 0
    ensures var h := Hold(window, now, req, recent, builds);
      HeldBack(window, now + h, req, recent, builds) <==> DatedWithin(now, now + h, req, recent, builds)
  {
    var want := Normalised(req.targets);
    var rs := Blocking(window, now, req.id, want, recent, builds);
    var h := Hold(window, now, req, recent, builds);
    RefusesExactlyWhenHeldBack(window, now, req, recent, builds);
    assert h <= window && forall x | x in rs :: x.admittedAt <= now + h - window;
    hide Hold, LatestDate, Normalised, Overlap, ToSet, Blocks;
    forall k | k in recent && k != req.id
      ensures Blocks(window, now + h, want, recent[k].targets, recent[k].admittedAt) <==>
        now < recent[k].admittedAt <= now + h && Overlap(want, recent[k].targets)
    {
      if Blocks(window, now, want, recent[k].targets, recent[k].admittedAt) {
        assert recent[k] in BlockingRecords(window, now, req.id, want, recent);
        assert recent[k] in rs;
      }
      BlocksAfterHold(window, now, h, want, recent[k]);
    }
    forall b | b in builds && b.id != req.id
      ensures Blocks(window, now + h, want, ToSet(b.targets), b.startedAt) <==>
        now < b.startedAt <= now + h && Overlap(want, ToSet(b.targets))
    {
      if Blocks(window, now, want, ToSet(b.targets), b.startedAt) {
        assert AsRecord(b) in BlockingBuilds(window, now, req.id, want, builds);
        assert AsRecord(b) in rs;
      }
      BlocksAfterHold(window, now, h, want, AsRecord(b));
    }
  }

  /** What has run out by the end of a hold blocks then exactly if it is dated within the hold. */
  lemma BlocksAfterHold(window: int, now: Time, h: int, want: set<string>, r: Record)
    requires 0 < h <= window
    requires Blocks(window, now, want, r.targets, r.admittedAt) ==> r.admittedAt <= now + h - window
    ensures Blocks(window, now + h, want, r.targets, r.admittedAt) <==> now < r.admittedAt <= now + h && Overlap(want, r.targets)
  {
    hide Overlap;
  }

  /**
   * The hold is exact: every retry before it has run out is refused, and the retry at its end is
   * admitted exactly when no other overlapping build is dated inside the hold.
   */
  lemma HoldIsTheLeastDelay(window: int, now: Time, req: Request, recent: map<string, Record>, builds: seq<ActiveBuild>)
    requires Hold(window, now, req, recent, builds) != 0
    ensures var h := Hold(window, now, req, recent, builds);
      && (forall t | now <= t < now + h :: Hold(window, t, req, recent, builds) != 0)
      && (Hold(window, now + h, req, recent, builds) == 0 <==> !DatedWithin(now, now + h, req, recent, builds))
  {
    var h := Hold(window, now, req, recent, builds);
    RefusesExactlyWhenHeldBack(window, now, req, recent, builds);
    forall t | now <= t < now + h
      ensures Hold(window, t, req, recent, builds) != 0
    {
      RefusedThroughout(window, now, t, req, recent, builds);
    }
    AdmittedAtItsEnd(window, now, req, recent, builds);
  }

  // ---- whose remainder it is ----

  /** The hold is a blocking build's remainder exactly when no blocking build is dated later. */
  lemma HoldIsTheLatestsRemainder(window: int, now: Time, req: Request, recent: map<string, Record>, builds: seq<ActiveBuild>, r: Record)
    requires r in Blocking(window, now, req.id, Normalised(req.targets), recent, builds)
    ensures Hold(window, now, req, recent, builds) == window - (now - r.admittedAt) <==>
      forall x | x in Blocking(window, now, req.id, Normalised(req.targets), recent, builds) :: x.admittedAt <= r.admittedAt
  {
    BlockingAges(window, now, req.id, Normalised(req.targets), recent, builds, r);
  }

  /** So it is the earliest one's remainder exactly when all the blocking builds have the same date. */
  lemma HoldIsTheEarliestsExactlyWhenAllAgree(window: int, now: Time, req: Request, recent: map<string, Record>,
                                              builds: seq<ActiveBuild>, r: Record)
    requires var rs := Blocking(window, now, req.id, Normalised(req.targets), recent, builds);
      r in rs && forall x | x in rs :: r.admittedAt <= x.admittedAt
    ensures Hold(window, now, req, recent, builds) == window - (now - r.admittedAt) <==>
      forall x, y | x in Blocking(window, now, req.id, Normalised(req.targets), recent, builds)
                 && y in Blocking(window, now, req.id, Normalised(req.targets), recent, builds) :: x.admittedAt == y.admittedAt
  {
    HoldIsTheLatestsRemainder(window, now, req, recent, builds, r);
  }

  /** Two builds of the same targets, admitted at 1 and at 5: at 6 a third waits out the second's window, not the first's. */
  lemma LaterOverlapProlongsTheHold(req: Request)
    requires req.id != "a" && req.id != "b" && Normalised(req.targets) != {}
    ensures var x := Normalised(req.targets);
      && Hold(10, 6, req, map["a" := Record(x, 1)], []) == 5
      && Hold(10, 6, req, map["a" := Record(x, 1), "b" := Record(x, 5)], []) == 9
  {
    var x := Normalised(req.targets);
    var one, two := map["a" := Record(x, 1)], map["a" := Record(x, 1), "b" := Record(x, 5)];
    assert Overlap(x, x);
    hide Normalised, Hold, BlockingBuilds;
    assert one["a"] in BlockingRecords(10, 6, req.id, x, one) && two["b"] in BlockingRecords(10, 6, req.id, x, two);
    assert BlockingBuilds(10, 6, req.id, x, []) == {} by {
      NoBuildsBlock(10, 6, req.id, x);
    }
    HoldIsTheLatestsRemainder(10, 6, req, one, [], one["a"]);
    HoldIsTheLatestsRemainder(10, 6, req, two, [], two["b"]);
  }

  lemma NoBuildsBlock(window: int, now: Time, id: string, want: set<string>)
    ensures BlockingBuilds(window, now, id, want, []) == {}
  {
  }

  // ---- collection is invisible ----

  /** Two record maps that hold the same records less than a window old. */
  predicate SameFresh(window: int, now: Time, r1: map<string, Record>, r2: map<string, Record>) {
    Fresh(window, now, r1) == Fresh(window, now, r2)
  }

  lemma SameFreshAt(window: int, now: Time, r1: map<string, Record>, r2: map<string, Record>, k: string)
    requires SameFresh(window, now, r1, r2)
    ensures (k in r1 && now - r1[k].admittedAt < window) <==> (k in r2 && now - r2[k].admittedAt < window)
    ensures k in r1 && now - r1[k].admittedAt < window ==> k in r2 && r1[k] == r2[k]
  {
    assert k in Fresh(window, now, r1) <==> k in Fresh(window, now, r2);
    if k in Fresh(window, now, r1) {
      assert Fresh(window, now, r1)[k] == Fresh(window, now, r2)[k];
    }
  }

  lemma SameFreshLater(window: int, now: Time, later: Time, r1: map<string, Record>, r2: map<string, Record>)
    requires SameFresh(window, now, r1, r2) && now <= later
    ensures SameFresh(window, later, r1, r2)
  {
    assert Fresh(window, later, r1) == Fresh(window, later, Fresh(window, now, r1));
    assert Fresh(window, later, r2) == Fresh(window, later, Fresh(window, now, r2));
  }

  lemma CollectingKeepsFresh(window: int, now: Time, r1: map<string, Record>, r2: map<string, Record>)
    requires SameFresh(window, now, r1, r2)
    ensures SameFresh(window, now, Fresh(window, now, r1), r2)
  {
    assert Fresh(window, now, Fresh(window, now, r1)) == Fresh(window, now, r1);
  }

  lemma FreshAfterRecording(window: int, now: Time, r: map<string, Record>, id: string, rec: Record)
    ensures Fresh(window, now, r[id := rec])
         == (Fresh(window, now, r) - {id}) + if now - rec.admittedAt < window then map[id := rec] else map[]
  {
  }

  lemma RecordingKeepsFresh(window: int, now: Time, r1: map<string, Record>, r2: map<string, Record>, id: string, rec: Record)
    requires SameFresh(window, now, r1, r2)
    ensures SameFresh(window, now, r1[id := rec], r2[id := rec])
  {
    FreshAfterRecording(window, now, r1, id, rec);
    FreshAfterRecording(window, now, r2, id, rec);
  }

  lemma SameFreshSameHold(window: int, now: Time, req: Request, r1: map<string, Record>, r2: map<string, Record>, builds: seq<ActiveBuild>)
    requires SameFresh(window, now, r1, r2)
    ensures Hold(window, now, req, r1, builds) == Hold(window, now, req, r2, builds)
  {
    var want := Normalised(req.targets);
    forall r
      ensures r in BlockingRecords(window, now, req.id, want, r1) <==> r in BlockingRecords(window, now, req.id, want, r2)
    {
      if r in BlockingRecords(window, now, req.id, want, r1) {
        var k :| k in r1 && k != req.id && r1[k] == r && Blocks(window, now, want, r.targets, r.admittedAt);
        SameFreshAt(window, now, r1, r2, k);
        assert r2[k] in BlockingRecords(window, now, req.id, want, r2);
      }
      if r in BlockingRecords(window, now, req.id, want, r2) {
        var k :| k in r2 && k != req.id && r2[k] == r && Blocks(window, now, want, r.targets, r.admittedAt);
        SameFreshAt(window, now, r1, r2, k);
        assert r1[k] in BlockingRecords(window, now, req.id, want, r1);
      }
    }
    assert BlockingRecords(window, now, req.id, want, r1) == BlockingRecords(window, now, req.id, want, r2);
  }

  datatype StaggerOp =
    | Wait(delay: nat)
    | Collect
    | Acquire(req: Request)
    | Try(req: Request, builds: seq<ActiveBuild>)

  /** The holds a sequence of gate calls returns; without `collects` no record is ever deleted. */
  ghost function Holds(window: int, now: Time, recent: map<string, Record>, ops: seq<StaggerOp>, collects: bool): seq<int>
    decreases |ops|
  {
    if ops == [] then []
    else match ops[0]
      case Wait(delay) => Holds(window, now + delay, recent, ops[1..], collects)
      case Collect => Holds(window, now, if collects then Fresh(window, now, recent) else recent, ops[1..], collects)
      case Acquire(req) =>
        Holds(window, now, recent[req.id := Record(Normalised(req.targets), now)], ops[1..], collects)
      case Try(req, builds) =>
        [Hold(window, now, req, recent, builds)]
        + Holds(window, now, if collects then AfterTry(window, now, req, recent) else recent, ops[1..], collects)
  }

  lemma {:induction false} SameFreshSameHolds(window: int, now: Time, r1: map<string, Record>, r2: map<string, Record>, ops: seq<StaggerOp>)
    requires SameFresh(window, now, r1, r2)
    ensures Holds(window, now, r1, ops, true) == Holds(window, now, r2, ops, false)
    decreases |ops|
  {
    if ops == [] {
    } else {
      match ops[0]
      case Wait(delay) =>
        SameFreshLater(window, now, now + delay, r1, r2);
        SameFreshSameHolds(window, now + delay, r1, r2, ops[1..]);
      case Collect =>
        CollectingKeepsFresh(window, now, r1, r2);
        SameFreshSameHolds(window, now, Fresh(window, now, r1), r2, ops[1..]);
      case Acquire(req) =>
        var rec := Record(Normalised(req.targets), now);
        RecordingKeepsFresh(window, now, r1, r2, req.id, rec);
        SameFreshSameHolds(window, now, r1[req.id := rec], r2[req.id := rec], ops[1..]);
      case Try(req, builds) =>
        SameFreshSameHold(window, now, req, r1, r2, builds);
        CollectingKeepsFresh(window, now, r1, r2);
        SameFreshSameHolds(window, now, AfterTry(window, now, req, r1), r2, ops[1..]);
    }
  }

  /** Deleting aged records, in Try and in the periodic collector, changes no answer of any later call. */
  lemma CollectionIsInvisible(window: int, now: Time, recent: map<string, Record>, ops: seq<StaggerOp>)
    ensures Holds(window, now, recent, ops, true) == Holds(window, now, recent, ops, false)
  {
    SameFreshSameHolds(window, now, recent, recent, ops);
  }
}
