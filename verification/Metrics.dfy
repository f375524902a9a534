/** The metrics row of one build, and how a BuildMetrics event fills it. */
module Metrics {
  import opened Wrappers

  datatype RunnerCount = RunnerCount(name: string, execKind: string, count: int)

  datatype Mnemonic = Mnemonic(mnemonic: string, created: int, executed: int, systemMs: int, userMs: int)

  datatype ActionSummary = ActionSummary(created: int, executed: int, runners: seq<RunnerCount>, actions: seq<Mnemonic>)

  datatype Timing = Timing(wallMs: int, cpuMs: int, analysisMs: int, execMs: int)

  /** A BuildMetrics message; None for a sub-message that is absent. */
  datatype BuildMetrics = BuildMetrics(
    summary: Option<ActionSummary>, timing: Option<Timing>, targetsConfigured: Option<int>,
    packagesLoaded: Option<int>, peakHeap: Option<int>)

  datatype Row = Row(
    id: string, worktree: string, bepPath: string, profilePath: string,
    startedAt: int, finishedAt: int, exitCode: int, success: bool, hasFinish: bool,
    actionsCreated: int, actionsExecuted: int, diskCacheHits: int, remoteCacheHits: int, executedRunners: int,
    processesTotal: int, runnerCounts: seq<RunnerCount>, mnemonics: seq<Mnemonic>, timing: Timing,
    targetsConfigured: int, packagesLoaded: int, peakHeap: int, testsTotal: nat, testsFailed: nat,
    alert: string, hasMetrics: bool)

  function NewRow(bepPath: string, worktree: string, profilePath: string): Row {
    Row("", worktree, bepPath, profilePath, 0, 0, 0, false, false, 0, 0, 0, 0, 0, 0, [], [], Timing(0, 0, 0, 0),
        0, 0, 0, 0, 0, "", false)
  }

  const TOTAL := "total"
  const INTERNAL := "internal"
  const DISK_CACHE := "disk cache hit"
  const REMOTE_CACHE := "remote cache hit"

  /** The runners that count as executed: remote-cache hits do, disk-cache hits do not. */
  predicate IsExecuted(name: string) {
    name != TOTAL && name != INTERNAL && name != DISK_CACHE
  }

  /** The sum of the counts of the runners whose name satisfies `p`. */
  function SumOf(rs: seq<RunnerCount>, p: string -> bool): int {
    if rs == [] then 0
    else SumOf(rs[..|rs| - 1], p) + if p(rs[|rs| - 1].name) then rs[|rs| - 1].count else 0
  }

  /** The count of the last "total" runner, 0 without one. */
  function LastTotal(rs: seq<RunnerCount>): int {
    if rs == [] then 0 else if rs[|rs| - 1].name == TOTAL then rs[|rs| - 1].count else LastTotal(rs[..|rs| - 1])
  }

  function DiskHits(rs: seq<RunnerCount>): int {
    SumOf(rs, name => name == DISK_CACHE)
  }

  function RemoteHits(rs: seq<RunnerCount>): int {
    SumOf(rs, name => name == REMOTE_CACHE)
  }

  function Executed(rs: seq<RunnerCount>): int {
    SumOf(rs, IsExecuted)
  }

  function NotTotal(rs: seq<RunnerCount>): int {
    SumOf(rs, name => name != TOTAL)
  }

  function Summarised(row: Row, s: ActionSummary): Row {
    row.(actionsCreated := s.created, actionsExecuted := s.executed, runnerCounts := s.runners, mnemonics := s.actions,
         diskCacheHits := DiskHits(s.runners), remoteCacheHits := RemoteHits(s.runners), executedRunners := Executed(s.runners),
         processesTotal := if LastTotal(s.runners) > 0 then LastTotal(s.runners) else NotTotal(s.runners))
  }

  function Extracted(row: Row, bm: BuildMetrics): Row {
    var r := row.(hasMetrics := true);
    var r := if bm.summary.Some? then Summarised(r, bm.summary.value) else r;
    r.(timing := if bm.timing.Some? then bm.timing.value else r.timing,
       targetsConfigured := if bm.targetsConfigured.Some? then bm.targetsConfigured.value else r.targetsConfigured,
       packagesLoaded := if bm.packagesLoaded.Some? then bm.packagesLoaded.value else r.packagesLoaded,
       peakHeap := if bm.peakHeap.Some? then bm.peakHeap.value else r.peakHeap)
  }

  /** Disk hits over disk hits plus executed runners; None when there is nothing to divide by. */
  function CacheHitRatio(row: Row): Option<real> {
    var denom := row.diskCacheHits + row.executedRunners;
    if denom <= 0 then None else Some(row.diskCacheHits as real / denom as real)
  }

  // ---- laws ----

  /** Every runner but the total is a disk hit, executed or internal, and remote hits are among the executed. */
  lemma {:induction false} RunnersAreAccountedFor(rs: seq<RunnerCount>)
    ensures NotTotal(rs) == DiskHits(rs) + Executed(rs) + SumOf(rs, name => name == INTERNAL)
    ensures (forall r | r in rs :: r.count >= 0) ==> DiskHits(rs) >= 0 && 0 <= RemoteHits(rs) <= Executed(rs)
  {
    if rs != [] {
      RunnersAreAccountedFor(rs[..|rs| - 1]);
    }
  }

  /** With counts as Bazel sends them the ratio is the hits' share of what was cacheable, between 0 and 1, and there is none just when nothing was cacheable. */
  lemma RatioIsAProportion(row: Row, s: ActionSummary)
    requires forall r | r in s.runners :: r.count >= 0
    ensures var ratio := CacheHitRatio(Summarised(row, s));
      && (ratio.None? <==> DiskHits(s.runners) == 0 && Executed(s.runners) == 0)
      && (ratio.Some? ==> 0.0 <= ratio.value <= 1.0)
      && (ratio.Some? ==>
            ratio.value * (DiskHits(s.runners) + Executed(s.runners)) as real == DiskHits(s.runners) as real)
      && (ratio.Some? ==> (ratio.value == 1.0 <==> Executed(s.runners) == 0) && (ratio.value == 0.0 <==> DiskHits(s.runners) == 0))
  {
    RunnersAreAccountedFor(s.runners);
    var hits, denom := DiskHits(s.runners) as real, (DiskHits(s.runners) + Executed(s.runners)) as real;
    if denom > 0.0 {
      QuotientBounds(hits, denom);
    }
  }

  lemma QuotientBounds(a: real, b: real)
    requires 0.0 <= a <= b && b > 0.0
    ensures (a / b) * b == a && 0.0 <= a / b <= 1.0 && (a / b == 1.0 <==> a == b) && (a / b == 0.0 <==> a == 0.0)
  {
    assert (a / b) * b == a;
  }

  /** Extracting the same message again changes nothing. */
  lemma ExtractionIsIdempotent(row: Row, bm: BuildMetrics)
    ensures Extracted(Extracted(row, bm), bm) == Extracted(row, bm)
  {
  }

  // ---- the code ----

  class MetricsRow {
    var row: Row

    constructor (row: Row)
      ensures this.row == row
    {
      this.row := row;
    }

    method CountRunners(rs: seq<RunnerCount>)
      modifies this
      ensures row == old(row).(runnerCounts := rs, diskCacheHits := DiskHits(rs), remoteCacheHits := RemoteHits(rs),
                               executedRunners := Executed(rs),
                               processesTotal := if LastTotal(rs) > 0 then LastTotal(rs) else NotTotal(rs))
    {
      row := row.(runnerCounts := []);
      var diskHits, remoteHits, executed, total, sumAll := 0, 0, 0, 0, 0;
      for i := 0 to |rs|
        invariant row == old(row).(runnerCounts := rs[..i])
        invariant diskHits == DiskHits(rs[..i]) && remoteHits == RemoteHits(rs[..i]) && executed == Executed(rs[..i])
        invariant total == LastTotal(rs[..i]) && sumAll == NotTotal(rs[..i])
      {
        var rc := rs[i];
        assert rs[..i + 1][..i] == rs[..i];
        row := row.(runnerCounts := row.runnerCounts + [rc]);
        if rc.name == TOTAL {
          total := rc.count;
        } else if rc.name == INTERNAL {
        } else if rc.name == DISK_CACHE {
          diskHits := diskHits + rc.count;
        } else if rc.name == REMOTE_CACHE {
          remoteHits := remoteHits + rc.count;
          executed := executed + rc.count;
        } else {
          executed := executed + rc.count;
        }
        if rc.name != TOTAL {
          sumAll := sumAll + rc.count;
        }
      }
      assert rs[..|rs|] == rs;
      row := row.(diskCacheHits := diskHits, remoteCacheHits := remoteHits, executedRunners := executed);
      if total > 0 {
        row := row.(processesTotal := total);
      } else {
        row := row.(processesTotal := sumAll);
      }
    }

    method ExtractMetrics(bm: BuildMetrics)
      modifies this
      ensures row == Extracted(old(row), bm)
    {
      row := row.(hasMetrics := true);
      if bm.summary.Some? {
        var s := bm.summary.value;
        row := row.(actionsCreated := s.created, actionsExecuted := s.executed);
        CountRunners(s.runners);
        row := row.(mnemonics := s.actions);
      }
      if bm.timing.Some? {
        row := row.(timing := bm.timing.value);
      }
      if bm.targetsConfigured.Some? {
        row := row.(targetsConfigured := bm.targetsConfigured.value);
      }
      if bm.packagesLoaded.Some? {
        row := row.(packagesLoaded := bm.packagesLoaded.value);
      }
      if bm.peakHeap.Some? {
        row := row.(peakHeap := bm.peakHeap.value);
      }
    }
  }
}
