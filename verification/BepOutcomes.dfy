/** What a persisted row and the registry are told, from the lines of the epoch alone. */
module BepOutcomes {
  import opened Wrappers
  import opened Metrics
  import opened RegistryModel
  import opened BepModel
  import opened BepLaws

  /** The last line whose event satisfies `p`. */
  function LastWhere(lines: seq<Line>, p: BuildEvent -> bool): (r: Option<nat>)
    ensures r.Some? ==>
      r.value < |lines| && lines[r.value].Some? && p(lines[r.value].value)
      && forall j | r.value < j < |lines| :: lines[j].None? || !p(lines[j].value)
    ensures r.None? ==> forall j | 0 <= j < |lines| :: lines[j].None? || !p(lines[j].value)
  {
    if lines == [] then None
    else if lines[|lines| - 1].Some? && p(lines[|lines| - 1].value) then Some(|lines| - 1)
    else LastWhere(lines[..|lines| - 1], p)
  }

  /** The payload of that line, if there is one. */
  function LastPayload(lines: seq<Line>, p: BuildEvent -> bool): Option<Payload> {
    var i := LastWhere(lines, p);
    if i.None? then None else Some(lines[i.value].value.payload)
  }

  lemma LastPayloadUnfolds(lines: seq<Line>, p: BuildEvent -> bool)
    requires lines != []
    ensures var last := lines[|lines| - 1];
      LastPayload(lines, p) ==
        if last.Some? && p(last.value) then Some(last.value.payload) else LastPayload(lines[..|lines| - 1], p)
  {
  }

  // ---- the outcome ----

  predicate Finishes(ev: BuildEvent) {
    ev.payload.BuildFinished?
  }

  /** The code of the last finish event. */
  function FinishCode(lines: seq<Line>): Option<int> {
    match LastPayload(lines, Finishes)
    case Some(BuildFinished(code, _, _)) => Some(code)
    case _ => None
  }

  /** The row has finished with the last code, and successfully if that is 0. */
  lemma {:induction false} RowTellsTheOutcome(env: Env, lines: seq<Line>)
    ensures var row, code := RowOf(env, lines), FinishCode(lines);
      && (row.hasFinish <==> code.Some?)
      && (code.Some? ==> row.exitCode == code.value && (row.success <==> code.value == 0))
      && (code.None? ==> row.exitCode == 0 && !row.success)
  {
    if lines != [] {
      RowTellsTheOutcome(env, lines[..|lines| - 1]);
      LastPayloadUnfolds(lines, Finishes);
      hide LastPayload, RowOf, Summarised;
      RowUnfolds(env, lines);
    }
  }

  lemma RowUnfolds(env: Env, lines: seq<Line>)
    requires lines != []
    ensures var row, last := RowOf(env, lines[..|lines| - 1]), lines[|lines| - 1];
      RowOf(env, lines) == if last.Some? then Noted(env, row, last.value.payload) else row
  {
  }

  // ---- tests ----

  function TestLines(lines: seq<Line>): set<nat> {
    set i: nat | i < |lines| && lines[i].Some? && lines[i].value.payload.TestResult?
  }

  /** A flaky test counts as passed. */
  function FailedTestLines(lines: seq<Line>): set<nat> {
    set i: nat | i < |lines| && lines[i].Some? && lines[i].value.payload.TestResult?
                 && lines[i].value.payload.status != Passed && lines[i].value.payload.status != Flaky
  }

  predicate IsTest(line: Line) {
    line.Some? && line.value.payload.TestResult?
  }

  predicate IsFailedTest(line: Line) {
    IsTest(line) && line.value.payload.status != Passed && line.value.payload.status != Flaky
  }

  lemma TestLinesUnfold(lines: seq<Line>)
    requires lines != []
    ensures var front, last := lines[..|lines| - 1], lines[|lines| - 1];
      && |TestLines(lines)| == |TestLines(front)| + (if IsTest(last) then 1 else 0)
      && |FailedTestLines(lines)| == |FailedTestLines(front)| + (if IsFailedTest(last) then 1 else 0)
  {
    var n, last := |lines| - 1, lines[|lines| - 1];
    assert TestLines(lines) == TestLines(lines[..n]) + if IsTest(last) then {n} else {};
    assert FailedTestLines(lines) == FailedTestLines(lines[..n]) + if IsFailedTest(last) then {n} else {};
  }

  lemma NotedTests(env: Env, row: Row, ev: BuildEvent)
    ensures var r := Noted(env, row, ev.payload);
      && r.testsTotal == row.testsTotal + (if IsTest(Some(ev)) then 1 else 0)
      && r.testsFailed == row.testsFailed + (if IsFailedTest(Some(ev)) then 1 else 0)
  {
  }

  /** The row counts the test results and those among them that failed. */
  lemma {:induction false} RowCountsTheTests(env: Env, lines: seq<Line>)
    ensures var row := RowOf(env, lines);
      row.testsTotal == |TestLines(lines)| && row.testsFailed == |FailedTestLines(lines)|
  {
    if lines == [] {
      assert TestLines(lines) == {} && FailedTestLines(lines) == {};
    } else {
      var n, last := |lines| - 1, lines[|lines| - 1];
      RowCountsTheTests(env, lines[..n]);
      TestLinesUnfold(lines);
      if last.Some? {
        NotedTests(env, RowOf(env, lines[..n]), last.value);
      }
      hide TestLines, FailedTestLines, RowOf, Noted;
      RowUnfolds(env, lines);
    }
  }

  // ---- dates and place ----

  predicate StartDated(ev: BuildEvent) {
    ev.payload.Started? && (ev.payload.startTime.Some? || ev.payload.startMillis != 0)
  }

  predicate FinishDated(ev: BuildEvent) {
    ev.payload.BuildFinished? && (ev.payload.finishTime.Some? || ev.payload.finishMillis != 0)
  }

  predicate Placed(ev: BuildEvent) {
    ev.payload.Started? && ev.payload.workingDirectory != ""
  }

  function StartDate(lines: seq<Line>): int {
    match LastPayload(lines, StartDated)
    case Some(Started(_, _, time, millis, _)) => if time.Some? then time.value else millis
    case _ => 0
  }

  function FinishDate(lines: seq<Line>): int {
    match LastPayload(lines, FinishDated)
    case Some(BuildFinished(_, time, millis)) => if time.Some? then time.value else millis
    case _ => 0
  }

  function Place(env: Env, lines: seq<Line>): string {
    match LastPayload(lines, Placed)
    case Some(Started(_, _, _, _, directory)) => directory
    case _ => env.worktree
  }

  lemma NotedDatesAndPlace(env: Env, row: Row, ev: BuildEvent)
    ensures var r, p := Noted(env, row, ev.payload), ev.payload;
      && r.startedAt == (if StartDated(ev) then (if p.startTime.Some? then p.startTime.value else p.startMillis) else row.startedAt)
      && r.finishedAt == (if FinishDated(ev) then (if p.finishTime.Some? then p.finishTime.value else p.finishMillis) else row.finishedAt)
      && r.worktree == (if Placed(ev) then p.workingDirectory else row.worktree)
      && r.profilePath == (if Placed(ev) then env.profilePath(p.workingDirectory) else row.profilePath)
      && r.bepPath == row.bepPath
  {
  }

  /** The row's dates are the last ones given, a timestamp before the older field; 0 without any. */
  lemma {:induction false} RowTellsTheDates(env: Env, lines: seq<Line>)
    ensures RowOf(env, lines).startedAt == StartDate(lines) && RowOf(env, lines).finishedAt == FinishDate(lines)
  {
    if lines != [] {
      var front, last := lines[..|lines| - 1], lines[|lines| - 1];
      RowTellsTheDates(env, front);
      LastPayloadUnfolds(lines, StartDated);
      LastPayloadUnfolds(lines, FinishDated);
      if last.Some? {
        NotedDatesAndPlace(env, RowOf(env, front), last.value);
      }
      hide LastPayload, RowOf, Noted;
      RowUnfolds(env, lines);
    }
  }

  /** Its worktree is the last working directory given, the registry's without any, and its profile lies there. */
  lemma {:induction false} RowTellsThePlace(env: Env, lines: seq<Line>)
    ensures var row := RowOf(env, lines);
      row.worktree == Place(env, lines) && row.profilePath == env.profilePath(Place(env, lines)) && row.bepPath == env.path
  {
    if lines != [] {
      var front, last := lines[..|lines| - 1], lines[|lines| - 1];
      RowTellsThePlace(env, front);
      LastPayloadUnfolds(lines, Placed);
      if last.Some? {
        NotedDatesAndPlace(env, RowOf(env, front), last.value);
      }
      hide LastPayload, RowOf, Noted;
      RowUnfolds(env, lines);
    }
  }

  // ---- metrics ----

  predicate Summarises(ev: BuildEvent) {
    ev.payload.MetricsReport? && ev.payload.metrics.summary.Some?
  }

  predicate Times(ev: BuildEvent) {
    ev.payload.MetricsReport? && ev.payload.metrics.timing.Some?
  }

  predicate CountsTargets(ev: BuildEvent) {
    ev.payload.MetricsReport? && ev.payload.metrics.targetsConfigured.Some?
  }

  predicate CountsPackages(ev: BuildEvent) {
    ev.payload.MetricsReport? && ev.payload.metrics.packagesLoaded.Some?
  }

  predicate MeasuresHeap(ev: BuildEvent) {
    ev.payload.MetricsReport? && ev.payload.metrics.peakHeap.Some?
  }

  predicate IsReport(ev: BuildEvent) {
    ev.payload.MetricsReport?
  }

  /** The row carries what the last action summary says: its counts, and the runners' sums by kind. */
  predicate TellsSummary(row: Row, s: ActionSummary) {
    && row.actionsCreated == s.created && row.actionsExecuted == s.executed
    && row.runnerCounts == s.runners && row.mnemonics == s.actions
    && row.diskCacheHits == SumOf(s.runners, name => name == "disk cache hit")
    && row.remoteCacheHits == SumOf(s.runners, name => name == "remote cache hit")
    && row.executedRunners == SumOf(s.runners, name => name !in {"total", "internal", "disk cache hit"})
    && row.processesTotal ==
         (if LastTotal(s.runners) > 0 then LastTotal(s.runners) else SumOf(s.runners, name => name != "total"))
  }

  lemma {:induction false} SumsAgree(rs: seq<RunnerCount>, p: string -> bool, q: string -> bool)
    requires forall name :: p(name) == q(name)
    ensures SumOf(rs, p) == SumOf(rs, q)
  {
    if rs != [] {
      SumsAgree(rs[..|rs| - 1], p, q);
    }
  }

  lemma SummarisedTells(row: Row, s: ActionSummary)
    ensures TellsSummary(Summarised(row, s), s)
  {
    SumsAgree(s.runners, name => name == DISK_CACHE, name => name == "disk cache hit");
    SumsAgree(s.runners, name => name == REMOTE_CACHE, name => name == "remote cache hit");
    SumsAgree(s.runners, IsExecuted, name => name !in {"total", "internal", "disk cache hit"});
    SumsAgree(s.runners, name => name != TOTAL, name => name != "total");
  }

  /** Nothing but another summary touches what a summary said. */
  predicate SameSummary(a: Row, b: Row) {
    && b.actionsCreated == a.actionsCreated && b.actionsExecuted == a.actionsExecuted
    && b.runnerCounts == a.runnerCounts && b.mnemonics == a.mnemonics
    && b.diskCacheHits == a.diskCacheHits && b.remoteCacheHits == a.remoteCacheHits
    && b.executedRunners == a.executedRunners && b.processesTotal == a.processesTotal
  }

  lemma NotedSummary(env: Env, row: Row, p: Payload)
    ensures var r := Noted(env, row, p);
      if p.MetricsReport? && p.metrics.summary.Some? then TellsSummary(r, p.metrics.summary.value) else SameSummary(row, r)
  {
    if p.MetricsReport? && p.metrics.summary.Some? {
      SummarisedTells(row.(hasMetrics := true), p.metrics.summary.value);
      hide Summarised;
    }
  }

  /** The summary's fields are those of the last report that has a summary; all 0 without one. */
  lemma {:induction false} RowTellsTheSummary(env: Env, lines: seq<Line>)
    ensures match LastPayload(lines, Summarises)
      case Some(MetricsReport(bm)) => bm.summary.Some? && TellsSummary(RowOf(env, lines), bm.summary.value)
      case _ => SameSummary(FreshRow(env), RowOf(env, lines))
  {
    if lines != [] {
      RowTellsTheSummary(env, lines[..|lines| - 1]);
      LastPayloadUnfolds(lines, Summarises);
      var last := lines[|lines| - 1];
      if last.Some? {
        NotedSummary(env, RowOf(env, lines[..|lines| - 1]), last.value.payload);
      }
      hide LastPayload, RowOf, Noted;
      RowUnfolds(env, lines);
    }
  }

  function LastReport(lines: seq<Line>, p: BuildEvent -> bool): Option<BuildMetrics> {
    match LastPayload(lines, p)
    case Some(MetricsReport(bm)) => Some(bm)
    case _ => None
  }

  lemma LastReportUnfolds(lines: seq<Line>, p: BuildEvent -> bool)
    requires lines != [] && forall ev | p(ev) :: IsReport(ev)
    ensures var last := lines[|lines| - 1];
      LastReport(lines, p) ==
        if last.Some? && IsReport(last.value) && p(last.value) then Some(last.value.payload.metrics) else LastReport(lines[..|lines| - 1], p)
  {
    LastPayloadUnfolds(lines, p);
  }

  lemma NotedMetrics(env: Env, row: Row, ev: BuildEvent)
    ensures var r, p := Noted(env, row, ev.payload), ev.payload;
      && r.hasMetrics == (row.hasMetrics || IsReport(ev))
      && r.timing == (if Times(ev) then p.metrics.timing.value else row.timing)
      && r.targetsConfigured == (if CountsTargets(ev) then p.metrics.targetsConfigured.value else row.targetsConfigured)
      && r.packagesLoaded == (if CountsPackages(ev) then p.metrics.packagesLoaded.value else row.packagesLoaded)
      && r.peakHeap == (if MeasuresHeap(ev) then p.metrics.peakHeap.value else row.peakHeap)
  {
  }

  /** The timing is that of the last report that has one, 0 without one. */
  lemma {:induction false} RowTellsTheTiming(env: Env, lines: seq<Line>)
    ensures var row, bm := RowOf(env, lines), LastReport(lines, Times);
      && (row.hasMetrics <==> LastReport(lines, IsReport).Some?)
      && (if bm.Some? then bm.value.timing == Some(row.timing) else row.timing == Timing(0, 0, 0, 0))
  {
    if lines != [] {
      var front, last := lines[..|lines| - 1], lines[|lines| - 1];
      RowTellsTheTiming(env, front);
      LastReportUnfolds(lines, IsReport);
      LastReportUnfolds(lines, Times);
      if last.Some? {
        NotedMetrics(env, RowOf(env, front), last.value);
      }
      hide LastReport, RowOf, Noted;
      RowUnfolds(env, lines);
    }
  }

  /** The other metrics are each those of the last report that has them, 0 without one. */
  lemma {:induction false} RowTellsTheSizes(env: Env, lines: seq<Line>)
    ensures var row := RowOf(env, lines);
      var targets, packages, heap := LastReport(lines, CountsTargets), LastReport(lines, CountsPackages), LastReport(lines, MeasuresHeap);
      && (if targets.Some? then targets.value.targetsConfigured == Some(row.targetsConfigured) else row.targetsConfigured == 0)
      && (if packages.Some? then packages.value.packagesLoaded == Some(row.packagesLoaded) else row.packagesLoaded == 0)
      && (if heap.Some? then heap.value.peakHeap == Some(row.peakHeap) else row.peakHeap == 0)
  {
    if lines != [] {
      var front, last := lines[..|lines| - 1], lines[|lines| - 1];
      RowTellsTheSizes(env, front);
      LastReportUnfolds(lines, CountsTargets);
      LastReportUnfolds(lines, CountsPackages);
      LastReportUnfolds(lines, MeasuresHeap);
      if last.Some? {
        NotedMetrics(env, RowOf(env, front), last.value);
      }
      hide LastReport, RowOf, Noted;
      RowUnfolds(env, lines);
    }
  }

  predicate Prints(env: Env, ev: BuildEvent) {
    ev.payload.MetricsReport? && env.marshal(ev.payload.metrics).Some?
  }

  /** The raw text is that of the last report that could be printed, empty without one. */
  lemma {:induction false} RawIsTheLastReports(env: Env, lines: seq<Line>)
    ensures var bm := LastReport(lines, ev => Prints(env, ev));
      if bm.Some? then env.marshal(bm.value) == Some(RawOf(env, lines)) else RawOf(env, lines) == ""
  {
    if lines != [] {
      RawIsTheLastReports(env, lines[..|lines| - 1]);
      LastReportUnfolds(lines, ev => Prints(env, ev));
    }
  }

  // ---- the first sight of a build ----

  /** A build that the registry does not know is first sent as a running, discovered one in its worktree. */
  lemma UnknownBuildIsStubbed(env: Env, s: Stream, ev: BuildEvent)
    requires JustReset(env, s) && ev.payload.Started? && ev.payload.uuid != "" && !env.known(|s.pushed|, ev.payload.uuid)
    ensures var r := Dispatch(env, s, ev);
      && |r.pushed| > |s.pushed| && r.pushed[..|s.pushed|] == s.pushed
      && var stub := r.pushed[|s.pushed|];
      && stub.id == ev.payload.uuid && stub.command == ev.payload.command && stub.state == Running && stub.source == Discovered
      && stub.worktree == (if ev.payload.workingDirectory != "" then ev.payload.workingDirectory else env.worktree)
      && stub.pid == 0 && stub.targets == [] && stub.endTime == None && stub.startTime == env.clock(|s.pushed|)
  {
  }

  /** A start files its build under its command and the patterns known by then. */
  lemma StartFilesItsCommand(env: Env, s: Stream, ev: BuildEvent)
    requires JustReset(env, s) && ev.payload.Started? && ev.payload.uuid != "" && !ev.lastMessage
    requires ev.payload.command != "" || ev.patterns != [] || s.patterns != []
    ensures var r := Dispatch(env, s, ev);
      && r.pushed != []
      && r.pushed[|r.pushed| - 1] ==
        NO_BUILD.(id := ev.payload.uuid, command := ev.payload.command,
                  targets := if ev.patterns != [] then ev.patterns else s.patterns)
  {
  }

  /** Patterns that come for a build under way are filed at once, with its command. */
  lemma LatePatternsAreFiled(env: Env, s: Stream, ev: BuildEvent)
    requires s.row.Some? && s.bound && s.row.value.id != ""
    requires !ev.payload.Started? && ev.patterns != [] && !ev.lastMessage
    ensures Dispatch(env, s, ev).pushed == s.pushed + [NO_BUILD.(id := s.row.value.id, command := s.command, targets := ev.patterns)]
  {
    assert Noted(env, s.row.value, ev.payload).id == s.row.value.id;
    hide Noted, RawAfter;
  }

  // ---- whole watches ----

  /** The part of an epoch that its row stands for: up to the last message that closes it, else all of it. */
  function YieldPart(lines: seq<Line>): seq<seq<Line>> {
    var at := ClosedAt(lines);
    if at.Some? then [lines[..at.value]] else if IdOf(lines) != "" then [lines] else []
  }

  function YieldParts(epochs: seq<seq<Line>>): seq<seq<Line>> {
    if epochs == [] then [] else YieldParts(epochs[..|epochs| - 1]) + YieldPart(epochs[|epochs| - 1])
  }

  lemma {:induction false} YieldsTellTheirParts(env: Env, epochs: seq<seq<Line>>)
    ensures var ps, parts := Yields(env, epochs), YieldParts(epochs);
      |ps| == |parts| && forall i | 0 <= i < |ps| :: ps[i] == Persisted(RowOf(env, parts[i]), RawOf(env, parts[i]))
  {
    if epochs != [] {
      YieldsTellTheirParts(env, epochs[..|epochs| - 1]);
      hide RowOf, RawOf, ClosedAt, IdOf;
    }
  }

  /**
   * Of every build that a watch persists, the row and the call that ends it in the registry tell the outcome
   * of that build's own part of the stream: its id, the code of its last finish event, failed exactly for a
   * code other than 0, and its tests.
   */
  lemma WatchTellsEveryOutcome(env: Env, epochs: seq<seq<Line>>, last: seq<Line>, i: nat)
    requires i < |Watch(env, epochs, last).persisted|
    ensures var s, parts := Watch(env, epochs, last), YieldParts(epochs + [last]);
      && |parts| == |s.persisted| == |Endings(s.pushed)|
      && var row, end, part := s.persisted[i].row, Endings(s.pushed)[i], parts[i];
      && var code := FinishCode(part);
      && row.id == end.id == IdOf(part) && row.id != ""
      && row.exitCode == end.exitCode == (if code.Some? then code.value else 0)
      && (row.success <==> code == Some(0))
      && (end.state == Failed <==> code.Some? && code.value != 0)
      && (end.state == Finished <==> code.None? || code.value == 0)
      && row.testsTotal == |TestLines(part)| && row.testsFailed == |FailedTestLines(part)|
      && s.persisted[i].raw == RawOf(env, part)
  {
    var s, parts := Watch(env, epochs, last), YieldParts(epochs + [last]);
    WatchPersistsEveryYieldOnce(env, epochs, last);
    YieldsTellTheirParts(env, epochs + [last]);
    EveryRowEndsItsBuild(env, epochs, last);
    hide Watch, Yields, YieldParts, RowOf, RawOf, Endings;
    var p := s.persisted[i];
    assert BareAll(s.persisted)[i] == p.(row := Bare(p.row)) == Persisted(RowOf(env, parts[i]), RawOf(env, parts[i]));
    RowTellsTheOutcome(env, parts[i]);
    RowCountsTheTests(env, parts[i]);
    RowCarriesTheId(env, parts[i]);
    PartsHaveIds(epochs + [last]);
  }

  lemma {:induction false} PartsHaveIds(epochs: seq<seq<Line>>)
    ensures forall i | 0 <= i < |YieldParts(epochs)| :: IdOf(YieldParts(epochs)[i]) != ""
  {
    if epochs != [] {
      PartsHaveIds(epochs[..|epochs| - 1]);
      ClosedAtIsFirst(epochs[|epochs| - 1]);
    }
  }

  // ---- alerts ----

  /** The alert that a row carries is judged from its own cache hits against the metrics persisted before it. */
  predicate Judged(env: Env, row: Row, history: seq<Persisted>) {
    var hits, all := row.diskCacheHits, row.diskCacheHits + row.executedRunners;
    row.alert == if all > 0 then env.alert(hits as real / all as real, row.(alert := ""), history) else ""
  }

  predicate AlertsJudged(env: Env, s: Stream) {
    && (forall i | 0 <= i < |s.persisted| :: Judged(env, s.persisted[i].row, s.persisted[..i]))
    && (s.row.Some? && !s.finalized ==> s.row.value.alert == "")
  }

  lemma FinalizeJudges(env: Env, s: Stream)
    requires AlertsJudged(env, s)
    ensures AlertsJudged(env, Finalize(env, s))
  {
    var r := Finalize(env, s);
    forall i | 0 <= i < |r.persisted|
      ensures Judged(env, r.persisted[i].row, r.persisted[..i])
    {
      if i < |s.persisted| {
        assert r.persisted[..i] == s.persisted[..i];
      } else {
        assert r.persisted[..i] == s.persisted && Bare(r.persisted[i].row) == s.row.value;
      }
    }
  }

  lemma TakingKeepsAlerts(env: Env, s: Stream, ev: BuildEvent)
    requires AlertsJudged(env, s) && s.row.Some?
    ensures AlertsJudged(env, TakePatterns(TakePayload(env, s, ev.payload), ev.patterns))
  {
    assert Noted(env, s.row.value, ev.payload).alert == s.row.value.alert;
    hide Noted, RawAfter, Stub, CommandPush, Judged;
  }

  lemma {:induction false} PlayKeepsAlerts(env: Env, s: Stream, lines: seq<Line>)
    requires AlertsJudged(env, s)
    ensures AlertsJudged(env, Play(env, s, lines))
  {
    hide AlertsJudged, TakePatterns, TakePayload, Finalize, Reset;
    if lines != [] {
      var m, last := Play(env, s, lines[..|lines| - 1]), lines[|lines| - 1];
      PlayKeepsAlerts(env, s, lines[..|lines| - 1]);
      if last.Some? {
        var ready := if m.row.None? then Reset(env, m) else m;
        ResetKeepsAlerts(env, m);
        TakingKeepsAlerts(env, ready, last.value);
        FinalizeJudges(env, TakePatterns(TakePayload(env, ready, last.value.payload), last.value.patterns));
      }
    }
  }

  lemma ResetKeepsAlerts(env: Env, s: Stream)
    requires AlertsJudged(env, s)
    ensures AlertsJudged(env, Reset(env, s)) && Reset(env, s).row.Some?
  {
    hide Judged;
  }

  lemma {:induction false} RestartsKeepAlerts(env: Env, s: Stream, epochs: seq<seq<Line>>)
    requires AlertsJudged(env, s)
    ensures AlertsJudged(env, Restarts(env, s, epochs))
  {
    hide AlertsJudged, Play, Finalize, Reset;
    if epochs != [] {
      var m, last := Restarts(env, s, epochs[..|epochs| - 1]), epochs[|epochs| - 1];
      RestartsKeepAlerts(env, s, epochs[..|epochs| - 1]);
      PlayKeepsAlerts(env, m, last);
      FinalizeJudges(env, Play(env, m, last));
      ResetKeepsAlerts(env, Finalize(env, Play(env, m, last)));
    }
  }

  /** Over a whole watch, every row's alert is judged once, against exactly the rows persisted before it. */
  lemma EveryAlertIsJudged(env: Env, epochs: seq<seq<Line>>, last: seq<Line>)
    ensures var ps := Watch(env, epochs, last).persisted;
      forall i | 0 <= i < |ps| :: Judged(env, ps[i].row, ps[..i])
  {
    hide Judged, Play, Restarts, Finalize;
    var s := Reset(env, EMPTY_STREAM);
    RestartsKeepAlerts(env, s, epochs);
    PlayKeepsAlerts(env, Restarts(env, s, epochs), last);
    FinalizeJudges(env, Play(env, Restarts(env, s, epochs), last));
  }
}
