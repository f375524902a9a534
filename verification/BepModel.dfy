/** The accumulation state of one tailed build-event stream, and each of its operations as a function. */
module BepModel {
  import opened Wrappers
  import opened Metrics
  import opened RegistryModel

  datatype TestStatus = Passed | Flaky | NotPassed

  /** `startTime` and `finishTime` are None when the timestamp is absent; the older fields are then used if not 0. */
  datatype Payload =
    | Started(uuid: string, command: string, startTime: Option<int>, startMillis: int, workingDirectory: string)
    | TestResult(status: TestStatus)
    | MetricsReport(metrics: BuildMetrics)
    | BuildFinished(exitCode: int, finishTime: Option<int>, finishMillis: int)
    | OtherPayload

  datatype BuildEvent = BuildEvent(payload: Payload, patterns: seq<string>, lastMessage: bool)

  /** One line of the file; None when it is blank or does not parse. */
  type Line = Option<BuildEvent>

  datatype Persisted = Persisted(row: Row, raw: string)

  /**
   * What surrounds the stream: its path and worktree; the profile path convention; protobuf printing; the
   * low-hit alert, from the ratio, the row and the metrics persisted so far; what the registry knows and the
   * clock says, each by how many registry calls were made before.
   */
  datatype Env = Env(
    path: string, worktree: string, profilePath: string -> string, marshal: BuildMetrics -> Option<string>,
    alert: (real, Row, seq<Persisted>) -> string, known: (nat, string) -> bool, clock: nat -> Time,
    profileURL: Option<string -> string>)

  datatype Stream = Stream(
    row: Option<Row>, command: string, patterns: seq<string>, raw: string, bound: bool, finalized: bool,
    persisted: seq<Persisted>, pushed: seq<Build>)

  const EMPTY_STREAM := Stream(None, "", [], "", false, false, [], [])

  function FreshRow(env: Env): Row {
    NewRow(env.path, env.worktree, env.profilePath(env.worktree))
  }

  /** The verb and the target patterns stay as they are. */
  function Reset(env: Env, s: Stream): Stream {
    s.(row := Some(FreshRow(env)), raw := "", bound := false, finalized := false)
  }

  /** What a payload does to the row. */
  function Noted(env: Env, row: Row, p: Payload): Row {
    match p
    case Started(uuid, _, startTime, startMillis, wd) =>
      row.(id := uuid,
           startedAt := if startTime.Some? then startTime.value else if startMillis != 0 then startMillis else row.startedAt,
           worktree := if wd != "" then wd else row.worktree,
           profilePath := if wd != "" then env.profilePath(wd) else row.profilePath)
    case TestResult(status) =>
      row.(testsTotal := row.testsTotal + 1, testsFailed := row.testsFailed + if status.NotPassed? then 1 else 0)
    case MetricsReport(bm) => Extracted(row, bm)
    case BuildFinished(exitCode, finishTime, finishMillis) =>
      row.(hasFinish := true, exitCode := exitCode, success := exitCode == 0,
           finishedAt := if finishTime.Some? then finishTime.value else if finishMillis != 0 then finishMillis else row.finishedAt)
    case OtherPayload => row
  }

  function RawAfter(env: Env, raw: string, p: Payload): string {
    if p.MetricsReport? && env.marshal(p.metrics).Some? then env.marshal(p.metrics).value else raw
  }

  function CommandPush(s: Stream): Build
    requires s.row.Some?
  {
    NO_BUILD.(id := s.row.value.id, command := s.command, targets := s.patterns)
  }

  function PushCommandTargets(s: Stream): Stream
    requires s.row.Some?
  {
    if !s.bound || s.row.value.id == "" || (s.command == "" && s.patterns == []) then s
    else s.(pushed := s.pushed + [CommandPush(s)])
  }

  function Stub(env: Env, s: Stream): Build
    requires s.row.Some?
  {
    NO_BUILD.(id := s.row.value.id, worktree := s.row.value.worktree, command := s.command, state := Running,
             source := Discovered, startTime := env.clock(|s.pushed|))
  }

  function BindBuild(env: Env, s: Stream): Stream
    requires s.row.Some?
  {
    if s.bound || s.row.value.id == "" then s
    else
      var b := s.(bound := true);
      PushCommandTargets(if env.known(|b.pushed|, b.row.value.id) then b else b.(pushed := b.pushed + [Stub(env, b)]))
  }

  /** What the registry is told when the stream has ended: finished, or failed with a non-zero exit code. */
  function EndPush(env: Env, row: Row, k: nat): Build {
    NO_BUILD.(id := row.id,
             state := if row.hasFinish && !row.success then Failed else Finished,
             exitCode := row.exitCode,
             endTime := Some(if row.finishedAt != 0 then row.finishedAt * 1_000_000 else env.clock(k)),
             profileURL := if env.profileURL.Some? then env.profileURL.value(row.id) else "",
             cacheHitRatio := CacheHitRatio(row))
  }

  function Alerted(env: Env, row: Row, history: seq<Persisted>): Row {
    var ratio := CacheHitRatio(row);
    if ratio.Some? then row.(alert := env.alert(ratio.value, row, history)) else row
  }

  function Finalize(env: Env, s: Stream): Stream {
    if s.finalized || s.row.None? || s.row.value.id == "" then s
    else
      var row := Alerted(env, s.row.value, s.persisted);
      s.(finalized := true, row := Some(row),
         persisted := s.persisted + [Persisted(row, s.raw)],
         pushed := s.pushed + [EndPush(env, row, |s.pushed|)])
  }

  function TakePayload(env: Env, s: Stream, p: Payload): (r: Stream)
    requires s.row.Some?
    ensures r.row.Some?
  {
    var noted := s.(row := Some(Noted(env, s.row.value, p)), raw := RawAfter(env, s.raw, p));
    if p.Started? then BindBuild(env, noted.(command := p.command)) else noted
  }

  function TakePatterns(s: Stream, patterns: seq<string>): (r: Stream)
    requires s.row.Some?
    ensures r.row == s.row
  {
    if patterns == [] then s else PushCommandTargets(s.(patterns := patterns))
  }

  function Dispatch(env: Env, s: Stream, ev: BuildEvent): Stream {
    var ready := if s.row.None? then Reset(env, s) else s;
    var taken := TakePatterns(TakePayload(env, ready, ev.payload), ev.patterns);
    if ev.lastMessage then Finalize(env, taken) else taken
  }

  function Consume(env: Env, s: Stream, line: Line): Stream {
    if line.None? then s else Dispatch(env, s, line.value)
  }

  /** The stream after a run of lines. */
  function Play(env: Env, s: Stream, lines: seq<Line>): Stream {
    if lines == [] then s else Consume(env, Play(env, s, lines[..|lines| - 1]), lines[|lines| - 1])
  }

  /**
   * A whole watch: each epoch is what was read between two restarts, the last one what was read before the
   * watch was cancelled.
   */
  function Restarts(env: Env, s: Stream, epochs: seq<seq<Line>>): Stream {
    if epochs == [] then s
    else Reset(env, Finalize(env, Play(env, Restarts(env, s, epochs[..|epochs| - 1]), epochs[|epochs| - 1])))
  }

  function Watch(env: Env, epochs: seq<seq<Line>>, last: seq<Line>): Stream {
    Finalize(env, Play(env, Restarts(env, Reset(env, EMPTY_STREAM), epochs), last))
  }
}
