/** The tailed stream as the broker keeps it: fields mutated event by event, finalized and reset at each restart. */
module Bep {
  import opened Wrappers
  import opened Metrics
  import opened RegistryModel
  import opened BepModel

  /** The metrics store, as the list of rows it was given. */
  class Sink {
    var persisted: seq<Persisted>

    constructor ()
      ensures persisted == []
    {
      persisted := [];
    }
  }

  /** The registry, as the list of upserts it was sent. */
  class RegistryCalls {
    var pushed: seq<Build>

    constructor ()
      ensures pushed == []
    {
      pushed := [];
    }
  }

  class Stream {
    const env: Env
    const sink: Sink
    const reg: RegistryCalls
    var row: MetricsRow?
    var command: string
    var patterns: seq<string>
    var raw: string
    var bound: bool
    var finalized: bool

    constructor (env: Env)
      ensures fresh(sink) && fresh(reg) && row == null && this.env == env
      ensures View() == EMPTY_STREAM
    {
      this.env := env;
      sink := new Sink();
      reg := new RegistryCalls();
      row, command, patterns, raw, bound, finalized := null, "", [], "", false, false;
    }

    function View(): BepModel.Stream
      reads this, row, sink, reg
    {
      BepModel.Stream(if row == null then None else Some(row.row), command, patterns, raw, bound, finalized,
                      sink.persisted, reg.pushed)
    }

    method ResetState()
      modifies this
      ensures View() == Reset(env, old(View())) && fresh(row)
    {
      row := new MetricsRow(FreshRow(env));
      raw := "";
      bound := false;
      finalized := false;
    }

    method PushCommandTargets()
      requires row != null
      modifies reg
      ensures View() == BepModel.PushCommandTargets(old(View()))
    {
      if !bound || row.row.id == "" {
        return;
      }
      if command == "" && patterns == [] {
        return;
      }
      reg.pushed := reg.pushed + [NO_BUILD.(id := row.row.id, command := command, targets := patterns)];
    }

    method BindBuild()
      requires row != null
      modifies this`bound, reg
      ensures View() == BepModel.BindBuild(env, old(View()))
    {
      if bound || row.row.id == "" {
        return;
      }
      bound := true;
      if !env.known(|reg.pushed|, row.row.id) {
        reg.pushed := reg.pushed +
          [NO_BUILD.(id := row.row.id, worktree := row.row.worktree, command := command, state := Running,
                    source := Discovered, startTime := env.clock(|reg.pushed|))];
      }
      PushCommandTargets();
    }

    method Finalize()
      modifies this`finalized, row, sink, reg
      ensures View() == BepModel.Finalize(env, old(View()))
    {
      if finalized || row == null || row.row.id == "" {
        return;
      }
      finalized := true;
      var ratio := CacheHitRatio(row.row);
      if ratio.Some? {
        row.row := row.row.(alert := env.alert(ratio.value, row.row, sink.persisted));
      }
      sink.persisted := sink.persisted + [Persisted(row.row, raw)];
      var enrich := NO_BUILD.(id := row.row.id);
      if row.row.hasFinish && !row.row.success {
        enrich := enrich.(state := Failed);
      } else {
        enrich := enrich.(state := Finished);
      }
      enrich := enrich.(exitCode := row.row.exitCode);
      if row.row.finishedAt != 0 {
        enrich := enrich.(endTime := Some(row.row.finishedAt * 1_000_000));
      } else {
        enrich := enrich.(endTime := Some(env.clock(|reg.pushed|)));
      }
      if env.profileURL.Some? {
        enrich := enrich.(profileURL := env.profileURL.value(row.row.id));
      }
      ratio := CacheHitRatio(row.row);
      if ratio.Some? {
        enrich := enrich.(cacheHitRatio := ratio);
      }
      reg.pushed := reg.pushed + [enrich];
    }

    method TakeStarted(p: Payload)
      requires row != null && p.Started?
      modifies this, row, reg
      ensures row == old(row) && View() == BepModel.TakePayload(env, old(View()), p)
    {
      row.row := row.row.(id := p.uuid);
      command := p.command;
      if p.startTime.Some? {
        row.row := row.row.(startedAt := p.startTime.value);
      } else if p.startMillis != 0 {
        row.row := row.row.(startedAt := p.startMillis);
      }
      if p.workingDirectory != "" {
        row.row := row.row.(worktree := p.workingDirectory);
        row.row := row.row.(profilePath := env.profilePath(p.workingDirectory));
      }
      hide BepModel.BindBuild;
      BindBuild();
    }

    /** The type switch over the payload. */
    method TakePayload(p: Payload)
      requires row != null
      modifies this, row, reg
      ensures row == old(row) && View() == BepModel.TakePayload(env, old(View()), p)
    {
      match p
      case Started(_, _, _, _, _) =>
        TakeStarted(p);
      case TestResult(status) =>
        row.row := row.row.(testsTotal := row.row.testsTotal + 1);
        if !status.Passed? && !status.Flaky? {
          row.row := row.row.(testsFailed := row.row.testsFailed + 1);
        }
      case MetricsReport(bm) =>
        row.ExtractMetrics(bm);
        var text := env.marshal(bm);
        if text.Some? {
          raw := text.value;
        }
      case BuildFinished(exitCode, finishTime, finishMillis) =>
        row.row := row.row.(hasFinish := true);
        row.row := row.row.(exitCode := exitCode);
        row.row := row.row.(success := row.row.exitCode == 0);
        if finishTime.Some? {
          row.row := row.row.(finishedAt := finishTime.value);
        } else if finishMillis != 0 {
          row.row := row.row.(finishedAt := finishMillis);
        }
      case OtherPayload =>
    }

    method Dispatch(ev: BuildEvent)
      modifies this, row, sink, reg
      ensures row != null && (row == old(row) || fresh(row))
      ensures View() == BepModel.Dispatch(env, old(View()), ev)
    {
      hide Reset, BepModel.Finalize, BepModel.TakePayload, BepModel.PushCommandTargets;
      ghost var s := View();
      if row == null {
        ResetState();
      }
      ghost var ready := View();
      TakePayload(ev.payload);
      ghost var taken := View();
      if ev.patterns != [] {
        patterns := ev.patterns;
        PushCommandTargets();
      }
      assert View() == TakePatterns(taken, ev.patterns);
      if ev.lastMessage {
        Finalize();
      }
    }

    method Consume(line: Line)
      modifies this, row, sink, reg
      ensures row == old(row) || fresh(row)
      ensures View() == BepModel.Consume(env, old(View()), line)
    {
      if line.None? {
        return;
      }
      Dispatch(line.value);
    }

    /** The lines one tail session delivers before it is restarted or cancelled. */
    method RunOneTail(lines: seq<Line>)
      modifies this, row, sink, reg
      ensures row == old(row) || fresh(row)
      ensures View() == Play(env, old(View()), lines)
    {
      hide BepModel.Consume;
      for i := 0 to |lines|
        invariant row == old(row) || fresh(row)
        invariant View() == Play(env, old(View()), lines[..i])
      {
        assert lines[..i + 1][..i] == lines[..i];
        Consume(lines[i]);
      }
      assert lines[..|lines|] == lines;
    }
  }

  /** watchFile: the epochs before each restart, then the lines before the watch is cancelled. */
  method WatchFile(env: Env, epochs: seq<seq<Line>>, last: seq<Line>) returns (s: Stream)
    ensures s.env == env && s.View() == Watch(env, epochs, last)
  {
    hide Play, BepModel.Finalize;
    s := new Stream(env);
    s.ResetState();
    for i := 0 to |epochs|
      invariant fresh(s) && fresh(s.sink) && fresh(s.reg) && s.row != null && fresh(s.row) && s.env == env
      invariant s.View() == Restarts(env, Reset(env, EMPTY_STREAM), epochs[..i])
    {
      assert epochs[..i + 1][..i] == epochs[..i];
      s.RunOneTail(epochs[i]);
      s.Finalize();
      s.ResetState();
    }
    assert epochs[..|epochs|] == epochs;
    s.RunOneTail(last);
    s.Finalize();
  }
}
