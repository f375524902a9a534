/** What the ingest persists and reports over a whole watch, as a function of what each epoch contained. */
module BepLaws {
  import opened Wrappers
  import opened Metrics
  import opened RegistryModel
  import opened BepModel

  // ---- what an epoch amounts to, from its lines alone ----

  /** The row without its alert, which also depends on earlier builds. */
  function Bare(row: Row): Row {
    row.(alert := "")
  }

  function RowOf(env: Env, lines: seq<Line>): Row {
    if lines == [] then FreshRow(env)
    else
      var row := RowOf(env, lines[..|lines| - 1]);
      var last := lines[|lines| - 1];
      if last.Some? then Noted(env, row, last.value.payload) else row
  }

  function RawOf(env: Env, lines: seq<Line>): string {
    if lines == [] then ""
    else
      var raw := RawOf(env, lines[..|lines| - 1]);
      var last := lines[|lines| - 1];
      if last.Some? then RawAfter(env, raw, last.value.payload) else raw
  }

  predicate Starts(line: Line) {
    line.Some? && line.value.payload.Started?
  }

  /** The id of the last BuildStarted. */
  function IdOf(lines: seq<Line>): string {
    if lines == [] then ""
    else if Starts(lines[|lines| - 1]) then lines[|lines| - 1].value.payload.uuid
    else IdOf(lines[..|lines| - 1])
  }

  predicate Binds(lines: seq<Line>) {
    exists i | 0 <= i < |lines| :: Starts(lines[i]) && lines[i].value.payload.uuid != ""
  }

  /** The stream is finalized after the first `k` lines, if it has not been before. */
  predicate Closes(lines: seq<Line>, k: nat)
    requires k <= |lines|
  {
    k > 0 && lines[k - 1].Some? && lines[k - 1].value.lastMessage && IdOf(lines[..k]) != ""
  }

  /** The length of the shortest part of the epoch that a last message closes. */
  function ClosedAt(lines: seq<Line>): (r: Option<nat>)
    ensures r.Some? ==> 0 < r.value <= |lines|
  {
    if lines == [] then None
    else
      var front := ClosedAt(lines[..|lines| - 1]);
      if front.Some? then front else if Closes(lines, |lines|) then Some(|lines|) else None
  }

  /** What an epoch adds to the persisted metrics: nothing, or one row. */
  function Yield(env: Env, lines: seq<Line>): seq<Persisted> {
    var at := ClosedAt(lines);
    if at.Some? then [Persisted(RowOf(env, lines[..at.value]), RawOf(env, lines[..at.value]))]
    else if IdOf(lines) != "" then [Persisted(RowOf(env, lines), RawOf(env, lines))]
    else []
  }

  function Yields(env: Env, epochs: seq<seq<Line>>): seq<Persisted> {
    if epochs == [] then [] else Yields(env, epochs[..|epochs| - 1]) + Yield(env, epochs[|epochs| - 1])
  }

  function BareAll(ps: seq<Persisted>): seq<Persisted> {
    seq(|ps|, i requires 0 <= i < |ps| => ps[i].(row := Bare(ps[i].row)))
  }

  // ---- facts about epochs ----

  lemma {:induction false} RowCarriesTheId(env: Env, lines: seq<Line>)
    ensures RowOf(env, lines).id == IdOf(lines) && RowOf(env, lines).alert == ""
  {
    if lines != [] {
      RowCarriesTheId(env, lines[..|lines| - 1]);
    }
  }

  lemma {:induction false} ClosedAtIsFirst(lines: seq<Line>)
    ensures ClosedAt(lines).Some? ==>
      Closes(lines, ClosedAt(lines).value) && forall j: nat | j < ClosedAt(lines).value :: !Closes(lines, j)
    ensures ClosedAt(lines).None? ==> forall j: nat | j <= |lines| :: !Closes(lines, j)
  {
    if lines != [] {
      var front := lines[..|lines| - 1];
      ClosedAtIsFirst(front);
      forall j: nat | j <= |front|
        ensures Closes(lines, j) == Closes(front, j)
      {
        assert lines[..j] == front[..j];
      }
      assert lines[..|lines|] == lines;
    }
  }

  /** An epoch yields at most one row, never one without an id, and one exactly when some id is current at a last message or at the end. */
  lemma YieldsExactlyWhen(env: Env, lines: seq<Line>)
    ensures |Yield(env, lines)| <= 1
    ensures forall p | p in Yield(env, lines) :: p.row.id != ""
    ensures |Yield(env, lines)| == 1 <==> IdOf(lines) != "" || exists k: nat | k <= |lines| :: Closes(lines, k)
  {
    ClosedAtIsFirst(lines);
    var at := ClosedAt(lines);
    RowCarriesTheId(env, if at.Some? then lines[..at.value] else lines);
  }

  /** A build that starts once, with an id, is persisted exactly once, whatever else its stream contains. */
  lemma OneStartOneRow(env: Env, lines: seq<Line>, i: nat)
    requires i < |lines| && Starts(lines[i]) && lines[i].value.payload.uuid != ""
    requires forall j | 0 <= j < |lines| && j != i :: !Starts(lines[j])
    ensures |Yield(env, lines)| == 1 && Yield(env, lines)[0].row.id == lines[i].value.payload.uuid
  {
    OnlyStartGivesId(lines, i);
    YieldsExactlyWhen(env, lines);
    ClosedAtIsFirst(lines);
    var at := ClosedAt(lines);
    if at.Some? {
      var part := lines[..at.value];
      RowCarriesTheId(env, part);
      if i < at.value {
        OnlyStartGivesId(part, i);
      } else {
        NoStartNoId(part);
      }
    } else {
      RowCarriesTheId(env, lines);
    }
  }

  lemma {:induction false} NoStartNoId(lines: seq<Line>)
    requires forall j | 0 <= j < |lines| :: !Starts(lines[j])
    ensures IdOf(lines) == ""
  {
    if lines != [] {
      NoStartNoId(lines[..|lines| - 1]);
    }
  }

  lemma {:induction false} OnlyStartGivesId(lines: seq<Line>, i: nat)
    requires i < |lines| && Starts(lines[i])
    requires forall j | 0 <= j < |lines| && j != i :: !Starts(lines[j])
    ensures IdOf(lines) == lines[i].value.payload.uuid
  {
    if i < |lines| - 1 {
      OnlyStartGivesId(lines[..|lines| - 1], i);
    }
  }

  // ---- isolation ----

  /** A stream that has just been reset, whatever it went through before. */
  predicate JustReset(env: Env, s: Stream) {
    s == Reset(env, s)
  }

  /** Where a stream stands in its epoch, seen from the lines since the reset alone. */
  ghost predicate Standing(env: Env, from: Stream, s: Stream, lines: seq<Line>) {
    && s.row.Some? && Bare(s.row.value) == RowOf(env, lines) && s.raw == RawOf(env, lines)
    && s.bound == Binds(lines) && s.finalized == ClosedAt(lines).Some?
    && |s.persisted| == |from.persisted| + (if s.finalized then 1 else 0)
    && s.persisted[..|from.persisted|] == from.persisted
    && (s.finalized ==> BareAll([s.persisted[|from.persisted|]]) == Yield(env, lines))
  }

  lemma FinalizeOutcome(env: Env, s: Stream)
    requires s.row.Some?
    ensures var r := Finalize(env, s);
      && r.row.Some? && Bare(r.row.value) == Bare(s.row.value) && r.raw == s.raw && r.bound == s.bound
      && r.finalized == (s.finalized || s.row.value.id != "")
      && r.persisted == s.persisted +
           if s.finalized || s.row.value.id == "" then [] else [Persisted(r.row.value, s.raw)]
  {
  }

  lemma TakingOutcome(env: Env, s: Stream, ev: BuildEvent)
    requires s.row.Some?
    ensures var t := TakePatterns(TakePayload(env, s, ev.payload), ev.patterns);
      && t.row == Some(Noted(env, s.row.value, ev.payload)) && t.raw == RawAfter(env, s.raw, ev.payload)
      && t.bound == (s.bound || (ev.payload.Started? && ev.payload.uuid != ""))
      && t.finalized == s.finalized && t.persisted == s.persisted
  {
  }

  lemma NotedIgnoresAlert(env: Env, row: Row, p: Payload)
    ensures Bare(Noted(env, row, p)) == Noted(env, Bare(row), p) && Noted(env, row, p).id == (if p.Started? then p.uuid else row.id)
  {
  }

  lemma BindsOneMore(lines: seq<Line>)
    requires lines != []
    ensures var last := lines[|lines| - 1];
      Binds(lines) == (Binds(lines[..|lines| - 1]) || (Starts(last) && last.value.payload.uuid != ""))
  {
    var front := lines[..|lines| - 1];
    assert forall i | 0 <= i < |front| :: front[i] == lines[i];
  }

  /** The yield of an epoch does not change once the epoch is closed. */
  lemma ClosedYieldStays(env: Env, lines: seq<Line>)
    requires lines != [] && ClosedAt(lines[..|lines| - 1]).Some?
    ensures ClosedAt(lines) == ClosedAt(lines[..|lines| - 1]) && Yield(env, lines) == Yield(env, lines[..|lines| - 1])
  {
    var front := lines[..|lines| - 1];
    var k := ClosedAt(front).value;
    assert front[..k] == lines[..k];
  }

  /**
   * Epoch isolation: after any lines the row, raw metrics, binding and finalization of a stream that was
   * reset are those of a fresh stream after the same lines, alert aside, and it has persisted accordingly.
   */
  lemma {:induction false} EpochIsolation(env: Env, s: Stream, lines: seq<Line>)
    requires JustReset(env, s)
    ensures Standing(env, s, Play(env, s, lines), lines)
  {
    if lines == [] {
      assert s.persisted[..|s.persisted|] == s.persisted;
    } else {
      var front, last := lines[..|lines| - 1], lines[|lines| - 1];
      EpochIsolation(env, s, front);
      BindsOneMore(lines);
      assert lines[..|lines|] == lines;
      StandingOneMore(env, s, Play(env, s, front), lines);
    }
  }

  lemma StandingOneMore(env: Env, from: Stream, s: Stream, lines: seq<Line>)
    requires lines != [] && Standing(env, from, s, lines[..|lines| - 1])
    ensures Standing(env, from, Consume(env, s, lines[|lines| - 1]), lines)
  {
    var front, last := lines[..|lines| - 1], lines[|lines| - 1];
    BindsOneMore(lines);
    RowCarriesTheId(env, front);
    RowCarriesTheId(env, lines);
    assert lines[..|lines|] == lines;
    if ClosedAt(front).Some? {
      ClosedYieldStays(env, lines);
    }
    if last.Some? {
      var ev := last.value;
      NotedIgnoresAlert(env, s.row.value, ev.payload);
      TakingOutcome(env, s, ev);
      var t := TakePatterns(TakePayload(env, s, ev.payload), ev.patterns);
      FinalizeOutcome(env, t);
      hide Noted, TakePayload, TakePatterns, Finalize, Yield;
      assert Consume(env, s, last) == if ev.lastMessage then Finalize(env, t) else t;
    }
  }

  // ---- whole watches ----

  lemma BareAllAppend(ps: seq<Persisted>, qs: seq<Persisted>)
    ensures BareAll(ps + qs) == BareAll(ps) + BareAll(qs)
  {
  }

  /** An epoch that is played and finalized adds exactly what it yields. */
  lemma EpochAddsItsYield(env: Env, s: Stream, lines: seq<Line>)
    requires JustReset(env, s)
    ensures BareAll(Finalize(env, Play(env, s, lines)).persisted) == BareAll(s.persisted) + Yield(env, lines)
  {
    EpochIsolation(env, s, lines);
    RowCarriesTheId(env, lines);
    var p := Play(env, s, lines);
    var f := Finalize(env, p);
    FinalizeOutcome(env, p);
    var added := f.persisted[|s.persisted|..];
    assert f.persisted == s.persisted + added;
    BareAllAppend(s.persisted, added);
    if p.finalized {
      assert added == [p.persisted[|s.persisted|]];
    }
  }

  lemma {:induction false} RestartsAddTheirYields(env: Env, s: Stream, epochs: seq<seq<Line>>)
    requires JustReset(env, s)
    ensures JustReset(env, Restarts(env, s, epochs))
    ensures BareAll(Restarts(env, s, epochs).persisted) == BareAll(s.persisted) + Yields(env, epochs)
  {
    hide Play, Finalize, Yield;
    if epochs != [] {
      var front, last := epochs[..|epochs| - 1], epochs[|epochs| - 1];
      RestartsAddTheirYields(env, s, front);
      EpochAddsItsYield(env, Restarts(env, s, front), last);
    }
  }

  /**
   * Over any restarts and a final cancellation, the metrics persisted are, alerts aside, one epoch's yield
   * after the other's: each build's row comes from its own epoch alone, none is lost and none comes twice.
   */
  lemma WatchPersistsEveryYieldOnce(env: Env, epochs: seq<seq<Line>>, last: seq<Line>)
    ensures BareAll(Watch(env, epochs, last).persisted) == Yields(env, epochs + [last])
  {
    hide Play, Finalize, Yield, Restarts;
    var s := Reset(env, EMPTY_STREAM);
    RestartsAddTheirYields(env, s, epochs);
    EpochAddsItsYield(env, Restarts(env, s, epochs), last);
    assert (epochs + [last])[..|epochs|] == epochs;
  }

  // ---- what the registry is told ----

  /** The calls that end a build. */
  function Endings(pushed: seq<Build>): seq<Build> {
    if pushed == [] then []
    else Endings(pushed[..|pushed| - 1]) + if IsTerminal(pushed[|pushed| - 1].state) then [pushed[|pushed| - 1]] else []
  }

  /** The call says of the build what its persisted row says. */
  predicate Reports(env: Env, b: Build, row: Row) {
    && b.id == row.id && b.exitCode == row.exitCode && b.cacheHitRatio == CacheHitRatio(row)
    && b.state == (if row.hasFinish && !row.success then Failed else Finished)
    && b.endTime.Some? && (row.finishedAt != 0 ==> b.endTime.value == row.finishedAt * 1_000_000)
    && b.profileURL == (if env.profileURL.Some? then env.profileURL.value(row.id) else "")
  }

  predicate EndingsMatch(env: Env, s: Stream) {
    && |Endings(s.pushed)| == |s.persisted|
    && forall i | 0 <= i < |s.persisted| :: Reports(env, Endings(s.pushed)[i], s.persisted[i].row)
  }

  lemma EndingsOneMore(pushed: seq<Build>, b: Build)
    ensures Endings(pushed + [b]) == Endings(pushed) + if IsTerminal(b.state) then [b] else []
  {
    assert (pushed + [b])[..|pushed|] == pushed;
  }

  lemma PushKeepsEndings(env: Env, s: Stream)
    requires s.row.Some? && EndingsMatch(env, s)
    ensures EndingsMatch(env, PushCommandTargets(s))
  {
    EndingsOneMore(s.pushed, CommandPush(s));
  }

  lemma TakingKeepsEndings(env: Env, s: Stream, ev: BuildEvent)
    requires s.row.Some? && EndingsMatch(env, s)
    ensures EndingsMatch(env, TakePatterns(TakePayload(env, s, ev.payload), ev.patterns))
  {
    hide EndingsMatch, PushCommandTargets, Noted;
    var noted := s.(row := Some(Noted(env, s.row.value, ev.payload)), raw := RawAfter(env, s.raw, ev.payload));
    SamePushesSameEndings(env, s, noted);
    if ev.payload.Started? {
      BindKeepsEndings(env, noted.(command := ev.payload.command), s);
    }
    var t := TakePayload(env, s, ev.payload);
    SamePushesSameEndings(env, t, t.(patterns := ev.patterns));
    PushKeepsEndings(env, t.(patterns := ev.patterns));
  }

  lemma SamePushesSameEndings(env: Env, s: Stream, r: Stream)
    requires r.pushed == s.pushed && r.persisted == s.persisted
    ensures EndingsMatch(env, r) == EndingsMatch(env, s)
  {
  }

  lemma BindKeepsEndings(env: Env, s: Stream, from: Stream)
    requires s.row.Some? && EndingsMatch(env, from) && s.pushed == from.pushed && s.persisted == from.persisted
    ensures EndingsMatch(env, BindBuild(env, s))
  {
    var b := s.(bound := true);
    EndingsOneMore(b.pushed, Stub(env, b));
    PushKeepsEndings(env, b);
    PushKeepsEndings(env, b.(pushed := b.pushed + [Stub(env, b)]));
  }

  lemma FinalizeKeepsEndings(env: Env, s: Stream)
    requires EndingsMatch(env, s)
    ensures EndingsMatch(env, Finalize(env, s))
  {
    if s.row.Some? {
      EndingsOneMore(s.pushed, EndPush(env, Alerted(env, s.row.value, s.persisted), |s.pushed|));
    }
  }

  lemma {:induction false} PlayKeepsEndings(env: Env, s: Stream, lines: seq<Line>)
    requires s.row.Some? && EndingsMatch(env, s)
    ensures Play(env, s, lines).row.Some? && EndingsMatch(env, Play(env, s, lines))
  {
    hide EndingsMatch, TakePayload, TakePatterns;
    if lines != [] {
      var last := lines[|lines| - 1];
      var m := Play(env, s, lines[..|lines| - 1]);
      PlayKeepsEndings(env, s, lines[..|lines| - 1]);
      if last.Some? {
        TakingKeepsEndings(env, m, last.value);
        FinalizeKeepsEndings(env, TakePatterns(TakePayload(env, m, last.value.payload), last.value.patterns));
      }
    }
  }

  lemma {:induction false} RestartsKeepEndings(env: Env, s: Stream, epochs: seq<seq<Line>>)
    requires s.row.Some? && EndingsMatch(env, s)
    ensures Restarts(env, s, epochs).row.Some? && EndingsMatch(env, Restarts(env, s, epochs))
  {
    hide EndingsMatch, Play, Finalize;
    if epochs != [] {
      var m := Restarts(env, s, epochs[..|epochs| - 1]);
      RestartsKeepEndings(env, s, epochs[..|epochs| - 1]);
      PlayKeepsEndings(env, m, epochs[|epochs| - 1]);
      var f := Finalize(env, Play(env, m, epochs[|epochs| - 1]));
      FinalizeKeepsEndings(env, Play(env, m, epochs[|epochs| - 1]));
      SamePushesSameEndings(env, f, Reset(env, f));
    }
  }

  /** The registry is told of an end once for each persisted row, in the same order and with its outcome. */
  lemma EveryRowEndsItsBuild(env: Env, epochs: seq<seq<Line>>, last: seq<Line>)
    ensures EndingsMatch(env, Watch(env, epochs, last))
  {
    hide Play, Finalize, Restarts;
    var s := Reset(env, EMPTY_STREAM);
    RestartsKeepEndings(env, s, epochs);
    PlayKeepsEndings(env, Restarts(env, s, epochs), last);
    FinalizeKeepsEndings(env, Play(env, Restarts(env, s, epochs), last));
  }

  // ---- what a restart does not clear ----

  /** The last target patterns among the lines. */
  function LastPatterns(lines: seq<Line>): seq<string> {
    if lines == [] then []
    else
      var last := lines[|lines| - 1];
      if last.Some? && last.value.patterns != [] then last.value.patterns else LastPatterns(lines[..|lines| - 1])
  }

  /** The last target patterns of any earlier epoch. */
  function PatternsLeft(epochs: seq<seq<Line>>): seq<string> {
    if epochs == [] then []
    else
      var own := LastPatterns(epochs[|epochs| - 1]);
      if own != [] then own else PatternsLeft(epochs[..|epochs| - 1])
  }

  lemma {:induction false} PlayedPatterns(env: Env, s: Stream, lines: seq<Line>)
    requires s.row.Some?
    ensures Play(env, s, lines).row.Some?
    ensures Play(env, s, lines).patterns == if LastPatterns(lines) != [] then LastPatterns(lines) else s.patterns
  {
    hide Dispatch;
    if lines != [] {
      var front, last := lines[..|lines| - 1], lines[|lines| - 1];
      PlayedPatterns(env, s, front);
      if last.Some? {
        DispatchedPatterns(env, Play(env, s, front), last.value);
      }
    }
  }

  lemma DispatchedPatterns(env: Env, s: Stream, ev: BuildEvent)
    requires s.row.Some?
    ensures var r := Dispatch(env, s, ev);
      r.row.Some? && r.patterns == if ev.patterns != [] then ev.patterns else s.patterns
  {
    hide Noted, RawAfter, EndPush, Alerted, Stub, CommandPush;
  }

  lemma {:induction false} RestartsKeepPatterns(env: Env, s: Stream, epochs: seq<seq<Line>>)
    requires JustReset(env, s) && s.patterns == []
    ensures JustReset(env, Restarts(env, s, epochs)) && Restarts(env, s, epochs).patterns == PatternsLeft(epochs)
  {
    hide Play;
    if epochs != [] {
      RestartsKeepPatterns(env, s, epochs[..|epochs| - 1]);
      PlayedPatterns(env, Restarts(env, s, epochs[..|epochs| - 1]), epochs[|epochs| - 1]);
    }
  }

  /**
   * The one leak between epochs: a build is filed at its start under whatever patterns earlier builds left,
   * so its first registry update is free of them exactly when no earlier epoch had any.
   */
  lemma NewBuildIsFiledUnderOldPatterns(env: Env, epochs: seq<seq<Line>>, ev: BuildEvent)
    requires ev.payload.Started? && ev.payload.uuid != "" && ev.payload.command != "" && ev.patterns == [] && !ev.lastMessage
    ensures var s := Restarts(env, Reset(env, EMPTY_STREAM), epochs);
      var r := Dispatch(env, s, ev);
      && |r.pushed| > |s.pushed|
      && r.pushed[|r.pushed| - 1] ==
           NO_BUILD.(id := ev.payload.uuid, command := ev.payload.command, targets := PatternsLeft(epochs))
      && (r.pushed[|r.pushed| - 1].targets == [] <==> forall lines | lines in epochs :: LastPatterns(lines) == [])
  {
    hide Play, Restarts;
    RestartsKeepPatterns(env, Reset(env, EMPTY_STREAM), epochs);
    NothingLeftExactly(epochs);
  }

  lemma {:induction false} NothingLeftExactly(epochs: seq<seq<Line>>)
    ensures PatternsLeft(epochs) == [] <==> forall lines | lines in epochs :: LastPatterns(lines) == []
  {
    if epochs != [] {
      var front, last := epochs[..|epochs| - 1], epochs[|epochs| - 1];
      NothingLeftExactly(front);
      assert epochs == front + [last];
      assert last in epochs && forall lines | lines in epochs :: lines in front || lines == last;
      assert forall lines | lines in front :: lines in epochs;
    }
  }
}
