/** What every sequence of registry mutations keeps. */
module RegistryLaws {
  import opened Wrappers
  import opened RegistryModel
  import Summary

  predicate KeyedById(m: Builds) {
    forall k | k in m :: m[k].id == k
  }

  predicate UniquePids(m: Builds) {
    forall j, k | j in m && k in m && j != k :: m[j].pid == 0 || m[j].pid != m[k].pid
  }

  /** Every key of the form pid-N is the key of a record of process N. */
  ghost predicate PidKeyed(m: Builds) {
    forall n: int :: PidKey(n) in m ==> m[PidKey(n)].pid == n
  }

  /** What a record that has ended keeps. */
  predicate SameEnd(a: Build, b: Build) {
    b.state == a.state && b.exitCode == a.exitCode && b.endTime == a.endTime
  }

  // ---- ends ----

  /** The states from which a build does not come back are these four. */
  lemma TerminalExactly(s: State)
    ensures IsTerminal(s) <==> s in {Finished, Failed, Killed, Gone}
  {
  }

  /** The build is known and in none of the four states that end it. */
  predicate EndsLive(m: Builds, id: string) {
    id != "" && id in m && m[id].state !in {Finished, Failed, Killed, Gone}
  }

  lemma EndsExactly(m: Builds, id: string)
    ensures Ends(m, id) <==> EndsLive(m, id)
  {
    if id in m {
      TerminalExactly(m[id].state);
    }
  }

  /** Ending a known live build by its exit code: finished for 0 and failed otherwise, and nothing else changes. */
  lemma DeregisterEndsByExitCode(m: Builds, id: string, exitCode: int, now: Time)
    ensures Deregister(m, id, exitCode, now) ==
      if EndsLive(m, id)
      then m[id := m[id].(state := if exitCode == 0 then Finished else Failed, exitCode := exitCode, endTime := Some(now))]
      else m
  {
    EndsExactly(m, id);
  }

  /** What a merge does to one field: an offer that is given replaces what was there. */
  predicate Takes<T(==)>(given: bool, offered: T, before: T, after: T) {
    after == if given then offered else before
  }

  /**
   * A registration names the worktree, takes what else it is given, keeps the rest, counts as registered
   * unless told otherwise, and is running unless it has ended.
   */
  lemma RegisterMerges(m: Builds, b: Build, now: Time)
    requires b.id != "" && b.worktree != ""
    ensures var r := Register(m, b, now);
      var before := if b.id in m then m[b.id] else NewBuild(b.id, now, NoSource, Unset);
      && r.Keys == m.Keys + {b.id} && (forall k | k in m && k != b.id :: r[k] == m[k])
      && var after := r[b.id];
      && after.worktree == b.worktree
      && Takes(|b.targets| > 0, b.targets, before.targets, after.targets)
      && Takes(b.pid != 0, b.pid, before.pid, after.pid)
      && after.source == (if b.source != NoSource then b.source else if before.source != NoSource then before.source else Registered)
      && after.state == (if before.state in {Finished, Failed, Killed, Gone} then before.state else Running)
      && after == before.(worktree := after.worktree, targets := after.targets, pid := after.pid, source := after.source,
                          state := after.state)
  {
  }

  /** The fields that say what the build is and where it runs are taken, but a registered build keeps its targets. */
  predicate TakesFields(b: Build, before: Build, after: Build) {
    && Takes(b.worktree != "", b.worktree, before.worktree, after.worktree)
    && Takes(b.worktreeName != "", b.worktreeName, before.worktreeName, after.worktreeName)
    && Takes(b.command != "", b.command, before.command, after.command)
    && Takes(|b.targets| > 0 && before.source != Registered, b.targets, before.targets, after.targets)
    && Takes(b.pid != 0, b.pid, before.pid, after.pid)
    && Takes(b.exePath != "", b.exePath, before.exePath, after.exePath)
    && Takes(b.cwd != "", b.cwd, before.cwd, after.cwd)
    && Takes(b.gitDir != "", b.gitDir, before.gitDir, after.gitDir)
    && Takes(b.cacheHitRatio != None, b.cacheHitRatio, before.cacheHitRatio, after.cacheHitRatio)
    && Takes(b.profileURL != "", b.profileURL, before.profileURL, after.profileURL)
  }

  /** A state other than running is taken with its exit code and date, unless the build has ended before. */
  predicate TakesEnd(b: Build, before: Build, after: Build, now: Time) {
    var ends := b.state !in {Unset, Running} && before.state !in {Finished, Failed, Killed, Gone};
    && Takes(ends, b.state, before.state, after.state)
    && Takes(ends && b.exitCode != 0, b.exitCode, before.exitCode, after.exitCode)
    && Takes(ends && (b.endTime != None || before.endTime == None), if b.endTime != None then b.endTime else Some(now),
             before.endTime, after.endTime)
  }

  lemma MergedTakes(before: Build, b: Build, now: Time)
    ensures var after := Merged(before, b, now);
      && TakesFields(b, before, after) && TakesEnd(b, before, after, now)
      && after.lastSeen == Some(now) && after.id == before.id && after.startTime == before.startTime
      && after.source == before.source
  {
    var d := Described(before, b);
    var l := Located(d, b);
    LocatedTakes(before, d, l, b);
    assert d.state == l.state == before.state && d.exitCode == l.exitCode == before.exitCode
        && d.endTime == l.endTime == before.endTime;
    AdvancedTakes(l, b, now);
    hide Described, Located, Advanced, TakesFields, TakesEnd;
    SameFieldsTake(b, before, l, Merged(before, b, now));
    SameEndTakes(b, before, l, Advanced(l, b, now), Merged(before, b, now), now);
  }

  lemma LocatedTakes(before: Build, d: Build, l: Build, b: Build)
    requires d == Described(before, b) && l == Located(d, b)
    ensures TakesFields(b, before, l) && l.id == before.id && l.startTime == before.startTime && l.source == before.source
  {
  }

  lemma AdvancedTakes(l: Build, b: Build, now: Time)
    ensures TakesEnd(b, l, Advanced(l, b, now), now)
    ensures Advanced(l, b, now) == l.(state := Advanced(l, b, now).state, exitCode := Advanced(l, b, now).exitCode,
                                      endTime := Advanced(l, b, now).endTime)
  {
  }

  lemma SameFieldsTake(b: Build, before: Build, l: Build, after: Build)
    requires TakesFields(b, before, l)
    requires after == l.(state := after.state, exitCode := after.exitCode, endTime := after.endTime, lastSeen := after.lastSeen)
    ensures TakesFields(b, before, after)
  {
  }

  lemma SameEndTakes(b: Build, before: Build, l: Build, r: Build, after: Build, now: Time)
    requires TakesEnd(b, l, r, now)
    requires l.state == before.state && l.exitCode == before.exitCode && l.endTime == before.endTime
    requires after == r.(lastSeen := after.lastSeen)
    ensures TakesEnd(b, before, after, now)
  {
  }

  /** An upsert takes what it is given, field by field, into the record it picks or a new one, and touches no other. */
  lemma UpsertMerges(m: Builds, b: Build, key: string, now: Time)
    requires (b.id != "" || b.pid != 0) && Picks(m, b, key)
    ensures var r := Upsert(m, b, key, now);
      var before := if Found(m, b, key) then m[key] else NewBuild(key, now, Discovered, Running);
      && r.Keys == m.Keys + {key} && (forall k | k in m && k != key :: r[k] == m[k])
      && TakesFields(b, before, r[key]) && TakesEnd(b, before, r[key], now)
      && r[key].lastSeen == Some(now) && r[key].id == before.id && r[key].startTime == before.startTime
      && r[key].source == before.source
  {
    MergedTakes(Target(m, b, key, now), b, now);
    hide Merged, TakesFields, TakesEnd;
  }

  /** Sending the same update again, at the same time, changes nothing. */
  lemma UpsertIsIdempotent(m: Builds, b: Build, key: string, now: Time)
    requires KeyedById(m) && Picks(m, b, key)
    ensures var r := Upsert(m, b, key, now); Picks(r, b, key) && Upsert(r, b, key, now) == r
  {
    var r := Upsert(m, b, key, now);
    if b.id != "" || b.pid != 0 {
      UpsertMerges(m, b, key, now);
      MergedTwice(Target(m, b, key, now), b, now);
      hide Merged, TakesEnd, Target;
      assert b.pid != 0 ==> r[key].pid == b.pid && HasPid(r, b.pid);
      assert b.pid == 0 ==> key == b.id;
      assert Found(r, b, key);
      assert Target(r, b, key, now) == r[key] by {
        FoundIsTarget(r, b, key, now);
      }
    }
  }

  lemma FoundIsTarget(m: Builds, b: Build, key: string, now: Time)
    requires Found(m, b, key)
    ensures Target(m, b, key, now) == m[key]
  {
  }

  lemma MergedTwice(stored: Build, b: Build, now: Time)
    ensures Merged(Merged(stored, b, now), b, now) == Merged(stored, b, now)
  {
    var once := Merged(stored, b, now);
    var twice := Merged(once, b, now);
    MergedTakes(stored, b, now);
    MergedTakes(once, b, now);
    hide Merged;
  }

  /** A reap marks gone, as of now, exactly the live discovered builds whose known process was not seen. */
  lemma ReapEndsTheUnseen(m: Builds, seen: set<int>, now: Time)
    ensures var r := Reap(m, seen, now);
      && r.Keys == m.Keys
      && forall k | k in m ::
        var b := m[k];
        r[k] == if b.source == Discovered && b.state !in {Finished, Failed, Killed, Gone} && b.pid != 0 && b.pid !in seen
                then b.(state := Gone, endTime := Some(now)) else b
  {
  }

  // ---- process ids ----

  /** An upsert never makes two records share a process, whichever record it picks. */
  lemma UpsertKeepsPidsUnique(m: Builds, b: Build, key: string, now: Time)
    requires UniquePids(m) && Picks(m, b, key)
    ensures UniquePids(Upsert(m, b, key, now))
  {
    if b.pid != 0 {
      assert forall k | k in m && m[k].pid == b.pid :: HasPid(m, b.pid) && k == key;
    }
  }

  /** A registration makes two records share a process exactly when another record already has it. */
  lemma RegisterKeepsPidsUniqueExactly(m: Builds, b: Build, now: Time)
    requires UniquePids(m) && Registrable(b)
    ensures UniquePids(Register(m, b, now)) <==> b.pid == 0 || forall k | k in m && k != b.id :: m[k].pid != b.pid
  {
    var r := Register(m, b, now);
    if b.pid != 0 {
      forall k | k in m && k != b.id && m[k].pid == b.pid
        ensures !UniquePids(r)
      {
        assert r[k].pid == r[b.id].pid;
      }
    }
  }

  // ---- records are merged, not replaced ----

  /** The one upsert that replaces a record: a nameless process finds its key taken by another process. */
  predicate Overwrites(m: Builds, b: Build, k: string) {
    b.id == "" && b.pid != 0 && !HasPid(m, b.pid) && k == PidKey(b.pid) && k in m
  }

  /** What no merge takes from a record: its source, its start, its end if it has ended, a registered build's targets. */
  predicate Respects(a: Build, b: Build) {
    && b.source == a.source && b.startTime == a.startTime
    && (a.source.Registered? ==> b.targets == a.targets)
    && (IsTerminal(a.state) ==> SameEnd(a, b))
  }

  /** An upsert respects every record except one it overwrites, and that one becomes a new live record. */
  lemma UpsertRespectsAllButTheOverwritten(m: Builds, b: Build, key: string, now: Time, k: string)
    requires Upsertable(b) && Picks(m, b, key) && k in m
    ensures var r := Upsert(m, b, key, now);
      && k in r
      && (!Overwrites(m, b, k) ==> Respects(m[k], r[k]))
      && (Overwrites(m, b, k) ==> r[k].startTime == now && r[k].source == Discovered && r[k].pid == b.pid != m[k].pid
                                  && (!IsTerminal(b.state) ==> !IsTerminal(r[k].state)))
  {
    PidKeyIsNotEmpty(b.pid);
  }

  lemma PidKeyIsNotEmpty(n: int)
    ensures PidKey(n) != ""
  {
    assert |PidKey(n)| >= 4;
  }

  lemma NothingOverwrittenWhenPidKeyed(m: Builds, b: Build, k: string)
    requires PidKeyed(m)
    ensures !Overwrites(m, b, k)
  {
    if b.pid != 0 && PidKey(b.pid) in m {
      assert m[PidKey(b.pid)].pid == b.pid;
      assert HasPid(m, b.pid);
    }
  }

  /**
   * The overwrite does happen. From an empty registry, a build named pid-5 that runs as process 7 and has
   * finished is followed by a live, nameless process 5: the finished record is lost to it.
   */
  lemma OverwrittenRecordComesBackToLife(first: Time, second: Time)
    ensures var done := NO_BUILD.(id := "pid-5", pid := 7, state := Finished);
      var live := NO_BUILD.(pid := 5, state := Running);
      var m := Upsert(map[], done, "pid-5", first);
      && Picks(map[], done, "pid-5") && KeyedById(m) && UniquePids(m) && IsTerminal(m["pid-5"].state)
      && Picks(m, live, "pid-5") && Upsert(m, live, "pid-5", second)["pid-5"].state == Running
  {
    assert Summary.Decimal(5) == "5";
    assert PidKey(5) == "pid-5";
    var done := NO_BUILD.(id := "pid-5", pid := 7, state := Finished);
    var m := Upsert(map[], done, "pid-5", first);
    assert m["pid-5"].pid == 7 && !HasPid(m, 5);
  }

  // ---- runs ----

  datatype Op =
    | RegisterOp(b: Build)
    | DeregisterOp(id: string, exitCode: int)
    | UpsertOp(b: Build, key: string)
    | ReapOp(seen: set<int>)

  /** An operation and the clock reading it takes. */
  datatype Timed = Timed(op: Op, now: Time)

  predicate Allowed(m: Builds, op: Op) {
    op.UpsertOp? ==> Picks(m, op.b, op.key)
  }

  function Step(m: Builds, t: Timed): Builds {
    match t.op
    case RegisterOp(b) => Register(m, b, t.now)
    case DeregisterOp(id, exitCode) => Deregister(m, id, exitCode, t.now)
    case UpsertOp(b, key) => Upsert(m, b, key, t.now)
    case ReapOp(seen) => Reap(m, seen, t.now)
  }

  predicate Legal(m: Builds, ops: seq<Timed>)
    decreases |ops|
  {
    ops == [] || (Allowed(m, ops[0].op) && Legal(Step(m, ops[0]), ops[1..]))
  }

  function Run(m: Builds, ops: seq<Timed>): Builds
    decreases |ops|
  {
    if ops == [] then m else Run(Step(m, ops[0]), ops[1..])
  }

  /** A caller who names a build pid-N gives it process N, or none when it is already known. */
  ghost predicate NamesProcess(m: Builds, b: Build) {
    forall n: int :: b.id == PidKey(n) ==> b.pid == n || (b.pid == 0 && b.id in m)
  }

  ghost predicate Proper(m: Builds, op: Op) {
    op.RegisterOp? || op.UpsertOp? ==> NamesProcess(m, op.b)
  }

  ghost predicate ProperRun(m: Builds, ops: seq<Timed>)
    decreases |ops|
  {
    ops == [] || (Proper(m, ops[0].op) && ProperRun(Step(m, ops[0]), ops[1..]))
  }

  lemma StepKeepsKeys(m: Builds, t: Timed)
    requires KeyedById(m) && Allowed(m, t.op)
    ensures KeyedById(Step(m, t))
  {
  }

  lemma UpsertKeepsPidKeyed(m: Builds, b: Build, key: string, now: Time)
    requires KeyedById(m) && PidKeyed(m) && NamesProcess(m, b) && Picks(m, b, key)
    ensures PidKeyed(Upsert(m, b, key, now))
  {
    var r := Upsert(m, b, key, now);
    forall n: int | PidKey(n) in r
      ensures r[PidKey(n)].pid == n
    {
      if PidKey(n) == key && !Found(m, b, key) && b.id == "" && b.pid != 0 {
        PidKeyIsInjective(n, b.pid);
      }
    }
  }

  lemma StepKeepsPidKeyed(m: Builds, t: Timed)
    requires KeyedById(m) && PidKeyed(m) && Allowed(m, t.op) && Proper(m, t.op)
    ensures PidKeyed(Step(m, t))
  {
    match t.op
    case RegisterOp(b) =>
    case DeregisterOp(id, exitCode) =>
    case UpsertOp(b, key) => UpsertKeepsPidKeyed(m, b, key, t.now);
    case ReapOp(seen) =>
  }

  lemma StepKeepsEnds(m: Builds, t: Timed, k: string)
    requires PidKeyed(m) && Allowed(m, t.op) && k in m && IsTerminal(m[k].state)
    ensures k in Step(m, t) && SameEnd(m[k], Step(m, t)[k])
  {
    match t.op
    case RegisterOp(b) =>
    case DeregisterOp(id, exitCode) =>
    case UpsertOp(b, key) =>
      if Upsertable(b) {
        NothingOverwrittenWhenPidKeyed(m, b, k);
        UpsertRespectsAllButTheOverwritten(m, b, key, t.now, k);
      }
    case ReapOp(seen) =>
  }

  /** A build that has ended keeps its state, exit code and end time for ever, and every record its own key. */
  lemma {:induction false} EndedBuildsStayEnded(m: Builds, ops: seq<Timed>)
    requires KeyedById(m) && PidKeyed(m) && Legal(m, ops) && ProperRun(m, ops)
    ensures KeyedById(Run(m, ops)) && PidKeyed(Run(m, ops))
    ensures forall k | k in m && IsTerminal(m[k].state) :: k in Run(m, ops) && SameEnd(m[k], Run(m, ops)[k])
    decreases |ops|
  {
    if ops != [] {
      var n := Step(m, ops[0]);
      StepKeepsKeys(m, ops[0]);
      StepKeepsPidKeyed(m, ops[0]);
      EndedBuildsStayEnded(n, ops[1..]);
      forall k | k in m && IsTerminal(m[k].state)
        ensures k in Run(m, ops) && SameEnd(m[k], Run(m, ops)[k])
      {
        StepKeepsEnds(m, ops[0], k);
      }
    }
  }

  // ---- boot ----

  function Ids(rows: seq<Build>): set<string> {
    set b | b in rows :: b.id
  }

  predicate DistinctIds(rows: seq<Build>) {
    forall i, j | 0 <= i < j < |rows| :: rows[i].id != rows[j].id
  }

  /** Whatever is loaded at boot has ended, and nothing else in the registry is touched. */
  lemma {:induction false} HydrationLeavesNothingRunning(m: Builds, rows: seq<Build>, now: Time)
    ensures var r := Hydrate(m, rows, now);
      && r.Keys == m.Keys + Ids(rows)
      && (forall k | k in m && k !in Ids(rows) :: r[k] == m[k])
      && (forall k | k in Ids(rows) :: r[k].id == k && IsTerminal(r[k].state))
  {
    if rows != [] {
      var front, last := rows[..|rows| - 1], rows[|rows| - 1];
      HydrationLeavesNothingRunning(m, front, now);
      assert rows == front + [last];
      assert Ids(rows) == Ids(front) + {last.id};
      assert Revived(last, now).id == last.id && IsTerminal(Revived(last, now).state);
      hide Revived, IsTerminal, Ids;
    }
  }

  /** The store's rows have distinct ids; each is loaded, unchanged if it had ended before. */
  lemma {:induction false} HydrationLoadsEveryRow(m: Builds, rows: seq<Build>, now: Time)
    requires DistinctIds(rows)
    ensures forall b | b in rows :: b.id in Hydrate(m, rows, now) && Hydrate(m, rows, now)[b.id] == Revived(b, now)
  {
    if rows != [] {
      var front, last := rows[..|rows| - 1], rows[|rows| - 1];
      assert rows == front + [last];
      DistinctInFront(front, last);
      hide Revived, DistinctIds;
      HydrationLoadsEveryRow(m, front, now);
    }
  }

  /** A row that had ended is loaded as it is; any other is marked gone, and dated if it was not. */
  lemma RevivedExactly(b: Build, now: Time)
    ensures var r := Revived(b, now);
      && (b.state in {Finished, Failed, Killed, Gone} ==> r == b)
      && (b.state !in {Finished, Failed, Killed, Gone} ==>
            r == b.(state := Gone, endTime := if b.endTime == None then Some(now) else b.endTime))
  {
    TerminalExactly(b.state);
  }

  lemma DistinctInFront(front: seq<Build>, last: Build)
    requires DistinctIds(front + [last])
    ensures DistinctIds(front) && forall b | b in front :: b.id != last.id
  {
    var rows := front + [last];
    assert forall i | 0 <= i < |front| :: rows[i] == front[i] && rows[|front|].id != rows[i].id;
  }
}
