/** The build registry as a map of records, and each of its mutations as a function on that map. */
module RegistryModel {
  import opened Wrappers
  import Summary

  /** Nanoseconds. */
  type Time = int

  datatype State =
    | Unset | Queued | Running | Finished | Failed | Killed | Gone | Unknown
    | Other(name: string)

  predicate IsTerminal(s: State) {
    s.Finished? || s.Failed? || s.Killed? || s.Gone?
  }

  datatype Source = NoSource | Registered | Discovered | OtherSource(name: string)

  /** `endTime` and `lastSeen` are None for the zero time, `cacheHitRatio` is None for the nil pointer. */
  datatype Build = Build(
    id: string, worktree: string, worktreeName: string, command: string, targets: seq<string>, pid: int,
    state: State, startTime: Time, endTime: Option<Time>, exitCode: int, source: Source,
    exePath: string, cwd: string, gitDir: string, lastSeen: Option<Time>,
    cacheHitRatio: Option<real>, profileURL: string)

  type Builds = map<string, Build>

  function NewBuild(id: string, startTime: Time, source: Source, state: State): Build {
    Build(id, "", "", "", [], 0, state, startTime, None, 0, source, "", "", "", None, None, "")
  }

  /** What an argument carries when nothing but the named fields is set. */
  const NO_BUILD := NewBuild("", 0, NoSource, Unset)

  function Show(n: int): string {
    if n < 0 then "-" + Summary.Decimal(-n) else Summary.Decimal(n)
  }

  /** The key of a discovered process that has no invocation id yet. */
  function PidKey(pid: int): string {
    "pid-" + Show(pid)
  }

  lemma ShowIsInjective(a: int, b: int)
    requires Show(a) == Show(b)
    ensures a == b
  {
    Summary.DecimalDenotes(if a < 0 then -a else a);
    Summary.DecimalDenotes(if b < 0 then -b else b);
    assert a < 0 ==> Show(a)[1..] == Summary.Decimal(-a);
    assert b < 0 ==> Show(b)[1..] == Summary.Decimal(-b);
    assert !Summary.IsDigit('-');
    assert (a < 0) == (b < 0) by {
      assert (a < 0) == !Summary.IsDigit(Show(a)[0]);
      assert (b < 0) == !Summary.IsDigit(Show(b)[0]);
    }
  }

  lemma PidKeyIsInjective(a: int, b: int)
    requires PidKey(a) == PidKey(b)
    ensures a == b
  {
    assert PidKey(a)[4..] == Show(a) && PidKey(b)[4..] == Show(b);
    ShowIsInjective(a, b);
  }

  // ---- mutations ----

  predicate Registrable(b: Build) {
    b.id != "" && b.worktree != ""
  }

  function Enrolled(stored: Build, b: Build): Build {
    stored.(worktree := b.worktree,
         targets := if b.targets != [] then b.targets else stored.targets,
         pid := if b.pid != 0 then b.pid else stored.pid,
         source := if !b.source.NoSource? then b.source else if stored.source.NoSource? then Registered else stored.source,
         state := if IsTerminal(stored.state) then stored.state else Running)
  }

  function Register(m: Builds, b: Build, now: Time): Builds {
    if !Registrable(b) then m
    else m[b.id := Enrolled(if b.id in m then m[b.id] else NewBuild(b.id, now, NoSource, Unset), b)]
  }

  /** Only a known, live build is ended; anything else is a no-op. */
  predicate Ends(m: Builds, id: string) {
    id != "" && id in m && !IsTerminal(m[id].state)
  }

  function Ended(b: Build, exitCode: int, now: Time): Build {
    b.(state := if exitCode == 0 then Finished else Failed, exitCode := exitCode, endTime := Some(now))
  }

  function Deregister(m: Builds, id: string, exitCode: int, now: Time): Builds {
    if Ends(m, id) then m[id := Ended(m[id], exitCode, now)] else m
  }

  predicate Upsertable(b: Build) {
    b.id != "" || b.pid != 0
  }

  predicate HasPid(m: Builds, pid: int) {
    exists k :: k in m && m[k].pid == pid
  }

  /** The record an upsert goes to: any one with the pid if there is one, else the one with the id. */
  predicate Picks(m: Builds, b: Build, key: string) {
    if b.pid != 0 && HasPid(m, b.pid) then key in m && m[key].pid == b.pid
    else key == if b.id != "" then b.id else PidKey(b.pid)
  }

  /** The picked record was found rather than inserted. */
  predicate Found(m: Builds, b: Build, key: string) {
    key in m && ((b.pid != 0 && m[key].pid == b.pid) || b.id == key)
  }

  function Described(stored: Build, b: Build): Build {
    stored.(worktree := if b.worktree != "" then b.worktree else stored.worktree,
            worktreeName := if b.worktreeName != "" then b.worktreeName else stored.worktreeName,
            command := if b.command != "" then b.command else stored.command,
            targets := if b.targets != [] && !stored.source.Registered? then b.targets else stored.targets,
            pid := if b.pid != 0 then b.pid else stored.pid)
  }

  function Located(stored: Build, b: Build): Build {
    stored.(exePath := if b.exePath != "" then b.exePath else stored.exePath,
            cwd := if b.cwd != "" then b.cwd else stored.cwd,
            gitDir := if b.gitDir != "" then b.gitDir else stored.gitDir,
            cacheHitRatio := if b.cacheHitRatio.Some? then b.cacheHitRatio else stored.cacheHitRatio,
            profileURL := if b.profileURL != "" then b.profileURL else stored.profileURL)
  }

  /** A state other than running is applied, but never to a record that has already ended. */
  function Advanced(stored: Build, b: Build, now: Time): Build {
    if b.state.Unset? || b.state.Running? || IsTerminal(stored.state) then stored
    else
      stored.(state := b.state,
              exitCode := if b.exitCode != 0 then b.exitCode else stored.exitCode,
              endTime := if b.endTime.Some? then b.endTime
                         else if stored.endTime.None? then Some(now) else stored.endTime)
  }

  function Merged(stored: Build, b: Build, now: Time): Build {
    Advanced(Located(Described(stored, b), b), b, now).(lastSeen := Some(now))
  }

  function Target(m: Builds, b: Build, key: string, now: Time): Build {
    if Found(m, b, key) then m[key] else NewBuild(key, now, Discovered, Running)
  }

  function Upsert(m: Builds, b: Build, key: string, now: Time): Builds {
    if !Upsertable(b) then m else m[key := Merged(Target(m, b, key, now), b, now)]
  }

  /** A discovered build that has not ended and whose process the scan did not see. */
  predicate Vanished(b: Build, seen: set<int>) {
    b.source.Discovered? && !IsTerminal(b.state) && b.pid != 0 && b.pid !in seen
  }

  function Reaped(b: Build, now: Time): Build {
    b.(state := Gone, endTime := Some(now))
  }

  function Reap(m: Builds, seen: set<int>, now: Time): Builds {
    map k | k in m :: if Vanished(m[k], seen) then Reaped(m[k], now) else m[k]
  }

  /** What a stored row becomes when it is loaded at boot. */
  function Revived(b: Build, now: Time): Build {
    if IsTerminal(b.state) then b
    else b.(state := Gone, endTime := if b.endTime.None? then Some(now) else b.endTime)
  }

  function Hydrate(m: Builds, rows: seq<Build>, now: Time): Builds {
    if rows == [] then m
    else
      var last := rows[|rows| - 1];
      Hydrate(m, rows[..|rows| - 1], now)[last.id := Revived(last, now)]
  }
}
