/** One discovery pass: every scanned process is merged into the registry, and vanished discovered builds are reaped. */
module Reconcile {
  import opened Wrappers
  import opened RegistryModel
  import opened RegistryLaws
  import opened EventHub
  import opened Replay
  import R = Registry

  datatype Process = Process(pid: int, exePath: string, cwd: string)

  datatype Worktree = Worktree(root: string, name: string, gitDir: string)

  /** Which worktree a directory lies in; None when it lies in none. */
  type Resolve = string -> Option<Worktree>

  /** What the pass hands to the registry for one process. */
  function Sighting(p: Process, wt: Worktree): Build {
    NO_BUILD.(pid := p.pid, exePath := p.exePath, cwd := p.cwd, worktree := wt.root, worktreeName := wt.name,
             gitDir := wt.gitDir, source := Discovered, state := Running)
  }

  /** The processes of the scan that run in some worktree. */
  function SeenPids(procs: seq<Process>, resolve: Resolve): set<int> {
    set p | p in procs && resolve(p.cwd).Some? :: p.pid
  }

  // ---- the registry while the scan is merged ----

  /** What no sighting changes in a record. */
  predicate SameStanding(a: Build, b: Build) {
    && b.state == a.state && b.source == a.source && b.pid == a.pid && b.startTime == a.startTime
    && b.exitCode == a.exitCode && b.endTime == a.endTime && b.targets == a.targets
  }

  ghost predicate WellKept(m: Builds, r: Builds) {
    KeyedById(r) && PidKeyed(r) && (UniquePids(m) ==> UniquePids(r))
  }

  predicate AllStand(m: Builds, r: Builds) {
    forall k | k in m :: k in r && SameStanding(m[k], r[k])
  }

  predicate NewOnesSeen(m: Builds, r: Builds, seen: set<int>) {
    forall k | k in r && k !in m :: r[k].source == Discovered && r[k].state == Running && r[k].pid != 0 && r[k].pid in seen
  }

  predicate SeenOnesFiled(r: Builds, seen: set<int>) {
    forall pid | pid in seen && pid != 0 :: HasPid(r, pid)
  }

  /**
   * From `m` the sightings of `seen` have led to `r`: every record stands as it did, every process seen
   * has one, and the records that are new are running discovered ones of processes seen.
   */
  ghost predicate Merging(m: Builds, r: Builds, seen: set<int>) {
    WellKept(m, r) && AllStand(m, r) && NewOnesSeen(m, r, seen) && SeenOnesFiled(r, seen)
  }

  lemma SightingIsNamelessAndRunning(p: Process, wt: Worktree)
    ensures var b := Sighting(p, wt); b.id == "" && b.pid == p.pid && b.targets == [] && b.state == Running
  {
  }

  /** Where a sighting goes: to a record of the process, which keeps its standing, or into a new record. */
  lemma SightingOutcome(m: Builds, b: Build, key: string, now: Time)
    requires KeyedById(m) && PidKeyed(m) && Picks(m, b, key)
    requires b.id == "" && b.pid != 0 && b.targets == [] && b.state == Running
    ensures var r := Upsert(m, b, key, now);
      && r.Keys == m.Keys + {key} && (forall k | k in m && k != key :: r[k] == m[k])
      && r[key].pid == b.pid && r[key].id == key
      && (if key in m then SameStanding(m[key], r[key])
          else key == PidKey(b.pid) && r[key].source == Discovered && r[key].state == Running)
  {
    if key in m && !HasPid(m, b.pid) {
      NothingOverwrittenWhenPidKeyed(m, b, key);
    }
  }

  lemma NamelessNamesNoProcess(m: Builds, b: Build)
    requires b.id == ""
    ensures NamesProcess(m, b)
  {
    forall n: int
      ensures b.id != PidKey(n)
    {
      PidKeyIsNotEmpty(n);
    }
  }

  lemma SightingKeepsMerging(m: Builds, r: Builds, seen: set<int>, b: Build, key: string, now: Time)
    requires Merging(m, r, seen) && Picks(r, b, key)
    requires b.id == "" && b.pid != 0 && b.targets == [] && b.state == Running
    ensures Merging(m, Upsert(r, b, key, now), seen + {b.pid})
  {
    hide Upsert, Picks, AllStand, NewOnesSeen, SeenOnesFiled;
    SightingKeepsWell(m, r, b, key, now);
    SightingOutcome(r, b, key, now);
    OthersStand(m, r, Upsert(r, b, key, now), seen, key, b.pid);
    PidsStayFiled(r, b, key, now, seen);
  }

  lemma SightingKeepsWell(m: Builds, r: Builds, b: Build, key: string, now: Time)
    requires WellKept(m, r) && Picks(r, b, key) && b.id == ""
    ensures WellKept(m, Upsert(r, b, key, now))
  {
    hide Upsert, Picks, PidKeyed, UniquePids, NamesProcess, KeyedById;
    StepKeepsKeys(r, Timed(UpsertOp(b, key), now));
    if UniquePids(r) {
      UpsertKeepsPidsUnique(r, b, key, now);
    }
    NamelessNamesNoProcess(r, b);
    UpsertKeepsPidKeyed(r, b, key, now);
  }

  lemma OthersStand(m: Builds, r: Builds, n: Builds, seen: set<int>, key: string, pid: int)
    requires AllStand(m, r) && NewOnesSeen(m, r, seen) && pid != 0
    requires n.Keys == r.Keys + {key} && forall k | k in r && k != key :: n[k] == r[k]
    requires n[key].pid == pid
    requires if key in r then SameStanding(r[key], n[key]) else n[key].source == Discovered && n[key].state == Running
    ensures AllStand(m, n) && NewOnesSeen(m, n, seen + {pid})
  {
  }

  lemma PidsStayFiled(r: Builds, b: Build, key: string, now: Time, seen: set<int>)
    requires KeyedById(r) && PidKeyed(r) && Picks(r, b, key)
    requires b.id == "" && b.pid != 0 && b.targets == [] && b.state == Running
    requires SeenOnesFiled(r, seen)
    ensures SeenOnesFiled(Upsert(r, b, key, now), seen + {b.pid})
  {
    hide Upsert, Picks, PidKeyed, KeyedById;
    var n := Upsert(r, b, key, now);
    SightingOutcome(r, b, key, now);
    forall pid | pid in seen && pid != 0
      ensures HasPid(n, pid)
    {
      var k :| k in r && r[k].pid == pid;
      assert n[k].pid == pid;
    }
    assert n[key].pid == b.pid;
  }

  // ---- where the processes seen are shown to run ----

  /** The record shows where the process runs, as far as the scan told. */
  predicate Locates(b: Build, p: Process, wt: Worktree) {
    && (p.exePath != "" ==> b.exePath == p.exePath) && (p.cwd != "" ==> b.cwd == p.cwd)
    && (wt.root != "" ==> b.worktree == wt.root) && (wt.name != "" ==> b.worktreeName == wt.name)
    && (wt.gitDir != "" ==> b.gitDir == wt.gitDir)
  }

  predicate Placed(r: Builds, p: Process, wt: Worktree) {
    exists k :: k in r && r[k].pid == p.pid && Locates(r[k], p, wt)
  }

  /** The last that a scan tells of a process in some worktree. */
  predicate LastSeen(procs: seq<Process>, resolve: Resolve, i: int) {
    && 0 <= i < |procs| && resolve(procs[i].cwd).Some? && procs[i].pid != 0
    && forall j | i < j < |procs| && resolve(procs[j].cwd).Some? :: procs[j].pid != procs[i].pid
  }

  /** Every process seen has a record that shows where it was last seen. */
  ghost predicate AllPlaced(r: Builds, procs: seq<Process>, resolve: Resolve) {
    forall i | LastSeen(procs, resolve, i) :: Placed(r, procs[i], resolve(procs[i].cwd).value)
  }

  lemma SightingPlaces(m: Builds, p: Process, wt: Worktree, key: string, now: Time)
    requires KeyedById(m) && PidKeyed(m) && p.pid != 0 && Picks(m, Sighting(p, wt), key)
    ensures var r := Upsert(m, Sighting(p, wt), key, now);
      Placed(r, p, wt) && forall k | k in m && m[k].pid != p.pid :: k in r && r[k] == m[k]
  {
    var b := Sighting(p, wt);
    SightingOutcome(m, b, key, now);
    UpsertMerges(m, b, key, now);
    hide Upsert, Picks, PidKeyed, KeyedById;
    assert Locates(Upsert(m, b, key, now)[key], p, wt);
  }

  lemma PlacedOneMore(r: Builds, n: Builds, procs: seq<Process>, i: nat, resolve: Resolve)
    requires i < |procs| && AllPlaced(r, procs[..i], resolve)
    requires if LastSeen(procs[..i + 1], resolve, i)
      then Placed(n, procs[i], resolve(procs[i].cwd).value)
        && forall k | k in r && r[k].pid != procs[i].pid :: k in n && n[k] == r[k]
      else n == r
    ensures AllPlaced(n, procs[..i + 1], resolve)
  {
    hide Locates;
    forall j | LastSeen(procs[..i + 1], resolve, j) && j < i
      ensures Placed(n, procs[j], resolve(procs[j].cwd).value)
    {
      assert procs[..i + 1][j] == procs[..i][j];
      assert LastSeen(procs[..i], resolve, j) by {
        assert forall l | j < l < i :: procs[..i][l] == procs[..i + 1][l];
      }
      var k :| k in r && r[k].pid == procs[j].pid && Locates(r[k], procs[j], resolve(procs[j].cwd).value);
      assert LastSeen(procs[..i + 1], resolve, i) ==> procs[..i + 1][i].pid != procs[j].pid;
      assert n[k] == r[k];
    }
  }

  lemma ReapKeepsPlaces(r: Builds, seen: set<int>, now: Time, procs: seq<Process>, resolve: Resolve)
    requires AllPlaced(r, procs, resolve)
    ensures AllPlaced(Reap(r, seen, now), procs, resolve)
  {
    forall i | LastSeen(procs, resolve, i)
      ensures Placed(Reap(r, seen, now), procs[i], resolve(procs[i].cwd).value)
    {
      var k :| k in r && r[k].pid == procs[i].pid && Locates(r[k], procs[i], resolve(procs[i].cwd).value);
      assert Locates(Reap(r, seen, now)[k], procs[i], resolve(procs[i].cwd).value);
    }
  }

  // ---- after the pass ----

  /** Whatever ran before it, the reap leaves no discovered build running whose process was not seen. */
  lemma ReapLeavesOnlyTheSeen(m: Builds, seen: set<int>, now: Time, k: string)
    requires k in m
    ensures var r := Reap(m, seen, now);
      && k in r && r[k].pid == m[k].pid && r[k].source == m[k].source
      && (r[k].source.Discovered? && !IsTerminal(r[k].state) && r[k].pid != 0 ==> r[k].pid in seen)
      && (r[k] != m[k] <==> Vanished(m[k], seen))
  {
  }

  /** What a pass over a scan that saw `seen` makes of a record. */
  predicate Reconciled(a: Build, b: Build, seen: set<int>, now: Time) {
    && b.source == a.source && b.pid == a.pid && b.startTime == a.startTime && b.targets == a.targets
    && (if a.source == Discovered && a.state !in {Finished, Failed, Killed, Gone} && a.pid != 0 && a.pid !in seen
        then b.state == Gone && b.endTime == Some(now) && b.exitCode == a.exitCode
        else SameEnd(a, b))
  }

  /**
   * Every earlier record is reconciled, so registered and ended builds stand as they did; every process
   * seen has a record; the new records are running discovered builds of processes seen; and no discovered
   * build is left running whose process was not seen.
   */
  ghost predicate PassOutcome(m: Builds, r: Builds, seen: set<int>, now: Time) {
    && WellKept(m, r) && NewOnesSeen(m, r, seen) && SeenOnesFiled(r, seen)
    && (forall k | k in m :: k in r && Reconciled(m[k], r[k], seen, now))
    && (forall k | k in r && r[k].source == Discovered && !IsTerminal(r[k].state) && r[k].pid != 0 :: r[k].pid in seen)
  }

  lemma ReapReconciles(a: Build, b: Build, seen: set<int>, now: Time)
    requires SameStanding(a, b)
    ensures Reconciled(a, if Vanished(b, seen) then Reaped(b, now) else b, seen, now)
  {
  }

  lemma ReapKeepsWell(m: Builds, r: Builds, seen: set<int>, now: Time)
    requires WellKept(m, r) && SeenOnesFiled(r, seen)
    ensures WellKept(m, Reap(r, seen, now)) && SeenOnesFiled(Reap(r, seen, now), seen)
  {
    var n := Reap(r, seen, now);
    assert forall k | k in r :: n[k].pid == r[k].pid && n[k].id == r[k].id;
    hide Reap;
    forall pid | pid in seen && pid != 0
      ensures HasPid(n, pid)
    {
      var k :| k in r && r[k].pid == pid;
      assert n[k].pid == pid;
    }
  }

  lemma ReapingCompletesThePass(m: Builds, r: Builds, seen: set<int>, now: Time)
    requires Merging(m, r, seen)
    ensures PassOutcome(m, Reap(r, seen, now), seen, now)
  {
    var n := Reap(r, seen, now);
    ReapKeepsWell(m, r, seen, now);
    hide Reconciled, WellKept, SeenOnesFiled;
    forall k | k in m
      ensures k in n && Reconciled(m[k], n[k], seen, now)
    {
      ReapReconciles(m[k], r[k], seen, now);
    }
  }

  /** A pass never touches what a wrapper registered, beyond where it runs: state, source, targets and end stay. */
  lemma RegisteredBuildsStand(m: Builds, r: Builds, seen: set<int>, now: Time, k: string)
    requires PassOutcome(m, r, seen, now) && k in m && m[k].source == Registered
    ensures k in r && SameStanding(m[k], r[k])
  {
    assert Reconciled(m[k], r[k], seen, now);
  }

  /** Some record of the process has ended. */
  predicate EndedFor(m: Builds, pid: int) {
    exists k :: k in m && m[k].pid == pid && IsTerminal(m[k].state)
  }

  /** Some record of the process has not ended, so that it shows as a build. */
  predicate LiveFor(m: Builds, pid: int) {
    exists k :: k in m && m[k].pid == pid && !IsTerminal(m[k].state)
  }

  /** Merging a live process makes it show as a build exactly when no ended build had its pid. */
  lemma SightingShowsExactlyWithoutAnEnd(m: Builds, b: Build, key: string, now: Time)
    requires KeyedById(m) && PidKeyed(m) && UniquePids(m) && Picks(m, b, key)
    requires b.id == "" && b.pid != 0 && b.targets == [] && b.state == Running
    ensures LiveFor(Upsert(m, b, key, now), b.pid) <==> !EndedFor(m, b.pid)
  {
    var r := Upsert(m, b, key, now);
    SightingOutcome(m, b, key, now);
    UpsertKeepsPidsUnique(m, b, key, now);
    hide Upsert, Picks, PidKeyed;
    assert r[key].pid == b.pid && forall k | k in r && r[k].pid == b.pid :: k == key;
    if EndedFor(m, b.pid) {
      var k :| k in m && m[k].pid == b.pid && IsTerminal(m[k].state);
      assert k in r && r[k].pid == b.pid && r[k].state == m[k].state;
    } else {
      assert key in m ==> !IsTerminal(m[key].state);
      assert !IsTerminal(r[key].state);
    }
  }

  /** After a whole pass, a process seen shows as a build exactly when no ended build had its pid before. */
  lemma SeenShowExactlyWithoutAnEnd(m: Builds, r: Builds, seen: set<int>, now: Time, pid: int)
    requires PassOutcome(m, r, seen, now) && UniquePids(m) && pid in seen && pid != 0
    ensures LiveFor(r, pid) <==> !EndedFor(m, pid)
  {
    hide PidKeyed;
    assert HasPid(r, pid);
    var key :| key in r && r[key].pid == pid;
    assert forall k | k in r && r[k].pid == pid :: k == key;
    if EndedFor(m, pid) {
      var k :| k in m && m[k].pid == pid && IsTerminal(m[k].state);
      assert Reconciled(m[k], r[k], seen, now);
      assert k in r && r[k].pid == pid && IsTerminal(r[k].state);
    } else {
      assert key in m ==> Reconciled(m[key], r[key], seen, now) && m[key].pid == pid && !IsTerminal(m[key].state);
      assert !IsTerminal(r[key].state);
    }
  }

  // ---- the code ----

  /** `now` is the reconciler's own clock reading, `stamp` gives those the registry takes at each upsert. */
  method ReconcileOnce(reg: R.Registry, scan: Option<seq<Process>>, resolve: Resolve, now: Time, stamp: nat -> Time)
    returns (ok: bool)
    requires reg.Valid() && PidKeyed(reg.View())
    modifies reg, reg.Records(), reg.hub, reg.hub.all
    ensures reg.Valid() && ok == scan.Some?
    ensures ok ==> PassOutcome(old(reg.View()), reg.View(), SeenPids(scan.value, resolve), now)
    ensures ok && UniquePids(old(reg.View())) ==> forall pid | pid in SeenPids(scan.value, resolve) && pid != 0 ::
        LiveFor(reg.View(), pid) <==> !EndedFor(old(reg.View()), pid)
    ensures ok ==> AllPlaced(reg.View(), scan.value, resolve)
    ensures !ok ==> reg.View() == old(reg.View()) && reg.hub.history == old(reg.hub.history)
  {
    if scan.None? {
      return false;
    }
    var procs := scan.value;
    ghost var m := reg.View();
    var seen: set<int> := {};
    hide R.Registry.Filed, Hub.Valid, Merging, PassOutcome, Upsert, Picks, Reap, Sighting, Announces, UniquePids, LiveFor, EndedFor;
    assert AllPlaced(m, procs[..0], resolve);
    hide AllPlaced;
    for i := 0 to |procs|
      invariant reg.Valid() && Merging(m, reg.View(), seen)
      invariant seen == SeenPids(procs[..i], resolve) && AllPlaced(reg.View(), procs[..i], resolve)
      invariant reg.hub.all == old(reg.hub.all) && fresh(reg.Records() - old(reg.Records()))
    {
      var p := procs[i];
      var wt := resolve(p.cwd);
      SeenOneMore(procs, i, resolve);
      if wt.None? {
        PlacedOneMore(reg.View(), reg.View(), procs, i, resolve);
        continue;
      }
      ghost var r, before := reg.View(), seen;
      seen := seen + {p.pid};
      SightingIsNamelessAndRunning(p, wt.value);
      var merged, key, changed := reg.Upsert(Sighting(p, wt.value), stamp(i));
      SightingMerged(m, r, reg.View(), before, Sighting(p, wt.value), key, stamp(i));
      SightingPlaced(m, r, reg.View(), before, procs, i, resolve, key, stamp(i));
    }
    assert procs[..|procs|] == procs;
    ReapingCompletesThePass(m, reg.View(), seen, now);
    ReapKeepsPlaces(reg.View(), seen, now, procs, resolve);
    var changed := reg.Reap(seen, now);
    if UniquePids(m) {
      forall pid | pid in seen && pid != 0
        ensures LiveFor(reg.View(), pid) <==> !EndedFor(m, pid)
      {
        SeenShowExactlyWithoutAnEnd(m, reg.View(), seen, now, pid);
      }
    }
    return true;
  }

  lemma SightingMerged(m: Builds, r: Builds, n: Builds, seen: set<int>, b: Build, key: string, now: Time)
    requires Merging(m, r, seen) && Picks(r, b, key) && n == Upsert(r, b, key, now)
    requires b.id == "" && b.targets == [] && b.state == Running
    ensures Merging(m, n, seen + {b.pid})
  {
    if b.pid != 0 {
      SightingKeepsMerging(m, r, seen, b, key, now);
    }
  }

  lemma SightingPlaced(m: Builds, r: Builds, n: Builds, seen: set<int>, procs: seq<Process>, i: nat, resolve: Resolve, key: string,
                       now: Time)
    requires i < |procs| && resolve(procs[i].cwd).Some? && Merging(m, r, seen) && AllPlaced(r, procs[..i], resolve)
    requires var b := Sighting(procs[i], resolve(procs[i].cwd).value); Picks(r, b, key) && n == Upsert(r, b, key, now)
    ensures AllPlaced(n, procs[..i + 1], resolve)
  {
    hide Picks, KeyedById, PidKeyed, AllPlaced, Placed, Upsert, Sighting;
    var p, wt := procs[i], resolve(procs[i].cwd).value;
    assert LastSeen(procs[..i + 1], resolve, i) <==> p.pid != 0;
    if p.pid != 0 {
      SightingPlaces(r, p, wt, key, now);
    } else {
      NamelessSightingIsIgnored(r, p, wt, key, now);
    }
    PlacedOneMore(r, n, procs, i, resolve);
  }

  lemma NamelessSightingIsIgnored(r: Builds, p: Process, wt: Worktree, key: string, now: Time)
    requires p.pid == 0
    ensures Upsert(r, Sighting(p, wt), key, now) == r
  {
  }

  lemma SeenOneMore(procs: seq<Process>, i: nat, resolve: Resolve)
    requires i < |procs|
    ensures SeenPids(procs[..i + 1], resolve) ==
      SeenPids(procs[..i], resolve) + if resolve(procs[i].cwd).Some? then {procs[i].pid} else {}
  {
    assert procs[..i + 1] == procs[..i] + [procs[i]];
  }
}
