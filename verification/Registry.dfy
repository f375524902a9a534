/** The registry as the broker keeps it: records updated in place under one lock, announced once it is released. */
module Registry {
  import opened Wrappers
  import opened RegistryModel
  import opened RegistryLaws
  import opened Replay
  import opened EventHub
  import opened Sorting

  class Record {
    var b: Build

    constructor (b: Build)
      ensures this.b == b
    {
      this.b := b;
    }
  }

  /** Ghosts: `initial` is what was there before any mutation, `past` the mutations and notices since. */
  class Registry {
    var builds: map<string, Record>
    const hub: Hub
    ghost var initial: Builds
    ghost var past: seq<Moment>

    function Records(): set<Record>
      reads `builds
    {
      builds.Values
    }

    ghost predicate Filed()
      reads `builds, Records()
    {
      && (forall j, k | j in builds && k in builds && j != k :: builds[j] != builds[k])
      && KeyedById(View())
    }

    ghost predicate Valid()
      reads `builds, Records(), hub, hub.all
    {
      Filed() && hub.Valid()
    }

    function View(): Builds
      reads `builds, Records()
    {
      map k | k in builds :: builds[k].b
    }

    /** The hub's broadcasts are those of this registry, which its past has made what it is. */
    ghost predicate Chronicled()
      reads this, Records(), hub
    {
      Chronicles(initial, past, View(), hub.history)
    }

    constructor (hub: Hub)
      requires hub.Valid()
      ensures Valid() && View() == map[] && this.hub == hub
      ensures hub.history == [] ==> Chronicled()
    {
      builds := map[];
      this.hub := hub;
      initial, past := map[], [];
    }

    ghost method Remember(moment: Moment, m: Builds, history: seq<Event>)
      requires Valid() && Serial(m, [moment]) && View() == Next(m, moment) && hub.history == history + SentAt(moment)
      modifies `past
      ensures Valid() && past == old(past) + [moment]
      ensures Chronicles(initial, old(past), m, history) ==> Chronicled()
    {
      hide Chronicles, Serial, Next, SentAt, KeyedById;
      past := past + [moment];
      assert View() == old(View());
      if Chronicles(initial, old(past), m, history) {
        ChronicleGrows(initial, old(past), m, history, moment);
      }
    }

    /** A new record is filed under its id. */
    method Insert(b: Build) returns (stored: Record)
      requires Filed()
      modifies `builds
      ensures fresh(stored) && stored.b == b && builds == old(builds)[b.id := stored]
      ensures View() == old(View())[b.id := b] && Filed()
    {
      FilingKeepsKeys(View(), b);
      hide KeyedById;
      stored := new Record(b);
      builds := builds[b.id := stored];
      assert forall k | k in builds && k != b.id :: builds[k] == old(builds)[k] && builds[k] in old(Records());
      assert View() == old(View())[b.id := b];
    }

    /** A record is overwritten in place. */
    method Put(k: string, b: Build)
      requires Filed() && k in builds && b.id == k
      modifies builds[k]
      ensures View() == old(View())[k := b] && Filed()
    {
      builds[k].b := b;
    }

    method Announce(b: Build, now: Time)
      requires Valid()
      modifies hub, hub.all
      ensures Valid() && hub.all == old(hub.all) && hub.history == old(hub.history) + BuildEvents([b], now)
    {
      hub.Broadcast(BuildEvent(b, now));
      assert View() == old(View());
      assert BuildEvents([b], now) == [BuildEvent(b, now)];
    }

    ghost method Mutated(t: Timed, changed: seq<Build>, m: Builds, history: seq<Event>)
      requires Valid() && Allowed(m, t.op) && Announces(m, t, changed) && View() == Step(m, t)
      requires hub.history == history + BuildEvents(changed, t.now)
      modifies `past
      ensures Valid() && past == old(past) + [Mutation(t, changed)]
      ensures Chronicles(initial, old(past), m, history) ==> Chronicled()
    {
      hide Filed, Hub.Valid, Chronicles, Announces, Step, Serial;
      MutationIsSerial(m, t, changed);
      Remember(Mutation(t, changed), m, history);
    }

    /** The part of Register under the lock. */
    method Enrol(b: Build, now: Time) returns (snapshot: Build)
      requires Filed() && Registrable(b)
      modifies `builds, Records()
      ensures View() == RegistryModel.Register(old(View()), b, now) && Filed()
      ensures snapshot == View()[b.id] && fresh(Records() - old(Records()))
    {
      if b.id !in builds {
        var stored := Insert(NewBuild(b.id, now, NoSource, Unset));
      }
      var stored := builds[b.id];
      ghost var before := stored.b;
      assert before == View()[b.id];
      var s := stored.b;
      s := s.(worktree := b.worktree);
      if b.targets != [] {
        s := s.(targets := b.targets);
      }
      if b.pid != 0 {
        s := s.(pid := b.pid);
      }
      if !b.source.NoSource? {
        s := s.(source := b.source);
      } else if s.source.NoSource? {
        s := s.(source := Registered);
      }
      if !IsTerminal(s.state) {
        s := s.(state := Running);
      }
      assert s == Enrolled(before, b);
      hide Enrolled;
      Put(b.id, s);
      snapshot := s;
    }

    method Register(b: Build, now: Time) returns (r: Option<Build>, ghost changed: seq<Build>)
      requires Valid()
      modifies `builds, `past, Records(), hub, hub.all
      ensures past == old(past) + [Mutation(Timed(RegisterOp(b), now), changed)] && (old(Chronicled()) ==> Chronicled())
      ensures Valid() && View() == RegistryModel.Register(old(View()), b, now)
      ensures r == if Registrable(b) then Some(View()[b.id]) else None
      ensures Announces(old(View()), Timed(RegisterOp(b), now), changed)
      ensures hub.history == old(hub.history) + BuildEvents(changed, now)
      ensures hub.all == old(hub.all) && fresh(Records() - old(Records()))
    {
      hide Filed, Hub.Valid, Chronicles, Enrolled;
      changed := [];
      if b.id == "" || b.worktree == "" {
        r := None;
      } else {
        var snapshot := Enrol(b, now);
        Announce(snapshot, now);
        r, changed := Some(snapshot), [snapshot];
      }
      Mutated(Timed(RegisterOp(b), now), changed, old(View()), old(hub.history));
    }

    /** The part of Deregister under the lock, for a known and live build. */
    method End(id: string, exitCode: int, now: Time) returns (snapshot: Build)
      requires Filed() && Ends(View(), id)
      modifies Records()
      ensures View() == RegistryModel.Deregister(old(View()), id, exitCode, now) && Filed()
      ensures snapshot == View()[id]
    {
      var s := builds[id].b;
      if exitCode == 0 {
        s := s.(state := Finished);
      } else {
        s := s.(state := Failed);
      }
      s := s.(exitCode := exitCode);
      s := s.(endTime := Some(now));
      Put(id, s);
      snapshot := s;
    }

    method Deregister(id: string, exitCode: int, now: Time) returns (ok: bool, r: Option<Build>, ghost changed: seq<Build>)
      requires Valid()
      modifies `past, Records(), hub, hub.all
      ensures past == old(past) + [Mutation(Timed(DeregisterOp(id, exitCode), now), changed)]
      ensures old(Chronicled()) ==> Chronicled()
      ensures Valid() && View() == RegistryModel.Deregister(old(View()), id, exitCode, now)
      ensures var m := old(View());
        View() == if EndsLive(m, id)
          then m[id := m[id].(state := if exitCode == 0 then Finished else Failed, exitCode := exitCode, endTime := Some(now))]
          else m
      ensures ok == (id != "")
      ensures r == if ok && id in View() then Some(View()[id]) else None
      ensures Announces(old(View()), Timed(DeregisterOp(id, exitCode), now), changed)
      ensures hub.history == old(hub.history) + BuildEvents(changed, now)
      ensures hub.all == old(hub.all)
    {
      DeregisterEndsByExitCode(View(), id, exitCode, now);
      EndsExactly(View(), id);
      hide EndsLive, Filed, Hub.Valid, Chronicles, Ended, RegistryModel.Deregister;
      changed := [];
      if id == "" {
        ok, r := false, None;
      } else if id !in builds {
        ok, r := true, None;
      } else if IsTerminal(builds[id].b.state) {
        ok, r := true, Some(builds[id].b);
      } else {
        var snapshot := End(id, exitCode, now);
        Announce(snapshot, now);
        ok, r, changed := true, Some(snapshot), [snapshot];
      }
      Mutated(Timed(DeregisterOp(id, exitCode), now), changed, old(View()), old(hub.history));
    }

    /** The walk over the map for a record with the given process; which one, if several have it, is up to the map. */
    method FindPid(pid: int) returns (key: Option<string>)
      ensures key.Some? ==> key.value in builds && View()[key.value].pid == pid
      ensures key.None? ==> !HasPid(View(), pid)
    {
      var rest := builds.Keys;
      while rest != {}
        invariant rest <= builds.Keys
        invariant forall k | k in builds && k !in rest :: View()[k].pid != pid
        decreases rest
      {
        var k :| k in rest;
        if builds[k].b.pid == pid {
          return Some(k);
        }
        rest := rest - {k};
      }
      return None;
    }

    /** The record an upsert is to be merged into, found or newly inserted. */
    method Pick(b: Build, now: Time) returns (key: string)
      requires Filed() && Upsertable(b)
      modifies `builds
      ensures Picks(old(View()), b, key) && key in builds && Filed()
      ensures View() == old(View())[key := Target(old(View()), b, key, now)]
      ensures fresh(Records() - old(Records()))
    {
      if b.pid != 0 {
        var found := FindPid(b.pid);
        if found.Some? {
          assert HasPid(View(), b.pid);
          return found.value;
        }
      }
      if b.id != "" && b.id in builds {
        return b.id;
      }
      key := b.id;
      if key == "" {
        key := PidKey(b.pid);
      }
      var stored := Insert(NewBuild(key, now, Discovered, Running));
    }

    method Describe(stored: Record, b: Build)
      modifies stored
      ensures stored.b == Described(old(stored.b), b)
    {
      if b.worktree != "" {
        stored.b := stored.b.(worktree := b.worktree);
      }
      if b.worktreeName != "" {
        stored.b := stored.b.(worktreeName := b.worktreeName);
      }
      if b.command != "" {
        stored.b := stored.b.(command := b.command);
      }
      if b.targets != [] && !stored.b.source.Registered? {
        stored.b := stored.b.(targets := b.targets);
      }
      if b.pid != 0 {
        stored.b := stored.b.(pid := b.pid);
      }
    }

    method Locate(stored: Record, b: Build)
      modifies stored
      ensures stored.b == Located(old(stored.b), b)
    {
      if b.exePath != "" {
        stored.b := stored.b.(exePath := b.exePath);
      }
      if b.cwd != "" {
        stored.b := stored.b.(cwd := b.cwd);
      }
      if b.gitDir != "" {
        stored.b := stored.b.(gitDir := b.gitDir);
      }
      if b.cacheHitRatio.Some? {
        stored.b := stored.b.(cacheHitRatio := b.cacheHitRatio);
      }
      if b.profileURL != "" {
        stored.b := stored.b.(profileURL := b.profileURL);
      }
    }

    method Advance(stored: Record, b: Build, now: Time)
      modifies stored
      ensures stored.b == Advanced(old(stored.b), b, now)
    {
      if !b.state.Unset? && !b.state.Running? && !IsTerminal(stored.b.state) {
        stored.b := stored.b.(state := b.state);
        if b.exitCode != 0 {
          stored.b := stored.b.(exitCode := b.exitCode);
        }
        if b.endTime.Some? {
          stored.b := stored.b.(endTime := b.endTime);
        } else if stored.b.endTime.None? {
          stored.b := stored.b.(endTime := Some(now));
        }
      }
    }

    /** A record takes on what an upsert brings, in place. */
    method Amend(key: string, b: Build, now: Time)
      requires Filed() && key in builds
      modifies builds[key]
      ensures View() == old(View())[key := Merged(old(View())[key], b, now)] && Filed()
    {
      var stored := builds[key];
      MergedKeepsId(stored.b, b, now);
      hide Described, Located, Advanced;
      Describe(stored, b);
      Locate(stored, b);
      Advance(stored, b, now);
      stored.b := stored.b.(lastSeen := Some(now));
      assert stored.b == Merged(old(stored.b), b, now);
      hide Merged;
      assert forall k | k in builds && k != key :: builds[k].b == old(builds[k].b);
    }

    /** The part of Upsert under the lock. */
    method Merge(b: Build, now: Time) returns (key: string, snapshot: Build)
      requires Filed() && Upsertable(b)
      modifies `builds, Records()
      ensures Picks(old(View()), b, key) && View() == RegistryModel.Upsert(old(View()), b, key, now) && Filed()
      ensures snapshot == View()[key] && fresh(Records() - old(Records()))
    {
      hide Filed, Picks, Target, Merged;
      key := Pick(b, now);
      Amend(key, b, now);
      snapshot := builds[key].b;
    }

    method Upsert(b: Build, now: Time) returns (r: Option<Build>, ghost key: string, ghost changed: seq<Build>)
      requires Valid()
      modifies `builds, `past, Records(), hub, hub.all
      ensures past == old(past) + [Mutation(Timed(UpsertOp(b, key), now), changed)] && (old(Chronicled()) ==> Chronicled())
      ensures Valid() && View() == RegistryModel.Upsert(old(View()), b, key, now)
      ensures r == if Upsertable(b) then Some(View()[key]) else None
      ensures Picks(old(View()), b, key) && Announces(old(View()), Timed(UpsertOp(b, key), now), changed)
      ensures hub.history == old(hub.history) + BuildEvents(changed, now)
      ensures hub.all == old(hub.all) && fresh(Records() - old(Records()))
    {
      hide Filed, Hub.Valid, Merged, Target, Chronicles;
      changed := [];
      if b.id == "" && b.pid == 0 {
        r, key := None, PidKey(0);
      } else {
        hide Picks;
        var picked, snapshot := Merge(b, now);
        Announce(snapshot, now);
        r, key, changed := Some(snapshot), picked, [snapshot];
      }
      Mutated(Timed(UpsertOp(b, key), now), changed, old(View()), old(hub.history));
    }

    /** The walk of ReapMissingDiscovered under the lock. */
    method Sweep(seen: set<int>, now: Time) returns (reaped: seq<Build>)
      requires Filed()
      modifies Records()
      ensures View() == RegistryModel.Reap(old(View()), seen, now) && Filed()
      ensures AnnouncesReaped(old(View()), seen, now, reaped)
    {
      ghost var m := View();
      reaped := [];
      var rest := builds.Keys;
      assert m.Keys == builds.Keys;
      NothingSwept(m, seen, now);
      hide Swept, SweptAnnounced, AnnouncesReaped, RegistryModel.Reap, Reaped;
      while rest != {}
        invariant rest <= builds.Keys
        invariant Filed() && View() == Swept(m, rest, seen, now)
        invariant SweptAnnounced(m, rest, seen, now, reaped)
        decreases rest
      {
        var k :| k in rest;
        assert rest == rest - {k} + {k};
        rest := rest - {k};
        SweepOne(m, rest, seen, now, reaped, k);
        var b := builds[k].b;
        assert b == View()[k] == m[k];
        if b.source.Discovered? && !IsTerminal(b.state) && b.pid != 0 && b.pid !in seen {
          assert Vanished(m[k], seen);
          b := b.(state := Gone);
          b := b.(endTime := Some(now));
          ReapedMeans(m[k], now);
          Put(k, b);
          reaped := reaped + [b];
        }
        hide Vanished;
      }
      AllSwept(m, seen, now, reaped);
    }

    /** ReapMissingDiscovered: the walk, then one announcement for each build reaped. */
    method Reap(seen: set<int>, now: Time) returns (ghost changed: seq<Build>)
      requires Valid()
      modifies `past, Records(), hub, hub.all
      ensures past == old(past) + [Mutation(Timed(ReapOp(seen), now), changed)] && (old(Chronicled()) ==> Chronicled())
      ensures Valid() && View() == RegistryModel.Reap(old(View()), seen, now)
      ensures Announces(old(View()), Timed(ReapOp(seen), now), changed)
      ensures hub.history == old(hub.history) + BuildEvents(changed, now)
      ensures hub.all == old(hub.all)
    {
      hide Filed, Hub.Valid, RegistryModel.Reap, AnnouncesReaped, Chronicles;
      var reaped := Sweep(seen, now);
      for i := 0 to |reaped|
        invariant Valid() && View() == RegistryModel.Reap(old(View()), seen, now) && past == old(past)
        invariant hub.all == old(hub.all) && hub.history == old(hub.history) + BuildEvents(reaped[..i], now)
      {
        Announce(reaped[i], now);
        assert BuildEvents(reaped[..i + 1], now) == BuildEvents(reaped[..i], now) + BuildEvents([reaped[i]], now);
      }
      assert reaped[..|reaped|] == reaped;
      changed := reaped;
      Mutated(Timed(ReapOp(seen), now), changed, old(View()), old(hub.history));
    }

    /** Broadcast: any event that is not about a build, such as metrics and alerts. */
    method Broadcast(name: string)
      requires Valid()
      modifies `past, hub, hub.all
      ensures Valid() && View() == old(View()) && hub.all == old(hub.all)
      ensures hub.history == old(hub.history) + SentAt(Notice(name))
      ensures past == old(past) + [Notice(name)] && (old(Chronicled()) ==> Chronicled())
    {
      hide Chronicles;
      hub.Broadcast(Event(OtherKind(name), [], None));
      assert View() == old(View());
      hide Filed, Hub.Valid;
      assert [Notice(name)][1..] == [];
      assert Serial(View(), [Notice(name)]);
      Remember(Notice(name), old(View()), old(hub.history));
    }

    /** Loading the stored rows at boot. */
    method HydrateFromStore(rows: seq<Build>, now: Time)
      requires Filed()
      modifies `builds, `initial
      ensures past == [] && hub.history == [] ==> Chronicled()
      ensures View() == RegistryModel.Hydrate(old(View()), rows, now) && Filed()
      ensures fresh(Records() - old(Records()))
    {
      for i := 0 to |rows|
        invariant Filed() && View() == RegistryModel.Hydrate(old(View()), rows[..i], now)
        invariant past == old(past)
        invariant fresh(Records() - old(Records()))
      {
        var b := rows[i];
        if !IsTerminal(b.state) {
          b := b.(state := Gone);
          if b.endTime.None? {
            b := b.(endTime := Some(now));
          }
        }
        assert rows[..i + 1][..i] == rows[..i];
        var stored := Insert(b);
      }
      assert rows[..|rows|] == rows;
      initial := View();
    }

    /** The walk that copies every record to its wire form, in whatever order the map yields them. */
    method ListApi(now: Time) returns (out: seq<ApiBuild>)
      requires Filed()
      ensures IsListing(View(), now, out)
    {
      hide ToApi;
      ToApiKeepsId(now);
      out := [];
      var rest := builds.Keys;
      while rest != {}
        invariant rest <= builds.Keys && |out| + |rest| == |builds|
        invariant forall a | a in out :: a.id in builds && a == ToApi(View()[a.id], now)
        invariant forall k | k in builds && k !in rest :: ToApi(View()[k], now) in out
        decreases rest
      {
        var k :| k in rest;
        rest := rest - {k};
        assert View()[k].id == k;
        out := out + [ToApi(builds[k].b, now)];
      }
      assert View().Keys == builds.Keys;
      assert |View()| == |builds|;
    }

    /** The wire form of every record, newest first. */
    method SnapshotApi(now: Time) returns (out: seq<ApiBuild>)
      requires Filed()
      ensures IsSnapshot(View(), now, out)
      ensures Tells(out, View(), now)
    {
      hide IsListing, IsSnapshot, Tells, KeyedById;
      ghost var m := View();
      assert KeyedById(m);
      hide Filed;
      out := ListApi(now);
      assert View() == m;
      SortedSnapshot(m, now, out);
      SnapshotShows(m, now, SortBy(out, Newest));
      out := SortBy(out, Newest);
    }
  }

  /** The key that the snapshot is sorted by. */
  function Newest(a: ApiBuild): int {
    -Seconds(a.startTime)
  }

  lemma SortedSnapshot(m: Builds, now: Time, listed: seq<ApiBuild>)
    requires IsListing(m, now, listed)
    ensures IsSnapshot(m, now, SortBy(listed, Newest))
  {
    hide ToApi, Seconds;
    var out := SortBy(listed, Newest);
    SortByOrders(listed, Newest);
    SameElements(listed, out);
    assert forall i, j | 0 <= i < j < |out| :: Newest(out[i]) <= Newest(out[j]);
  }

  lemma FilingKeepsKeys(m: Builds, b: Build)
    requires KeyedById(m)
    ensures KeyedById(m[b.id := b])
  {
  }

  lemma MergedKeepsId(stored: Build, b: Build, now: Time)
    ensures Merged(stored, b, now).id == stored.id
  {
  }

  lemma ToApiKeepsId(now: Time)
    ensures forall b: Build :: ToApi(b, now).id == b.id
  {
  }

  /** The registry when the sweep still has `rest` to look at. */
  ghost function Swept(m: Builds, rest: set<string>, seen: set<int>, now: Time): Builds {
    map k | k in m :: if k !in rest && Vanished(m[k], seen) then Reaped(m[k], now) else m[k]
  }

  ghost predicate SweptAnnounced(m: Builds, rest: set<string>, seen: set<int>, now: Time, changed: seq<Build>) {
    && (forall b | b in changed :: b.id in m && b.id !in rest && Vanished(m[b.id], seen) && b == Reaped(m[b.id], now))
    && (forall k | k in m && k !in rest && Vanished(m[k], seen) :: Reaped(m[k], now) in changed)
    && (forall i, j | 0 <= i < j < |changed| :: changed[i].id != changed[j].id)
  }

  lemma ReapedMeans(b: Build, now: Time)
    ensures Reaped(b, now) == b.(state := Gone).(endTime := Some(now))
  {
  }

  lemma NothingSwept(m: Builds, seen: set<int>, now: Time)
    ensures Swept(m, m.Keys, seen, now) == m && SweptAnnounced(m, m.Keys, seen, now, [])
  {
  }

  lemma AllSwept(m: Builds, seen: set<int>, now: Time, changed: seq<Build>)
    requires SweptAnnounced(m, {}, seen, now, changed)
    ensures Swept(m, {}, seen, now) == RegistryModel.Reap(m, seen, now) && AnnouncesReaped(m, seen, now, changed)
  {
  }

  lemma SweptOneMore(m: Builds, rest: set<string>, seen: set<int>, now: Time, k: string)
    requires k in m && k !in rest
    ensures Swept(m, rest + {k}, seen, now).Keys == m.Keys && Swept(m, rest + {k}, seen, now)[k] == m[k]
    ensures Swept(m, rest, seen, now) ==
      if Vanished(m[k], seen) then Swept(m, rest + {k}, seen, now)[k := Reaped(m[k], now)] else Swept(m, rest + {k}, seen, now)
  {
    hide Vanished, Reaped;
  }

  lemma AnnouncedOneMore(m: Builds, rest: set<string>, seen: set<int>, now: Time, changed: seq<Build>, k: string)
    requires KeyedById(m) && k in m && k !in rest && SweptAnnounced(m, rest + {k}, seen, now, changed)
    ensures SweptAnnounced(m, rest, seen, now, if Vanished(m[k], seen) then changed + [Reaped(m[k], now)] else changed)
  {
    assert Reaped(m[k], now).id == k;
    hide Vanished, Reaped, KeyedById;
  }

  lemma SweepOne(m: Builds, rest: set<string>, seen: set<int>, now: Time, changed: seq<Build>, k: string)
    requires KeyedById(m) && k in m && k !in rest && SweptAnnounced(m, rest + {k}, seen, now, changed)
    ensures Swept(m, rest + {k}, seen, now).Keys == m.Keys && Swept(m, rest + {k}, seen, now)[k] == m[k]
    ensures Swept(m, rest, seen, now) ==
      if Vanished(m[k], seen) then Swept(m, rest + {k}, seen, now)[k := Reaped(m[k], now)] else Swept(m, rest + {k}, seen, now)
    ensures SweptAnnounced(m, rest, seen, now, if Vanished(m[k], seen) then changed + [Reaped(m[k], now)] else changed)
  {
    hide Swept, SweptAnnounced;
    SweptOneMore(m, rest, seen, now, k);
    AnnouncedOneMore(m, rest, seen, now, changed, k);
  }

  lemma SameElements(a: seq<ApiBuild>, b: seq<ApiBuild>)
    requires multiset(a) == multiset(b)
    ensures |a| == |b| && forall x :: x in a <==> x in b
  {
    assert |multiset(a)| == |multiset(b)|;
    forall x
      ensures x in a <==> x in b
    {
      assert x in multiset(a) <==> x in multiset(b);
    }
  }
}
