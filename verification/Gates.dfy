/** The three admission gates as the objects they are, each proved against the model's gate functions. */
module Gates {
  import opened Targets
  import opened AdmissionModel
  import opened ScheduleSpec

  /** The injected clock: its k-th look returns `reading(k)`. */
  class ClockSource {
    const reading: Clock
    var looks: nat

    constructor (reading: Clock)
      ensures this.reading == reading && looks == 0
    {
      this.reading := reading;
      looks := 0;
    }

    method Now() returns (t: Time)
      modifies this
      ensures t == reading(old(looks)) && looks == old(looks) + 1
    {
      t := reading(looks);
      looks := looks + 1;
    }
  }

  class Semaphore {
    const max: int
    var held: set<string>

    constructor (max: int)
      ensures held == {} && this.max == if max < 1 then 1 else max
    {
      this.max := if max < 1 then 1 else max;
      held := {};
    }

    method Try(req: Request) returns (admit: bool, retry: int)
      ensures admit <==> req.id in held || |held| < max
      ensures retry == 0
    {
      retry := 0;
      if req.id in held {
        return true, 0;
      }
      admit := |held| < max;
    }

    method Acquire(req: Request)
      modifies this
      ensures held == old(held) + {req.id}
    {
      held := held + {req.id};
    }

    method Release(id: string)
      modifies this
      ensures held == old(held) - {id}
    {
      held := held - {id};
    }
  }

  class TokenBucket {
    const cpuHigh: real
    const ramMax: int
    var cpu: real
    var ramP: int

    constructor (cpuHigh: real, ramMax: int)
      ensures this.cpuHigh == cpuHigh && this.ramMax == ramMax && cpu == 0.0 && ramP == 1
    {
      this.cpuHigh := cpuHigh;
      this.ramMax := ramMax;
      cpu := 0.0;
      ramP := 1;
    }

    method SetSample(cpu: real, ramP: int)
      modifies this
      ensures this.cpu == cpu && this.ramP == ramP
    {
      this.cpu := cpu;
      this.ramP := ramP;
    }

    method Try(recentlyAdmitted: nat) returns (admit: bool, retry: int)
      ensures forall p: Policy | p.cpuHigh == cpuHigh && p.ramMax == ramMax ::
        admit <==> LoadAdmits(p, cpu, ramP, recentlyAdmitted)
      ensures admit <==> !(cpuHigh > 0.0 && cpu + recentlyAdmitted as real * 0.10 >= cpuHigh) && !(ramMax > 0 && ramP > ramMax)
      ensures retry == if admit then 0 else 2_000_000_000
    {
      if cpuHigh > 0.0 {
        var effective := cpu + recentlyAdmitted as real * RAMP_PER_HEAD;
        if effective >= cpuHigh {
          return false, LOAD_RETRY;
        }
      }
      if ramMax > 0 && ramP > ramMax {
        return false, LOAD_RETRY;
      }
      return true, 0;
    }
  }

  // ---- the running hold of the stagger gate ----

  /** `hold` is the largest remainder of the window over `rs`. */
  ghost predicate IsHold(window: int, now: Time, hold: int, rs: set<Record>) {
    && (forall r | r in rs :: window - (now - r.admittedAt) <= hold)
    && (rs == {} ==> hold == 0)
    && (rs != {} ==> exists r :: r in rs && hold == window - (now - r.admittedAt))
  }

  lemma IsHoldIsHold(window: int, now: Time, req: Request, recent: map<string, Record>, builds: seq<ActiveBuild>, hold: int)
    requires window > 0 && Normalised(req.targets) != {}
    requires IsHold(window, now, hold, Blocking(window, now, req.id, Normalised(req.targets), recent, builds))
    ensures hold == Hold(window, now, req, recent, builds)
  {
  }

  /** The hold after one more candidate build. */
  function Raised(window: int, now: Time, want: set<string>, targets: set<string>, at: Time, hold: int): int {
    if Blocks(window, now, want, targets, at) && window - (now - at) > hold then window - (now - at) else hold
  }

  lemma HoldGrows(window: int, now: Time, hold: int, rs: set<Record>, want: set<string>, r: Record)
    requires IsHold(window, now, hold, rs)
    requires forall x | x in rs :: 0 < window - (now - x.admittedAt)
    ensures IsHold(window, now, Raised(window, now, want, r.targets, r.admittedAt, hold),
                   rs + if Blocks(window, now, want, r.targets, r.admittedAt) then {r} else {})
  {
    if Blocks(window, now, want, r.targets, r.admittedAt) {
      if window - (now - r.admittedAt) > hold {
        assert r in rs + {r};
      } else {
        var x :| x in rs && hold == window - (now - x.admittedAt);
        assert x in rs + {r};
      }
    } else {
      assert rs + {} == rs;
    }
  }

  function Part(recent: map<string, Record>, keys: set<string>): map<string, Record> {
    map k | k in recent && k in keys :: recent[k]
  }

  lemma BlockingGrows(window: int, now: Time, id: string, want: set<string>, recent: map<string, Record>, keys: set<string>, k: string)
    requires k in recent && k !in keys
    ensures BlockingRecords(window, now, id, want, Part(recent, keys + {k}))
         == BlockingRecords(window, now, id, want, Part(recent, keys))
            + if k != id && Blocks(window, now, want, recent[k].targets, recent[k].admittedAt) then {recent[k]} else {}
  {
    var small, big := Part(recent, keys), Part(recent, keys + {k});
    forall r
      ensures r in BlockingRecords(window, now, id, want, small) ==> r in BlockingRecords(window, now, id, want, big)
    {
      if r in BlockingRecords(window, now, id, want, small) {
        var j :| j in small && j != id && small[j] == r && Blocks(window, now, want, r.targets, r.admittedAt);
        assert big[j] == r;
      }
    }
    if k != id && Blocks(window, now, want, recent[k].targets, recent[k].admittedAt) {
      assert big[k] == recent[k];
    }
    forall r | r in BlockingRecords(window, now, id, want, big)
      ensures r in BlockingRecords(window, now, id, want, small)
              || (k != id && r == recent[k] && Blocks(window, now, want, recent[k].targets, recent[k].admittedAt))
    {
      var j :| j in big && j != id && big[j] == r && Blocks(window, now, want, r.targets, r.admittedAt);
      if j != k {
        assert small[j] == r;
      }
    }
  }

  lemma BlockingBuildsGrow(window: int, now: Time, id: string, want: set<string>, builds: seq<ActiveBuild>, b: ActiveBuild)
    ensures BlockingBuilds(window, now, id, want, builds + [b])
         == BlockingBuilds(window, now, id, want, builds)
            + if b.id != id && Blocks(window, now, want, ToSet(b.targets), b.startedAt) then {AsRecord(b)} else {}
  {
    forall r | r in BlockingBuilds(window, now, id, want, builds)
      ensures r in BlockingBuilds(window, now, id, want, builds + [b])
    {
      var c :| c in builds && c.id != id && AsRecord(c) == r && Blocks(window, now, want, ToSet(c.targets), c.startedAt);
      assert c in builds + [b];
    }
    assert b in builds + [b];
  }

  lemma BlockingRemainders(window: int, now: Time, id: string, want: set<string>, recent: map<string, Record>, builds: seq<ActiveBuild>)
    ensures forall x | x in Blocking(window, now, id, want, recent, builds) :: 0 < window - (now - x.admittedAt)
    ensures forall x | x in BlockingRecords(window, now, id, want, recent) :: 0 < window - (now - x.admittedAt)
  {
  }

  lemma RecordSeen(window: int, now: Time, id: string, want: set<string>, all: map<string, Record>, seen: set<string>, k: string, hold: int)
    requires k in all && k !in seen
    requires IsHold(window, now, hold, BlockingRecords(window, now, id, want, Part(all, seen)))
    ensures IsHold(window, now, if k == id then hold else Raised(window, now, want, all[k].targets, all[k].admittedAt, hold),
                   BlockingRecords(window, now, id, want, Part(all, seen + {k})))
  {
    BlockingGrows(window, now, id, want, all, seen, k);
    BlockingRemainders(window, now, id, want, Part(all, seen), []);
    hide BlockingRecords, Part;
    HoldGrows(window, now, hold, BlockingRecords(window, now, id, want, Part(all, seen)), want, all[k]);
    assert BlockingRecords(window, now, id, want, Part(all, seen)) + {} == BlockingRecords(window, now, id, want, Part(all, seen));
  }

  lemma BuildSeen(window: int, now: Time, id: string, want: set<string>, all: map<string, Record>, builds: seq<ActiveBuild>,
                  b: ActiveBuild, hold: int)
    requires IsHold(window, now, hold, Blocking(window, now, id, want, all, builds))
    ensures IsHold(window, now, if b.id == id then hold else Raised(window, now, want, ToSet(b.targets), b.startedAt, hold),
                   Blocking(window, now, id, want, all, builds + [b]))
  {
    var rs := Blocking(window, now, id, want, all, builds);
    BlockingBuildsGrow(window, now, id, want, builds, b);
    BlockingRemainders(window, now, id, want, all, builds);
    hide BlockingRecords, BlockingBuilds;
    HoldGrows(window, now, hold, rs, want, AsRecord(b));
    assert Blocking(window, now, id, want, all, builds + [b])
      == rs + if b.id != id && Blocks(window, now, want, ToSet(b.targets), b.startedAt) then {AsRecord(b)} else {};
    assert rs + {} == rs;
  }

  class Stagger {
    const window: int
    const clock: ClockSource
    var recent: map<string, Record>

    constructor (window: int, clock: ClockSource)
      ensures this.window == window && this.clock == clock && recent == map[]
    {
      this.window := window;
      this.clock := clock;
      recent := map[];
    }

    /** One candidate build: its remainder raises the hold if it is young and overlaps. */
    method Consider(want: set<string>, targets: set<string>, at: Time, now: Time, hold: int) returns (r: int)
      requires window > 0
      ensures r == Raised(window, now, want, targets, at, hold)
    {
      var age := now - at;
      if age >= window || age < 0 {
        return hold;
      }
      var shares := ShareElement(want, targets);
      if shares && window - age > hold {
        return window - age;
      }
      return hold;
    }

    /** The walk over the records: drops the aged ones, skips the request's own, considers the rest. */
    method WalkRecords(req: Request, want: set<string>, now: Time) returns (hold: int)
      requires window > 0
      modifies this
      ensures recent == Fresh(window, now, old(recent))
      ensures IsHold(window, now, hold, BlockingRecords(window, now, req.id, want, old(recent)))
    {
      hold := 0;
      ghost var all := recent;
      var rest := recent.Keys;
      while rest != {}
        invariant rest <= all.Keys
        invariant forall k :: k in recent <==> k in all && (k in rest || now - all[k].admittedAt < window)
        invariant forall k | k in recent :: recent[k] == all[k]
        invariant IsHold(window, now, hold, BlockingRecords(window, now, req.id, want, Part(all, all.Keys - rest)))
        decreases rest
      {
        var k :| k in rest;
        var rec := recent[k];
        ghost var seen := all.Keys - rest;
        RecordSeen(window, now, req.id, want, all, seen, k, hold);
        assert all.Keys - (rest - {k}) == seen + {k};
        hide BlockingRecords, Part;
        rest := rest - {k};
        if now - rec.admittedAt >= window {
          recent := recent - {k};
        } else if k != req.id {
          hold := Consider(want, rec.targets, rec.admittedAt, now, hold);
        }
      }
      assert Part(all, all.Keys - rest) == all;
      assert recent == Fresh(window, now, all);
    }

    /** The walk over the registry snapshot, continuing the hold found among the records. */
    method WalkBuilds(req: Request, want: set<string>, now: Time, builds: seq<ActiveBuild>, recordHold: int,
                      ghost all: map<string, Record>) returns (hold: int)
      requires window > 0 && IsHold(window, now, recordHold, BlockingRecords(window, now, req.id, want, all))
      ensures IsHold(window, now, hold, Blocking(window, now, req.id, want, all, builds))
    {
      hold := recordHold;
      assert BlockingBuilds(window, now, req.id, want, []) == {};
      for i := 0 to |builds|
        invariant IsHold(window, now, hold, Blocking(window, now, req.id, want, all, builds[..i]))
      {
        var b := builds[i];
        assert builds[..i + 1] == builds[..i] + [b];
        BuildSeen(window, now, req.id, want, all, builds[..i], b, hold);
        hide BlockingRecords, BlockingBuilds;
        if b.id != req.id {
          hold := Consider(want, ToSet(b.targets), b.startedAt, now, hold);
        }
      }
      assert builds[..|builds|] == builds;
    }

    method Try(req: Request, builds: seq<ActiveBuild>) returns (admit: bool, retry: int)
      modifies this, clock
      ensures retry == Hold(window, clock.reading(old(clock.looks)), req, old(recent), builds)
      ensures admit <==> retry == 0
      ensures recent == AfterTry(window, clock.reading(old(clock.looks)), req, old(recent))
      ensures clock.looks == old(clock.looks) + if window > 0 && Normalised(req.targets) != {} then 1 else 0
    {
      if window <= 0 {
        return true, 0;
      }
      var want := CollectTargets([req.targets]);
      assert Elements([req.targets]) == {req.targets};
      if want == {} {
        return true, 0;
      }
      ghost var all := recent;
      var now := clock.Now();
      var hold := WalkRecords(req, want, now);
      hold := WalkBuilds(req, want, now, builds, hold, all);
      IsHoldIsHold(window, now, req, all, builds, hold);
      BlockingRemainders(window, now, req.id, want, all, builds);
      if hold > 0 {
        return false, hold;
      }
      return true, 0;
    }

    method Acquire(req: Request)
      modifies this, clock
      ensures recent == old(recent)[req.id := Record(Normalised(req.targets), clock.reading(old(clock.looks)))]
      ensures clock.looks == old(clock.looks) + 1
    {
      var targets := CollectTargets([req.targets]);
      assert Elements([req.targets]) == {req.targets};
      var now := clock.Now();
      recent := recent[req.id := Record(targets, now)];
    }

    /** One round of runGC: delete every record that is a window old. */
    method Collect()
      modifies this, clock
      ensures recent == Fresh(window, clock.reading(old(clock.looks)), old(recent))
      ensures forall k :: k in recent <==> k in old(recent) && clock.reading(old(clock.looks)) - old(recent)[k].admittedAt < window
      ensures clock.looks == old(clock.looks) + 1
    {
      var now := clock.Now();
      ghost var all := recent;
      var rest := recent.Keys;
      while rest != {}
        invariant clock.looks == old(clock.looks) + 1
        invariant rest <= all.Keys
        invariant forall k :: k in recent <==> k in all && (k in rest || now - all[k].admittedAt < window)
        invariant forall k | k in recent :: recent[k] == all[k]
        decreases rest
      {
        var k :| k in rest;
        rest := rest - {k};
        if now - recent[k].admittedAt >= window {
          recent := recent - {k};
        }
      }
      assert recent == Fresh(window, now, all);
    }
  }
}
