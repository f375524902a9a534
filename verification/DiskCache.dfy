/** The shared disk cache's size report and its opt-in prune of the least recently written files. */
module DiskCache {
  import opened Sorting
  import opened Wrappers

  /** Nanoseconds. */
  type Time = int

  datatype CacheFile = CacheFile(size: nat, mtime: Time)

  datatype CacheEntry = CacheEntry(path: string, size: nat, mtime: Time)

  datatype Config = Config(maxBytes: int, minAge: int, hysteresis: real, enableDirect: bool)

  const DAY := 86_400_000_000_000

  function WithDefaults(c: Config): Config {
    c.(minAge := if c.minAge == 0 then DAY else c.minAge, hysteresis := if c.hysteresis == 0.0 then 0.9 else c.hysteresis)
  }

  /** Conversion to an integer rounds towards zero. */
  function Truncate(r: real): int {
    if r >= 0.0 then r.Floor else -(-r).Floor
  }

  function Target(c: Config): int {
    Truncate(c.maxBytes as real * c.hysteresis)
  }

  function Sum(es: seq<CacheEntry>): nat {
    if es == [] then 0 else es[0].size + Sum(es[1..])
  }

  predicate OldestFirst(es: seq<CacheEntry>) {
    forall i, j | 0 <= i < j < |es| :: es[i].mtime <= es[j].mtime
  }

  predicate DistinctPaths(es: seq<CacheEntry>) {
    forall i, j | 0 <= i < j < |es| :: es[i].path != es[j].path
  }

  /** Old enough to go, and its removal succeeds. */
  predicate Evictable(e: CacheEntry, cutoff: Time, removable: set<string>) {
    e.mtime <= cutoff && e.path in removable
  }

  function Eligible(es: seq<CacheEntry>, cutoff: Time, removable: set<string>): seq<CacheEntry> {
    if es == [] then []
    else (if Evictable(es[0], cutoff, removable) then [es[0]] else []) + Eligible(es[1..], cutoff, removable)
  }

  /** What the prune loop removes when `excess` bytes are to go. */
  function Evicted(es: seq<CacheEntry>, excess: int, cutoff: Time, removable: set<string>): seq<CacheEntry> {
    if es == [] || excess <= 0 then []
    else if Evictable(es[0], cutoff, removable) then [es[0]] + Evicted(es[1..], excess - es[0].size, cutoff, removable)
    else Evicted(es[1..], excess, cutoff, removable)
  }

  function Paths(es: seq<CacheEntry>): set<string> {
    set e | e in es :: e.path
  }

  // ---- what is removed ----

  lemma FirstAndMore(e: CacheEntry, rest: seq<CacheEntry>, m: nat)
    requires 0 < m <= |rest| + 1
    ensures Sum(([e] + rest)[..m]) == e.size + Sum(rest[..m - 1])
  {
    assert ([e] + rest)[..m][1..] == rest[..m - 1];
  }

  lemma NothingSums(es: seq<CacheEntry>)
    ensures Sum(es[..0]) == 0
  {
  }

  /** The first `n` are the fewest of `all` that sum up to the excess, or they are all there are. */
  predicate FewestFirst(all: seq<CacheEntry>, excess: int, n: nat) {
    && n <= |all|
    && (forall m | 0 <= m < n :: Sum(all[..m]) < excess)
    && (Sum(all[..n]) >= excess || n == |all|)
  }

  lemma OneMoreFewest(e: CacheEntry, rest: seq<CacheEntry>, excess: int, k: nat)
    requires excess > 0 && FewestFirst(rest, excess - e.size, k)
    ensures FewestFirst([e] + rest, excess, k + 1) && ([e] + rest)[..k + 1] == [e] + rest[..k]
  {
    hide Sum;
    NothingSums([e] + rest);
    forall m | 0 < m <= k + 1
      ensures Sum(([e] + rest)[..m]) == e.size + Sum(rest[..m - 1])
    {
      FirstAndMore(e, rest, m);
    }
  }

  /**
   * The removed entries are the first `n` eligible ones, oldest first. No shorter run of them would
   * have freed the excess, and these do unless they are all there are.
   */
  lemma {:induction false} EvictsShortestSufficientPrefix(es: seq<CacheEntry>, excess: int, cutoff: Time, removable: set<string>)
    returns (n: nat)
    ensures var all := Eligible(es, cutoff, removable);
      FewestFirst(all, excess, n) && Evicted(es, excess, cutoff, removable) == all[..n]
  {
    n := 0;
    if es == [] || excess <= 0 {
      NothingSums(Eligible(es, cutoff, removable));
    } else if Evictable(es[0], cutoff, removable) {
      hide FewestFirst, Sum;
      n := EvictsShortestSufficientPrefix(es[1..], excess - es[0].size, cutoff, removable);
      OneMoreFewest(es[0], Eligible(es[1..], cutoff, removable), excess, n);
      n := n + 1;
    } else {
      hide FewestFirst, Sum;
      n := EvictsShortestSufficientPrefix(es[1..], excess, cutoff, removable);
      assert Eligible(es, cutoff, removable) == Eligible(es[1..], cutoff, removable);
    }
  }

  lemma {:induction false} EligibleExactly(es: seq<CacheEntry>, cutoff: Time, removable: set<string>)
    ensures forall e :: e in Eligible(es, cutoff, removable) <==> e in es && Evictable(e, cutoff, removable)
    ensures OldestFirst(es) ==> OldestFirst(Eligible(es, cutoff, removable))
  {
    if es != [] {
      EligibleExactly(es[1..], cutoff, removable);
      var rest := Eligible(es[1..], cutoff, removable);
      assert forall e | e in rest :: e in es[1..];
      assert OldestFirst(es) ==> OldestFirst(es[1..]);
      assert OldestFirst(es) ==> forall e | e in es[1..] :: es[0].mtime <= e.mtime;
    }
  }

  /**
   * Nothing newer than the cutoff goes and nothing goes before something older that could have gone;
   * and when the loop ends above its target, whatever is left is too fresh or cannot be removed.
   */
  lemma {:induction false} EvictionIsSafeAndThorough(es: seq<CacheEntry>, excess: int, cutoff: Time, removable: set<string>)
    requires OldestFirst(es)
    ensures var gone := Evicted(es, excess, cutoff, removable);
      && (forall e | e in gone :: e in es && e.mtime <= cutoff && e.path in removable)
      && (forall e, f | e in gone && f in es && f !in gone && f.mtime <= cutoff && f.path in removable :: e.mtime <= f.mtime)
      && (Sum(gone) < excess ==> forall f | f in es && f !in gone :: f.mtime > cutoff || f.path !in removable)
  {
    var n := EvictsShortestSufficientPrefix(es, excess, cutoff, removable);
    EligibleExactly(es, cutoff, removable);
    var all := Eligible(es, cutoff, removable);
    forall e, f | e in all[..n] && f in all && f !in all[..n]
      ensures e.mtime <= f.mtime
    {
      var i :| 0 <= i < n && all[i] == e;
      assert all == all[..n] + all[n..] && f in all[n..];
      var j :| 0 <= j < |all| - n && all[n..][j] == f;
      assert all[n + j] == f;
    }
    assert n == |all| ==> all[..n] == all;
  }

  // ---- sizes ----

  lemma {:induction false} SumAppend(a: seq<CacheEntry>, b: seq<CacheEntry>)
    ensures Sum(a + b) == Sum(a) + Sum(b)
  {
    if a == [] {
      assert a + b == b;
    } else {
      SumAppend(a[1..], b);
      assert (a + b)[1..] == a[1..] + b;
    }
  }

  function Without(es: seq<CacheEntry>, i: nat): seq<CacheEntry>
    requires i < |es|
  {
    es[..i] + es[i + 1..]
  }

  lemma SumWithout(es: seq<CacheEntry>, i: nat)
    requires i < |es|
    ensures multiset(es) == multiset(Without(es, i)) + multiset{es[i]}
    ensures Sum(es) == Sum(Without(es, i)) + es[i].size
  {
    hide Sum;
    var a, b := es[..i], es[i + 1..];
    assert es == a + [es[i]] + b;
    InsertedOne(a, es[i], b);
    SumInsert(a, es[i], b);
  }

  lemma InsertedOne(a: seq<CacheEntry>, e: CacheEntry, b: seq<CacheEntry>)
    ensures multiset(a + [e] + b) == multiset(a + b) + multiset{e}
  {
  }

  lemma {:induction false} SumInsert(a: seq<CacheEntry>, e: CacheEntry, b: seq<CacheEntry>)
    ensures Sum(a + [e] + b) == Sum(a + b) + e.size
  {
    if a == [] {
      assert a + [e] + b == [e] + b && a + b == b;
      assert ([e] + b)[1..] == b;
    } else {
      SumInsert(a[1..], e, b);
      assert (a + [e] + b)[1..] == a[1..] + [e] + b;
      assert (a + b)[1..] == a[1..] + b;
    }
  }

  lemma {:induction false} SumPermuted(a: seq<CacheEntry>, b: seq<CacheEntry>)
    requires multiset(a) == multiset(b)
    ensures Sum(a) == Sum(b)
  {
    if a == [] {
      assert |multiset(a)| == |multiset(b)|;
    } else {
      assert a[0] in multiset(b);
      var i :| 0 <= i < |b| && b[i] == a[0];
      SumWithout(a, 0);
      SumWithout(b, i);
      assert multiset(Without(a, 0)) == multiset(a) - multiset{a[0]};
      assert multiset(Without(b, i)) == multiset(b) - multiset{a[0]};
      SumPermuted(Without(a, 0), Without(b, i));
    }
  }

  /** The entries list the files, each once. */
  ghost predicate Enumerates(es: seq<CacheEntry>, files: map<string, CacheFile>) {
    && DistinctPaths(es)
    && Paths(es) == files.Keys
    && forall e | e in es :: e.path in files && files[e.path] == CacheFile(e.size, e.mtime)
  }

  lemma DistinctMultiset(es: seq<CacheEntry>)
    requires DistinctPaths(es)
    ensures forall e :: multiset(es)[e] == if e in es then 1 else 0
  {
    if es != [] {
      var init := es[..|es| - 1];
      assert es == init + [es[|es| - 1]];
      DistinctMultiset(init);
      assert es[|es| - 1] !in init;
    }
  }

  lemma EnumerationsAgree(a: seq<CacheEntry>, b: seq<CacheEntry>, files: map<string, CacheFile>)
    requires Enumerates(a, files) && Enumerates(b, files)
    ensures Sum(a) == Sum(b) && |a| == |b|
  {
    DistinctMultiset(a);
    DistinctMultiset(b);
    forall e
      ensures e in a <==> e in b
    {
      ListedExactly(a, files, e);
      ListedExactly(b, files, e);
    }
    assert multiset(a) == multiset(b);
    assert |multiset(a)| == |a|;
    SumPermuted(a, b);
  }

  lemma ListedExactly(es: seq<CacheEntry>, files: map<string, CacheFile>, e: CacheEntry)
    requires Enumerates(es, files)
    ensures e in es <==> e.path in files && files[e.path] == CacheFile(e.size, e.mtime)
  {
    if e.path in files && files[e.path] == CacheFile(e.size, e.mtime) {
      assert e.path in Paths(es);
      var x :| x in es && x.path == e.path;
      assert x == e;
    }
  }

  /** Removing listed files takes exactly their sizes off the total, however the rest is then listed. */
  lemma SurvivorsSum(es: seq<CacheEntry>, files: map<string, CacheFile>, gone: seq<CacheEntry>, left: seq<CacheEntry>)
    requires Enumerates(es, files) && DistinctPaths(gone) && (forall e | e in gone :: e in es)
    requires Enumerates(left, files - Paths(gone))
    ensures Sum(left) == Sum(es) - Sum(gone)
  {
    forall e | e in left
      ensures e !in gone
    {
      assert e.path !in Paths(gone);
    }
    assert DistinctPaths(gone + left) by {
      forall i, j | 0 <= i < j < |gone + left|
        ensures (gone + left)[i].path != (gone + left)[j].path
      {
        if i < |gone| <= j {
          assert gone[i] in gone && left[j - |gone|] in left;
          assert gone[i].path in Paths(gone) && left[j - |gone|].path in (files - Paths(gone)).Keys;
        }
      }
    }
    assert Enumerates(gone + left, files) by {
      assert forall e | e in gone :: e.path in Paths(gone) && e.path in files;
      assert Paths(gone + left) == Paths(gone) + Paths(left);
    }
    EnumerationsAgree(es, gone + left, files);
    SumAppend(gone, left);
  }

  // ---- what a prune achieves ----

  /** The target is the configured fraction of the limit in whole bytes. */
  lemma TargetIsTheFraction(c: Config)
    requires c.maxBytes >= 0 && c.hysteresis >= 0.0
    ensures Target(c) as real <= c.maxBytes as real * c.hysteresis < Target(c) as real + 1.0
  {
    assert c.maxBytes as real * c.hysteresis >= 0.0;
  }

  /** Only files that are old enough and removable are gone. */
  predicate Spared(before: map<string, CacheFile>, after: map<string, CacheFile>, cutoff: Time, removable: set<string>) {
    && (forall path | path in after :: path in before && after[path] == before[path])
    && (forall path | path in before && path !in after :: before[path].mtime <= cutoff && path in removable)
  }

  /** Every file left is too fresh to go or cannot be removed. */
  predicate NoneLeftToEvict(after: map<string, CacheFile>, cutoff: Time, removable: set<string>) {
    forall path | path in after :: after[path].mtime > cutoff || path !in removable
  }

  /** A prune spares the fresh, and brings the cache down to the fraction of its limit unless only those that have to stay are left. */
  lemma PruneReachesTheFraction(before: map<string, CacheFile>, es: seq<CacheEntry>, c: Config, total: int, cutoff: Time,
                                removable: set<string>)
    requires Enumerates(es, before) && OldestFirst(es)
    ensures var gone := Evicted(es, total - Target(c), cutoff, removable);
      && Spared(before, before - Paths(gone), cutoff, removable)
      && (c.maxBytes >= 0 && c.hysteresis >= 0.0 && (total - Sum(gone)) as real > c.maxBytes as real * c.hysteresis ==>
            NoneLeftToEvict(before - Paths(gone), cutoff, removable))
  {
    var gone := Evicted(es, total - Target(c), cutoff, removable);
    EvictionIsSafeAndThorough(es, total - Target(c), cutoff, removable);
    if c.maxBytes >= 0 && c.hysteresis >= 0.0 {
      TargetIsTheFraction(c);
    }
    hide Evicted, Eligible, Sum, Target, Enumerates;
    forall path | path in before
      ensures path in Paths(gone) ==> before[path].mtime <= cutoff && path in removable
      ensures path !in Paths(gone) && Sum(gone) < total - Target(c) ==> before[path].mtime > cutoff || path !in removable
    {
      var e := EntryAt(es, before, path);
      if path in Paths(gone) {
        var g :| g in gone && g.path == path;
        assert before[g.path] == CacheFile(g.size, g.mtime) by {
          ListedExactly(es, before, g);
        }
      }
    }
  }

  lemma EntryAt(es: seq<CacheEntry>, files: map<string, CacheFile>, path: string) returns (e: CacheEntry)
    requires Enumerates(es, files) && path in files
    ensures e in es && e.path == path && files[path] == CacheFile(e.size, e.mtime)
  {
    assert path in Paths(es);
    e :| e in es && e.path == path;
  }

  // ---- the code ----

  method SortByAge(a: array<CacheEntry>)
    modifies a
    ensures OldestFirst(a[..]) && multiset(a[..]) == multiset(old(a[..]))
  {
    var age := (e: CacheEntry) => e.mtime;
    var sorted := SortBy(a[..], age);
    SortByOrders(a[..], age);
    assert |multiset(sorted)| == |multiset(a[..])|;
    forall i | 0 <= i < a.Length {
      a[i] := sorted[i];
    }
    assert a[..] == sorted;
  }

  /** The cache directory; removing a file fails when it is not there or is locked. */
  class CacheDir {
    var files: map<string, CacheFile>
    const locked: set<string>

    constructor (files: map<string, CacheFile>, locked: set<string>)
      ensures this.files == files && this.locked == locked
    {
      this.files := files;
      this.locked := locked;
    }

    function Removable(): set<string>
      reads this
    {
      files.Keys - locked
    }

    method Remove(path: string) returns (ok: bool)
      modifies this
      ensures ok == (path in old(Removable()))
      ensures files == if ok then old(files) - {path} else old(files)
    {
      ok := path in files && path !in locked;
      if ok {
        files := files - {path};
      }
    }
  }

  /** `oldest` is the oldest date met by the walk, None when it met no file. */
  datatype Report = Report(totalBytes: int, fileCount: nat, gcFreed: int, oldest: Option<Time>, takenAt: Time)

  predicate IsOldest(es: seq<CacheEntry>, oldest: Option<Time>) {
    if es == [] then oldest == None
    else oldest.Some? && (exists e :: e in es && e.mtime == oldest.value) && forall e | e in es :: oldest.value <= e.mtime
  }

  /** The reports that a run over directory contents `before` and `after` may give. */
  ghost predicate Accurate(view: Report, before: map<string, CacheFile>, after: map<string, CacheFile>) {
    forall es, left :: Enumerates(es, before) && Enumerates(left, after) ==>
      view.totalBytes == Sum(left) && view.gcFreed == Sum(es) - Sum(left) && view.fileCount == |es|
  }

  /** What happened to the directory is the prune of some oldest-first order of its entries. */
  ghost predicate Pruned(before: map<string, CacheFile>, after: map<string, CacheFile>, es: seq<CacheEntry>,
                         excess: int, cutoff: Time, removable: set<string>) {
    OldestFirst(es) && Enumerates(es, before) && after == before - Paths(Evicted(es, excess, cutoff, removable))
  }

  class Reporter {
    const cfg: Config
    const dir: CacheDir

    constructor (cfg: Config, dir: CacheDir)
      ensures this.cfg == cfg.(minAge := if cfg.minAge == 0 then 24 * 60 * 60 * 1_000_000_000 else cfg.minAge,
                               hysteresis := if cfg.hysteresis == 0.0 then 0.9 else cfg.hysteresis)
      ensures this.dir == dir
    {
      this.cfg := WithDefaults(cfg);
      this.dir := dir;
    }

    /** The walk over the directory's regular files, in whatever order it meets them. */
    method Scan(walk: seq<CacheEntry>, collect: bool)
      returns (total: nat, count: nat, oldest: Option<Time>, entries: seq<CacheEntry>)
      ensures total == Sum(walk) && count == |walk| && entries == if collect then walk else []
      ensures IsOldest(walk, oldest)
    {
      total, count, oldest, entries := 0, 0, None, [];
      for i := 0 to |walk|
        invariant IsOldest(walk[..i], oldest)
        invariant total == Sum(walk[..i]) && count == i && entries == if collect then walk[..i] else []
      {
        assert walk[..i + 1] == walk[..i] + [walk[i]];
        SumAppend(walk[..i], [walk[i]]);
        total := total + walk[i].size;
        count := count + 1;
        if oldest.None? || walk[i].mtime < oldest.value {
          assert walk[i] in walk[..i + 1];
          oldest := Some(walk[i].mtime);
        }
        if collect {
          entries := entries + [walk[i]];
        }
      }
      assert walk[..|walk|] == walk;
    }

    method Prune(entries: array<CacheEntry>, total: int, now: Time) returns (freed: int)
      requires DistinctPaths(entries[..])
      modifies entries, dir
      ensures OldestFirst(entries[..]) && multiset(entries[..]) == multiset(old(entries[..]))
      ensures var gone := Evicted(entries[..], total - Target(cfg), now - cfg.minAge, old(dir.Removable()));
        freed == Sum(gone) && dir.files == old(dir.files) - Paths(gone)
    {
      hide Enumerates, DistinctPaths, Sum, Paths, Evicted, Target, OldestFirst;
      var target := Target(cfg);
      SortByAge(entries);
      DistinctPermuted(entries[..], old(entries[..]));
      var cutoff := now - cfg.minAge;
      ghost var es, before, removable := entries[..], dir.files, dir.Removable();
      freed := 0;
      ghost var gone := [];
      NoneGoneYet(before);
      var i := 0;
      while i < entries.Length
        invariant 0 <= i <= entries.Length && entries[..] == es
        invariant freed == Sum(gone) && dir.files == before - Paths(gone)
        invariant forall e | e in gone :: e in es[..i]
        invariant Evicted(es, total - target, cutoff, removable) == gone + Evicted(es[i..], total - target - freed, cutoff, removable)
      {
        if total - freed <= target {
          NothingMoreEvicted(es[i..], total - target - freed, cutoff, removable);
          break;
        }
        var e := entries[i];
        NextEvicted(es, i, total - target - freed, cutoff, removable);
        NotYetGone(es, i, gone);
        assert es[..i + 1] == es[..i] + [e];
        i := i + 1;
        if e.mtime > cutoff {
          continue;
        }
        var ok := dir.Remove(e.path);
        if !ok {
          continue;
        }
        freed := freed + e.size;
        OneMoreGone(gone, e, before);
        gone := gone + [e];
      }
      if i == entries.Length {
        NothingMoreEvicted(es[i..], total - target - freed, cutoff, removable);
      }
      assert gone + [] == gone;
    }

    /** A report, and a prune first when that is enabled, the cache is over its limit and no build is running. */
    method Run(walk: seq<CacheEntry>, buildActive: bool, takenAt: Time, now: Time)
      returns (view: Report, ghost sorted: seq<CacheEntry>)
      requires DistinctPaths(walk) && Enumerates(walk, dir.files)
      modifies dir
      ensures Accurate(view, old(dir.files), dir.files)
      ensures view.gcFreed + view.totalBytes == Sum(walk) && IsOldest(walk, view.oldest) && view.takenAt == takenAt
      ensures if cfg.enableDirect && 0 < cfg.maxBytes < Sum(walk) && !buildActive
        then Pruned(old(dir.files), dir.files, sorted, Sum(walk) - Target(cfg), now - cfg.minAge, old(dir.Removable()))
        else dir.files == old(dir.files)
      ensures Spared(old(dir.files), dir.files, now - cfg.minAge, old(dir.Removable()))
      ensures cfg.enableDirect && 0 < cfg.maxBytes < Sum(walk) && !buildActive && cfg.hysteresis >= 0.0 ==>
          view.totalBytes as real <= cfg.maxBytes as real * cfg.hysteresis
          || NoneLeftToEvict(dir.files, now - cfg.minAge, old(dir.Removable()))
    {
      hide Enumerates, DistinctPaths, Sum, Paths, Accurate, Evicted, Target, OldestFirst, IsOldest, NoneLeftToEvict;
      assert Spared(dir.files, dir.files, now - cfg.minAge, dir.Removable());
      hide Spared;
      sorted := [];
      var collect := cfg.enableDirect && cfg.maxBytes > 0;
      var total, count, oldest, entries := Scan(walk, collect);
      view := Report(total, count, 0, oldest, takenAt);
      if cfg.enableDirect && cfg.maxBytes > 0 && total > cfg.maxBytes && !buildActive {
        var a := new CacheEntry[|entries|](i requires 0 <= i < |entries| => entries[i]);
        assert a[..] == walk;
        ghost var before, removable := dir.files, dir.Removable();
        var freed := Prune(a, total, now);
        view := view.(gcFreed := freed, totalBytes := total - freed);
        sorted := a[..];
        ghost var gone := Evicted(sorted, total - Target(cfg), now - cfg.minAge, removable);
        EnumerationPermuted(sorted, walk, before);
        EvictedAreDistinct(sorted, total - Target(cfg), now - cfg.minAge, removable);
        PruneIsAccurate(before, walk, sorted, gone, oldest, takenAt);
        PruneReachesTheFraction(before, sorted, cfg, total, now - cfg.minAge, removable);
      } else {
        NoPruneIsAccurate(dir.files, walk, oldest, takenAt);
      }
    }
  }

  // ---- steps of the proofs about the code ----

  lemma DistinctPermuted(a: seq<CacheEntry>, b: seq<CacheEntry>)
    requires DistinctPaths(b) && multiset(a) == multiset(b)
    ensures DistinctPaths(a)
  {
    DistinctMultiset(b);
    forall i, j | 0 <= i < j < |a|
      ensures a[i].path != a[j].path
    {
      assert a[..j] + [a[j]] + a[j + 1..] == a && a[i] in multiset(a[..j]);
      assert a[i] != a[j] by {
        assert multiset(a) == multiset(a[..j]) + multiset{a[j]} + multiset(a[j + 1..]);
        assert multiset(a)[a[i]] <= 1;
      }
      assert a[i] in multiset(b) && a[j] in multiset(b);
    }
  }

  lemma NextEvicted(es: seq<CacheEntry>, i: nat, excess: int, cutoff: Time, removable: set<string>)
    requires i < |es| && excess > 0
    ensures Evicted(es[i..], excess, cutoff, removable) ==
      if Evictable(es[i], cutoff, removable)
      then [es[i]] + Evicted(es[i + 1..], excess - es[i].size, cutoff, removable)
      else Evicted(es[i + 1..], excess, cutoff, removable)
  {
    assert es[i..][1..] == es[i + 1..];
  }

  lemma NotYetGone(es: seq<CacheEntry>, i: nat, gone: seq<CacheEntry>)
    requires i < |es| && DistinctPaths(es) && forall e | e in gone :: e in es[..i]
    ensures es[i].path !in Paths(gone)
  {
  }

  lemma NoneGoneYet(files: map<string, CacheFile>)
    ensures Sum([]) == 0 && files - Paths([]) == files
  {
    assert Paths([]) == {};
  }

  lemma NothingMoreEvicted(es: seq<CacheEntry>, excess: int, cutoff: Time, removable: set<string>)
    requires es == [] || excess <= 0
    ensures Evicted(es, excess, cutoff, removable) == []
  {
  }

  lemma OneMoreGone(gone: seq<CacheEntry>, e: CacheEntry, files: map<string, CacheFile>)
    ensures Sum(gone + [e]) == Sum(gone) + e.size
    ensures files - Paths(gone + [e]) == files - Paths(gone) - {e.path}
  {
    SumAppend(gone, [e]);
    assert Paths(gone + [e]) == Paths(gone) + {e.path};
  }

  lemma {:induction false} EvictedAreDistinct(es: seq<CacheEntry>, excess: int, cutoff: Time, removable: set<string>)
    requires DistinctPaths(es)
    ensures var gone := Evicted(es, excess, cutoff, removable); DistinctPaths(gone) && forall e | e in gone :: e in es
  {
    if es != [] && excess > 0 {
      var rest := if Evictable(es[0], cutoff, removable) then excess - es[0].size else excess;
      EvictedAreDistinct(es[1..], rest, cutoff, removable);
      assert forall e | e in es[1..] :: e in es && e.path != es[0].path;
    }
  }

  lemma EnumerationPermuted(es: seq<CacheEntry>, walk: seq<CacheEntry>, files: map<string, CacheFile>)
    requires Enumerates(walk, files) && multiset(es) == multiset(walk)
    ensures Enumerates(es, files)
  {
    DistinctPermuted(es, walk);
    forall e
      ensures e in es <==> e in walk
    {
      assert e in multiset(es) <==> e in multiset(walk);
    }
  }

  lemma PruneIsAccurate(before: map<string, CacheFile>, walk: seq<CacheEntry>, es: seq<CacheEntry>, gone: seq<CacheEntry>,
                        oldest: Option<Time>, takenAt: Time)
    requires Enumerates(walk, before) && multiset(es) == multiset(walk)
    requires DistinctPaths(gone) && forall e | e in gone :: e in es
    ensures Accurate(Report(Sum(walk) - Sum(gone), |walk|, Sum(gone), oldest, takenAt), before, before - Paths(gone))
  {
    hide Enumerates, DistinctPaths, Sum, Paths;
    EnumerationPermuted(es, walk, before);
    forall ws, left | Enumerates(ws, before) && Enumerates(left, before - Paths(gone))
      ensures Sum(left) == Sum(walk) - Sum(gone) && Sum(ws) == Sum(walk) && |ws| == |walk|
    {
      SurvivorsSum(es, before, gone, left);
      EnumerationsAgree(ws, walk, before);
      EnumerationsAgree(es, walk, before);
    }
  }

  lemma NoPruneIsAccurate(files: map<string, CacheFile>, walk: seq<CacheEntry>, oldest: Option<Time>, takenAt: Time)
    requires Enumerates(walk, files)
    ensures Accurate(Report(Sum(walk), |walk|, 0, oldest, takenAt), files, files)
  {
    forall ws, left | Enumerates(ws, files) && Enumerates(left, files)
      ensures Sum(left) == Sum(walk) && Sum(ws) == Sum(walk) && |ws| == |walk|
    {
      EnumerationsAgree(ws, walk, files);
      EnumerationsAgree(left, walk, files);
    }
  }
}
