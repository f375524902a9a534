/** The client's fold over hub events, and why it arrives at the registry's own view. */
module Replay {
  import opened Wrappers
  import opened RegistryModel
  import opened RegistryLaws

  datatype ApiBuild = ApiBuild(
    id: string, worktree: string, worktreeName: string, command: string, targets: seq<string>, pid: int,
    state: State, startTime: Time, endTime: Option<Time>, exitCode: int, source: Source, elapsedMs: int,
    cacheHitRatio: Option<real>, profileURL: string)

  /** Whole milliseconds, rounded towards zero. */
  function Milliseconds(d: int): int {
    if d < 0 then -(-d / 1_000_000) else d / 1_000_000
  }

  function ToApi(b: Build, now: Time): ApiBuild {
    ApiBuild(b.id, b.worktree, b.worktreeName, b.command, b.targets, b.pid, b.state, b.startTime, b.endTime,
             b.exitCode, b.source,
             Milliseconds((if b.endTime.Some? then b.endTime.value else now) - b.startTime),
             b.cacheHitRatio, b.profileURL)
  }

  /** The wire form says of the build what its record says, age aside. */
  predicate Shows(a: ApiBuild, b: Build) {
    && a.id == b.id && a.worktree == b.worktree && a.worktreeName == b.worktreeName && a.command == b.command
    && a.targets == b.targets && a.pid == b.pid && a.state == b.state && a.startTime == b.startTime
    && a.endTime == b.endTime && a.exitCode == b.exitCode && a.source == b.source
    && a.cacheHitRatio == b.cacheHitRatio && a.profileURL == b.profileURL
  }

  /** `ms` is the duration `d` in whole milliseconds, rounded towards zero. */
  predicate InMilliseconds(ms: int, d: int) {
    if d >= 0 then ms * 1_000_000 <= d < (ms + 1) * 1_000_000 else (ms - 1) * 1_000_000 < d <= ms * 1_000_000
  }

  /** A dated build's age runs from its start to its end, whenever one looks; any other's to now. */
  predicate Aged(a: ApiBuild, b: Build, now: Time) {
    InMilliseconds(a.elapsedMs, (if b.endTime.Some? then b.endTime.value else now) - b.startTime)
  }

  lemma ToApiShows(b: Build, now: Time)
    ensures ToApi(b, now).id == b.id && Shows(ToApi(b, now), b) && Aged(ToApi(b, now), b, now)
  {
  }

  /** A wire build without its age, the one field that depends on when it was sent. */
  function Ageless(a: ApiBuild): ApiBuild {
    a.(elapsedMs := 0)
  }

  datatype Kind = SnapshotKind | BuildKind | OtherKind(name: string)

  datatype Event = Event(kind: Kind, builds: seq<ApiBuild>, build: Option<ApiBuild>)

  type Table = map<string, ApiBuild>

  function FileAll(table: Table, builds: seq<ApiBuild>): Table {
    if builds == [] then table
    else FileAll(table, builds[..|builds| - 1])[builds[|builds| - 1].id := builds[|builds| - 1]]
  }

  function ApplyEvent(table: Table, ev: Event): Table {
    match ev.kind
    case SnapshotKind => FileAll(map[], ev.builds)
    case BuildKind => if ev.build.Some? then table[ev.build.value.id := ev.build.value] else table
    case OtherKind(_) => table
  }

  function Fold(table: Table, events: seq<Event>): Table {
    if events == [] then table else ApplyEvent(Fold(table, events[..|events| - 1]), events[|events| - 1])
  }

  /** The client's table, emptied and refilled in place. */
  class Client {
    var table: Table

    constructor ()
      ensures table == map[]
    {
      table := map[];
    }

    method Apply(ev: Event)
      modifies this
      ensures table == ApplyEvent(old(table), ev)
    {
      if ev.kind.SnapshotKind? {
        var keys := table.Keys;
        while keys != {}
          invariant table.Keys == keys
          decreases keys
        {
          var k :| k in keys;
          table := table - {k};
          keys := keys - {k};
        }
        for i := 0 to |ev.builds|
          invariant table == FileAll(map[], ev.builds[..i])
        {
          assert ev.builds[..i + 1][..i] == ev.builds[..i];
          table := table[ev.builds[i].id := ev.builds[i]];
        }
        assert ev.builds[..|ev.builds|] == ev.builds;
      } else if ev.kind.BuildKind? && ev.build.Some? {
        table := table[ev.build.value.id := ev.build.value];
      }
    }
  }

  // ---- what the registry sends ----

  function BuildEvent(b: Build, now: Time): Event {
    Event(BuildKind, [], Some(ToApi(b, now)))
  }

  function BuildEvents(changed: seq<Build>, now: Time): seq<Event> {
    seq(|changed|, i requires 0 <= i < |changed| => BuildEvent(changed[i], now))
  }

  /** The records an operation announces, in the order it announces them. */
  predicate Announces(m: Builds, t: Timed, changed: seq<Build>) {
    match t.op
    case RegisterOp(b) => changed == if Registrable(b) then [Step(m, t)[b.id]] else []
    case DeregisterOp(id, exitCode) => changed == if Ends(m, id) then [Step(m, t)[id]] else []
    case UpsertOp(b, key) => changed == if Upsertable(b) then [Step(m, t)[key]] else []
    case ReapOp(seen) => AnnouncesReaped(m, seen, t.now, changed)
  }

  /** One announcement for each build that is reaped, in any order. */
  predicate AnnouncesReaped(m: Builds, seen: set<int>, now: Time, changed: seq<Build>) {
    && (forall b | b in changed :: b.id in m && Vanished(m[b.id], seen) && b == Reaped(m[b.id], now))
    && (forall k | k in m && Vanished(m[k], seen) :: Reaped(m[k], now) in changed)
    && (forall i, j | 0 <= i < j < |changed| :: changed[i].id != changed[j].id)
  }

  /** The wire writes times in whole seconds, and its strings are compared, so order is by seconds. */
  function Seconds(t: Time): int {
    t / 1_000_000_000
  }

  /** Every record once, in any order. */
  predicate IsListing(m: Builds, now: Time, builds: seq<ApiBuild>) {
    && (forall a | a in builds :: a.id in m && a == ToApi(m[a.id], now))
    && (forall k | k in m :: ToApi(m[k], now) in builds)
    && |builds| == |m|
  }

  /** The API snapshot: every record once, newest first. */
  predicate IsSnapshot(m: Builds, now: Time, builds: seq<ApiBuild>) {
    && IsListing(m, now, builds)
    && (forall i, j | 0 <= i < j < |builds| :: Seconds(builds[i].startTime) >= Seconds(builds[j].startTime))
  }

  /** These builds say of each registry key, and of nothing else, what its record says. */
  ghost predicate Tells(builds: seq<ApiBuild>, m: Builds, now: Time) {
    && (forall k | k in m :: exists a :: a in builds && a.id == k && Shows(a, m[k]) && Aged(a, m[k], now))
    && (forall a | a in builds :: a.id in m && Shows(a, m[a.id]) && Aged(a, m[a.id], now))
  }

  lemma SnapshotShows(m: Builds, now: Time, builds: seq<ApiBuild>)
    requires KeyedById(m) && IsSnapshot(m, now, builds)
    ensures Tells(builds, m, now)
  {
    hide Seconds, Aged, InMilliseconds, Milliseconds, Shows, ToApi;
    forall k | k in m
      ensures ToApi(m[k], now).id == k && Shows(ToApi(m[k], now), m[k]) && Aged(ToApi(m[k], now), m[k], now)
    {
      ToApiShows(m[k], now);
    }
  }

  /** A mutation together with what it announced, or some other event sent in between (metrics, alerts). */
  datatype Moment = Mutation(t: Timed, changed: seq<Build>) | Notice(name: string)

  predicate Serial(m: Builds, moments: seq<Moment>)
    decreases |moments|
  {
    moments == [] ||
    ((moments[0].Mutation? ==> Allowed(m, moments[0].t.op) && Announces(m, moments[0].t, moments[0].changed))
     && Serial(Next(m, moments[0]), moments[1..]))
  }

  function Next(m: Builds, moment: Moment): Builds {
    match moment
    case Mutation(t, _) => Step(m, t)
    case Notice(_) => m
  }

  function After(m: Builds, moments: seq<Moment>): Builds
    decreases |moments|
  {
    if moments == [] then m else After(Next(m, moments[0]), moments[1..])
  }

  function SentAt(moment: Moment): seq<Event> {
    match moment
    case Mutation(t, changed) => BuildEvents(changed, t.now)
    case Notice(name) => [Event(OtherKind(name), [], None)]
  }

  function Sent(moments: seq<Moment>): seq<Event> {
    if moments == [] then [] else SentAt(moments[0]) + Sent(moments[1..])
  }

  /** The client shows exactly the registry's builds, but for their ages. */
  predicate Agrees(table: Table, m: Builds) {
    && table.Keys == m.Keys
    && forall k | k in m ::
        && Ageless(table[k]) == Ageless(ToApi(m[k], 0))
        && (m[k].endTime.Some? ==> table[k] == ToApi(m[k], 0))
  }

  // ---- the refinement ----

  /** In agreement, the client shows each registry key with its record's own fields, and a dated build with its age. */
  lemma AgreementShows(table: Table, m: Builds)
    requires Agrees(table, m)
    ensures table.Keys == m.Keys
    ensures forall k | k in m :: Shows(table[k], m[k]) && (m[k].endTime.Some? ==> forall now :: Aged(table[k], m[k], now))
  {
    forall k | k in m
      ensures Shows(table[k], m[k]) && (m[k].endTime.Some? ==> forall now :: Aged(table[k], m[k], now))
    {
      ToApiShows(m[k], 0);
      var a := table[k];
      assert Ageless(a).state == a.state && Ageless(a).targets == a.targets;
    }
  }

  lemma {:induction false} FoldConcat(table: Table, xs: seq<Event>, ys: seq<Event>)
    ensures Fold(table, xs + ys) == Fold(Fold(table, xs), ys)
  {
    if ys == [] {
      assert xs + ys == xs;
    } else {
      assert (xs + ys)[..|xs + ys| - 1] == xs + ys[..|ys| - 1];
      FoldConcat(table, xs, ys[..|ys| - 1]);
    }
  }

  /** The table after some records of `m` have been filed in it. */
  predicate Filed(table: Table, r: Table, m: Builds, ids: set<string>, now: Time) {
    && r.Keys == table.Keys + ids
    && (forall k | k in table && k !in ids :: r[k] == table[k])
    && (forall k | k in ids :: k in m && r[k] == ToApi(m[k], now))
  }

  lemma FileOneMore(table: Table, r: Table, m: Builds, ids: set<string>, b: Build, now: Time)
    requires Filed(table, r, m, ids, now) && b.id in m && m[b.id] == b
    ensures Filed(table, r[b.id := ToApi(b, now)], m, ids + {b.id}, now)
  {
    hide ToApi;
  }

  lemma BuildEventsLast(front: seq<Build>, last: Build, now: Time)
    ensures var events := BuildEvents(front + [last], now);
      events != [] && events[..|events| - 1] == BuildEvents(front, now) && events[|events| - 1] == BuildEvent(last, now)
    ensures Ids(front + [last]) == Ids(front) + {last.id}
  {
  }

  lemma FoldLast(table: Table, events: seq<Event>)
    requires events != []
    ensures Fold(table, events) == ApplyEvent(Fold(table, events[..|events| - 1]), events[|events| - 1])
  {
  }

  /** Folding announcements of records that are current in `m` files just those, as `m` has them. */
  lemma {:induction false} FoldFiles(table: Table, m: Builds, changed: seq<Build>, now: Time)
    requires forall b | b in changed :: b.id in m && m[b.id] == b
    ensures Filed(table, Fold(table, BuildEvents(changed, now)), m, Ids(changed), now)
  {
    if changed != [] {
      var front, last := changed[..|changed| - 1], changed[|changed| - 1];
      assert ToApi(last, now).id == last.id;
      hide ToApi, Filed, Fold, FileAll, BuildEvents, Ids;
      FoldFiles(table, m, front, now);
      assert changed == front + [last];
      BuildEventsLast(front, last, now);
      FoldLast(table, BuildEvents(changed, now));
      FileOneMore(table, Fold(table, BuildEvents(front, now)), m, Ids(front), last, now);
    }
  }

  /** What is announced is what the registry now holds, and whatever changed is announced. */
  lemma AnnouncementsAreCurrent(m: Builds, t: Timed, changed: seq<Build>)
    requires KeyedById(m) && Allowed(m, t.op) && Announces(m, t, changed)
    ensures var r := Step(m, t);
      && r.Keys == m.Keys + Ids(changed)
      && (forall b | b in changed :: b.id in r && r[b.id] == b)
      && (forall k | k in m && k !in Ids(changed) :: k in r && r[k] == m[k])
  {
    var r := Step(m, t);
    match t.op
    case RegisterOp(b) =>
    case DeregisterOp(id, exitCode) =>
    case UpsertOp(b, key) =>
    case ReapOp(seen) =>
      forall k | k in m && Vanished(m[k], seen)
        ensures k in Ids(changed)
      {
        assert Reaped(m[k], t.now) in changed;
      }
  }

  lemma MomentKeepsAgreement(m: Builds, t: Timed, changed: seq<Build>, table: Table)
    requires KeyedById(m) && Allowed(m, t.op) && Announces(m, t, changed) && Agrees(table, m)
    ensures Agrees(Fold(table, BuildEvents(changed, t.now)), Step(m, t))
  {
    hide Step, Announces, Fold, BuildEvents;
    AnnouncementsAreCurrent(m, t, changed);
    FoldFiles(table, Step(m, t), changed, t.now);
  }

  /** A snapshot makes the client agree, whatever it showed before. */
  lemma SnapshotAgrees(m: Builds, now: Time, builds: seq<ApiBuild>, before: Table)
    requires KeyedById(m) && IsSnapshot(m, now, builds)
    ensures Agrees(ApplyEvent(before, Event(SnapshotKind, builds, None)), m)
  {
    hide ToApi, Ageless, Seconds;
    FileAllFiles(builds);
    var r := FileAll(map[], builds);
    forall k | k in r
      ensures k in m && r[k] == ToApi(m[k], now)
    {
      assert r[k] in builds;
    }
    forall k | k in m
      ensures k in r && Ageless(r[k]) == Ageless(ToApi(m[k], 0)) && (m[k].endTime.Some? ==> r[k] == ToApi(m[k], 0))
    {
      ToApiShows(m[k], now);
      assert ToApi(m[k], now) in builds;
      OnlyTheAgeIsDated(m[k], now);
    }
  }

  lemma OnlyTheAgeIsDated(b: Build, now: Time)
    ensures Ageless(ToApi(b, now)) == Ageless(ToApi(b, 0))
    ensures b.endTime.Some? ==> ToApi(b, now) == ToApi(b, 0)
  {
  }

  lemma {:induction false} FileAllFiles(builds: seq<ApiBuild>)
    ensures var r := FileAll(map[], builds);
      && (forall a | a in builds :: a.id in r)
      && (forall k | k in r :: r[k] in builds && r[k].id == k)
  {
    if builds != [] {
      FileAllFiles(builds[..|builds| - 1]);
      assert builds == builds[..|builds| - 1] + [builds[|builds| - 1]];
    }
  }

  lemma NextKeepsAgreement(m: Builds, moment: Moment, table: Table)
    requires KeyedById(m) && Serial(m, [moment]) && Agrees(table, m)
    ensures KeyedById(Next(m, moment)) && Agrees(Fold(table, SentAt(moment)), Next(m, moment))
  {
    hide Step, Announces, Agrees, ToApi;
    match moment
    case Mutation(t, changed) =>
      MomentKeepsAgreement(m, t, changed, table);
      StepKeepsKeys(m, t);
    case Notice(name) =>
      var ev := Event(OtherKind(name), [], None);
      assert [ev][..0] == [] && Fold(table, []) == table;
      assert Fold(table, [ev]) == ApplyEvent(Fold(table, [ev][..0]), ev);
  }

  /**
   * A client that agrees with the registry and then folds every event sent while the registry goes
   * through any serial run of mutations agrees with it at the end.
   */
  lemma {:induction false} ReplayRefinesRegistry(m: Builds, moments: seq<Moment>, table: Table)
    requires KeyedById(m) && Serial(m, moments) && Agrees(table, m)
    ensures KeyedById(After(m, moments)) && Agrees(Fold(table, Sent(moments)), After(m, moments))
    decreases |moments|
  {
    hide Announces, Agrees, ApplyEvent, Next, SentAt, KeyedById;
    if moments != [] {
      var first := moments[0];
      assert Serial(Next(m, first), []);
      assert [first][1..] == [];
      NextKeepsAgreement(m, first, table);
      ReplayRefinesRegistry(Next(m, first), moments[1..], Fold(table, SentAt(first)));
      FoldConcat(table, SentAt(first), Sent(moments[1..]));
    }
  }

  /**
   * A watch session: the snapshot, then every event since. If nothing was mutated between taking the
   * snapshot and subscribing, a client that has folded all the broadcasts since it subscribed shows the
   * registry as it is now.
   */
  lemma CaughtUpSessionShowsTheRegistry(m: Builds, now: Time, builds: seq<ApiBuild>, before: Table,
                                        moments: seq<Moment>, history: seq<Event>, start: nat)
    requires KeyedById(m) && IsSnapshot(m, now, builds) && Serial(m, moments)
    requires start <= |history| && history[start..] == Sent(moments)
    ensures Agrees(Fold(before, [Event(SnapshotKind, builds, None)] + history[start..]), After(m, moments))
  {
    hide Agrees, IsSnapshot, ToApi, Sent, After, Serial;
    var snapshot := Event(SnapshotKind, builds, None);
    SnapshotAgrees(m, now, builds, before);
    assert [snapshot][..0] == [] && Fold(before, [snapshot]) == ApplyEvent(before, snapshot);
    ReplayRefinesRegistry(m, moments, ApplyEvent(before, snapshot));
    FoldConcat(before, [snapshot], history[start..]);
  }

  // ---- a registry's whole history ----

  /** From `initial` the moments of `past` have led to `m` and have sent `history`. */
  ghost predicate Chronicles(initial: Builds, past: seq<Moment>, m: Builds, history: seq<Event>) {
    KeyedById(initial) && Serial(initial, past) && After(initial, past) == m && Sent(past) == history
  }

  lemma {:induction false} SerialConcat(m: Builds, xs: seq<Moment>, ys: seq<Moment>)
    ensures Serial(m, xs + ys) <==> Serial(m, xs) && Serial(After(m, xs), ys)
    ensures After(m, xs + ys) == After(After(m, xs), ys)
    ensures Sent(xs + ys) == Sent(xs) + Sent(ys)
    decreases |xs|
  {
    hide Announces, Next, SentAt;
    if xs == [] {
      assert xs + ys == ys;
    } else {
      assert (xs + ys)[1..] == xs[1..] + ys;
      SerialConcat(Next(m, xs[0]), xs[1..], ys);
    }
  }

  lemma ChronicleGrows(initial: Builds, past: seq<Moment>, m: Builds, history: seq<Event>, moment: Moment)
    requires Chronicles(initial, past, m, history) && Serial(m, [moment])
    ensures Chronicles(initial, past + [moment], Next(m, moment), history + SentAt(moment))
  {
    hide Announces, Next, SentAt;
    SerialConcat(initial, past, [moment]);
    assert [moment][1..] == [];
    assert Sent([moment]) == SentAt(moment) + Sent([]);
    assert After(m, [moment]) == Next(m, moment);
  }

  lemma MutationIsSerial(m: Builds, t: Timed, changed: seq<Build>)
    requires Allowed(m, t.op) && Announces(m, t, changed)
    ensures Serial(m, [Mutation(t, changed)])
  {
    var one := [Mutation(t, changed)];
    assert one[1..] == [];
    assert Serial(Next(m, one[0]), []);
  }
}
