/** A watch session: one snapshot, one subscription, and then whatever the hub delivers. */
module Session {
  import opened Wrappers
  import opened RegistryModel
  import opened RegistryLaws
  import opened Replay
  import opened EventHub
  import R = Registry

  /** The snapshot is taken first and the subscription made after it, with nothing in between. */
  method Open(reg: R.Registry, now: Time) returns (builds: seq<ApiBuild>, sub: Subscriber)
    requires reg.Valid()
    modifies reg.hub
    ensures reg.Valid() && fresh(sub) && sub in reg.hub.subs
    ensures reg.hub.history == old(reg.hub.history) && reg.View() == old(reg.View()) && reg.past == old(reg.past)
    ensures IsSnapshot(reg.View(), now, builds) && sub.start == |reg.hub.history| && sub.Seen() == []
    ensures old(reg.Chronicled()) ==> reg.Chronicled() && sub.start == |Sent(reg.past)|
  {
    hide IsSnapshot;
    ghost var m := reg.View();
    builds := reg.SnapshotApi(now);
    assert reg.View() == m;
    sub := reg.hub.Subscribe();
    assert reg.View() == m;
  }

  /**
   * A subscriber that subscribed after the `n`-th moment of the registry's past, that is still subscribed and
   * that has taken out all its events: folding what it received over the snapshot of that moment shows the
   * registry as it is now, ages aside.
   */
  lemma DrainedSubscriberShowsTheRegistry(reg: R.Registry, sub: Subscriber, n: nat, now: Time, builds: seq<ApiBuild>,
                                          before: Table)
    requires reg.Valid() && reg.Chronicled() && sub in reg.hub.subs && sub.buffer == []
    requires n <= |reg.past| && sub.start == |Sent(reg.past[..n])|
    requires IsSnapshot(After(reg.initial, reg.past[..n]), now, builds)
    ensures Agrees(Fold(before, [Event(SnapshotKind, builds, None)] + sub.received), reg.View())
    ensures var table, m := Fold(before, [Event(SnapshotKind, builds, None)] + sub.received), reg.View();
      && table.Keys == m.Keys
      && forall k | k in m :: Shows(table[k], m[k]) && (m[k].endTime.Some? ==> forall now :: Aged(table[k], m[k], now))
  {
    hide IsSnapshot, Agrees, Fold, R.Registry.Filed;
    var first, since := reg.past[..n], reg.past[n..];
    assert reg.past == first + since;
    SerialConcat(reg.initial, first, since);
    SerialKeepsKeys(reg.initial, first);
    assert reg.hub.InStep(sub);
    assert sub.Seen() == sub.received;
    assert reg.hub.history[sub.start..] == Sent(since);
    assert sub.received == reg.hub.history[sub.start..];
    CaughtUpSessionShowsTheRegistry(After(reg.initial, first), now, builds, before, since, reg.hub.history, sub.start);
    AgreementShows(Fold(before, [Event(SnapshotKind, builds, None)] + sub.received), reg.View());
  }

  /** Between two takings the subscriber's events only grow by what is broadcast: nothing is missed or repeated. */
  lemma SubscriberMissesNothing(reg: R.Registry, sub: Subscriber, n: nat)
    requires reg.Valid() && reg.Chronicled() && sub in reg.hub.all
    requires n <= |reg.past| && sub.start == |Sent(reg.past[..n])|
    ensures sub.Seen() <= Sent(reg.past[n..])
    ensures sub in reg.hub.subs ==> sub.Seen() == Sent(reg.past[n..])
  {
    hide R.Registry.Filed, KeyedById, Serial, After;
    var first, since := reg.past[..n], reg.past[n..];
    assert reg.past == first + since;
    SerialConcat(reg.initial, first, since);
    assert reg.hub.InStep(sub);
    assert reg.hub.history[sub.start..] == Sent(since);
  }

  lemma {:induction false} SerialKeepsKeys(m: Builds, moments: seq<Moment>)
    requires KeyedById(m) && Serial(m, moments)
    ensures KeyedById(After(m, moments))
    decreases |moments|
  {
    hide Announces, KeyedById, Step;
    if moments != [] {
      if moments[0].Mutation? {
        StepKeepsKeys(m, moments[0].t);
      }
      SerialKeepsKeys(Next(m, moments[0]), moments[1..]);
    }
  }
}
