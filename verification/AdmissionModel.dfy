/**
 * The admission engine as a value, and each of its critical sections as a function on that value.
 *
 * Waiters are numbered by creation: ticket `t` is the `t`-th waiter ever created, so `waiters` is
 * the heap of waiter objects and a ticket is a reference to one of them. Timers are numbered alike.
 */
module AdmissionModel {
  import opened Wrappers
  import opened Targets

  /** Nanoseconds. */
  type Time = int

  datatype Verdict = Allow | Queue | Deny

  datatype Request = Request(id: string, worktree: string, pid: int, targets: string)

  datatype WaiterState = Queued | Admitted | Done

  /** `buffer` is the one-slot verdict channel; `lastDetach` is None for the zero time. */
  datatype WaiterView = WaiterView(
    req: Request, state: WaiterState, connected: bool, lastDetach: Option<Time>, buffer: Option<Verdict>)

  /** A soft-retry timer; `live` until it fires or is stopped. */
  datatype TimerView = TimerView(id: string, delay: int, live: bool)

  datatype Record = Record(targets: set<string>, admittedAt: Time)

  datatype ActiveBuild = ActiveBuild(id: string, targets: set<string>, pid: int, startedAt: Time)

  datatype Policy = Policy(maxConcurrent: int, cpuHigh: real, ramMax: int, window: int, grace: int)

  /** The semaphore never has fewer than one slot. */
  function Slots(p: Policy): int {
    if p.maxConcurrent < 1 then 1 else p.maxConcurrent
  }

  datatype Engine = Engine(
    waiters: seq<WaiterView>,
    queue: seq<nat>,
    byID: map<string, nat>,
    paused: bool,
    draining: bool,
    recentlyAdmitted: nat,
    timers: seq<TimerView>,
    retryTimers: map<string, nat>,
    held: set<string>,
    cpu: real,
    ramP: int,
    recent: map<string, Record>)

  const EMPTY_ENGINE := Engine([], [], map[], false, false, 0, [], map[], {}, 0.0, 1, map[])

  /** Every ticket and timer number in use refers to an object that exists. */
  predicate Bounded(e: Engine) {
    && (forall i | 0 <= i < |e.queue| :: e.queue[i] < |e.waiters|)
    && (forall id | id in e.byID :: e.byID[id] < |e.waiters|)
    && (forall id | id in e.retryTimers :: e.retryTimers[id] < |e.timers|)
  }

  // ---- gates ----

  predicate SlotFree(p: Policy, e: Engine, id: string) {
    id in e.held || |e.held| < Slots(p)
  }

  const RAMP_PER_HEAD := 0.10
  const LOAD_RETRY: int := 2_000_000_000

  predicate LoadAdmits(p: Policy, cpu: real, ramP: int, recentlyAdmitted: nat) {
    && !(p.cpuHigh > 0.0 && cpu + recentlyAdmitted as real * RAMP_PER_HEAD >= p.cpuHigh)
    && !(p.ramMax > 0 && ramP > p.ramMax)
  }

  /** An overlapping build admitted or started at `at` holds `want` back at `now`. */
  predicate Blocks(window: int, now: Time, want: set<string>, targets: set<string>, at: Time) {
    0 <= now - at < window && Overlap(want, targets)
  }

  function BlockingRecords(window: int, now: Time, id: string, want: set<string>, recent: map<string, Record>): set<Record> {
    set k | k in recent && k != id && Blocks(window, now, want, recent[k].targets, recent[k].admittedAt) :: recent[k]
  }

  function AsRecord(b: ActiveBuild): Record {
    Record(ToSet(b.targets), b.startedAt)
  }

  function BlockingBuilds(window: int, now: Time, id: string, want: set<string>, builds: seq<ActiveBuild>): set<Record> {
    set b | b in builds && b.id != id && Blocks(window, now, want, ToSet(b.targets), b.startedAt) :: AsRecord(b)
  }

  function Blocking(window: int, now: Time, id: string, want: set<string>,
                    recent: map<string, Record>, builds: seq<ActiveBuild>): set<Record> {
    BlockingRecords(window, now, id, want, recent) + BlockingBuilds(window, now, id, want, builds)
  }

  ghost predicate IsLatest(r: Record, rs: set<Record>) {
    r in rs && forall x | x in rs :: x.admittedAt <= r.admittedAt
  }

  lemma {:induction false} LatestExists(rs: set<Record>)
    requires rs != {}
    ensures exists r :: IsLatest(r, rs)
  {
    var r :| r in rs;
    var rest := rs - {r};
    if rest == {} {
      assert rs == {r};
      assert IsLatest(r, rs);
    } else {
      LatestExists(rest);
      var m :| IsLatest(m, rest);
      assert rs == rest + {r};
      assert IsLatest(if m.admittedAt < r.admittedAt then r else m, rs);
    }
  }

  ghost function LatestDate(rs: set<Record>): (d: Time)
    requires rs != {}
    ensures exists r :: r in rs && r.admittedAt == d
    ensures forall x | x in rs :: x.admittedAt <= d
  {
    LatestExists(rs);
    var r :| IsLatest(r, rs);
    r.admittedAt
  }

  /** The stagger gate's hold: what is left of the window of the LATEST blocking build; 0 admits. */
  ghost function Hold(window: int, now: Time, req: Request, recent: map<string, Record>, builds: seq<ActiveBuild>): int {
    var want := Normalised(req.targets);
    if window <= 0 || want == {} then 0
    else
      var rs := Blocking(window, now, req.id, want, recent, builds);
      if rs == {} then 0 else window - (now - LatestDate(rs))
  }

  function Fresh(window: int, now: Time, recent: map<string, Record>): map<string, Record> {
    map k | k in recent && now - recent[k].admittedAt < window :: recent[k]
  }

  /** The records after a Try: the walk over them drops the aged ones. */
  function AfterTry(window: int, now: Time, req: Request, recent: map<string, Record>): map<string, Record> {
    if window <= 0 || Normalised(req.targets) == {} then recent else Fresh(window, now, recent)
  }

  // ---- critical sections ----

  function Refresh(w: WaiterView, req: Request): WaiterView {
    w.(connected := true,
       req := w.req.(pid := if req.pid != 0 then req.pid else w.req.pid,
                     targets := if req.targets != "" then req.targets else w.req.targets,
                     worktree := if req.worktree != "" then req.worktree else w.req.worktree))
  }

  function TicketFor(e: Engine, id: string): nat {
    if id in e.byID then e.byID[id] else |e.waiters|
  }

  function Attach(e: Engine, req: Request): Engine
    requires Bounded(e)
  {
    var t := TicketFor(e, req.id);
    if req.id in e.byID then
      e.(waiters := e.waiters[t := Refresh(e.waiters[t], req)])
    else
      e.(waiters := e.waiters + [WaiterView(req, Queued, true, None, None)],
         queue := e.queue + [t],
         byID := e.byID[req.id := t])
  }

  function Detach(e: Engine, t: nat, now: Time): Engine
    requires t < |e.waiters|
  {
    e.(waiters := e.waiters[t := e.waiters[t].(connected := false, lastDetach := Some(now))])
  }

  /** The verdict taken out of the buffer by a polling handler. */
  function Receive(e: Engine, t: nat): Engine
    requires t < |e.waiters|
  {
    e.(waiters := e.waiters[t := e.waiters[t].(buffer := None)])
  }

  function StopTimer(timers: seq<TimerView>, h: nat): seq<TimerView>
    requires h < |timers|
  {
    timers[h := timers[h].(live := false)]
  }

  function DropWaiter(e: Engine, id: string): Engine
    requires Bounded(e)
  {
    if id in e.byID then
      e.(waiters := e.waiters[e.byID[id] := e.waiters[e.byID[id]].(state := Done)], byID := e.byID - {id})
    else e
  }

  function DropTimer(e: Engine, id: string): Engine
    requires forall k | k in e.retryTimers :: e.retryTimers[k] < |e.timers|
  {
    if id in e.retryTimers then
      e.(timers := StopTimer(e.timers, e.retryTimers[id]), retryTimers := e.retryTimers - {id})
    else e
  }

  /** The part of Release under the engine lock. */
  function ReleaseEntry(e: Engine, id: string): Engine
    requires Bounded(e)
  {
    DropTimer(DropWaiter(e, id), id)
  }

  /** The gate releases of Release; only the semaphore keeps occupancy. */
  function ReleaseSlot(e: Engine, id: string): Engine {
    e.(held := e.held - {id})
  }

  predicate Stale(w: WaiterView, now: Time, grace: int) {
    w.state.Queued? && !w.connected && w.lastDetach.Some? && now - w.lastDetach.value >= grace
  }

  function KeptQueue(waiters: seq<WaiterView>, queue: seq<nat>, now: Time, grace: int): seq<nat>
    requires forall i | 0 <= i < |queue| :: queue[i] < |waiters|
  {
    if queue == [] then []
    else
      var front := queue[..|queue| - 1];
      var last := queue[|queue| - 1];
      KeptQueue(waiters, front, now, grace) + if Stale(waiters[last], now, grace) then [] else [last]
  }

  function StaleIn(waiters: seq<WaiterView>, queue: seq<nat>, now: Time, grace: int): set<nat>
    requires forall i | 0 <= i < |queue| :: queue[i] < |waiters|
  {
    set t | t in queue && Stale(waiters[t], now, grace)
  }

  function MarkDone(waiters: seq<WaiterView>, ts: set<nat>): seq<WaiterView> {
    seq(|waiters|, t requires 0 <= t < |waiters| => if t in ts then waiters[t].(state := Done) else waiters[t])
  }

  function IdsOf(waiters: seq<WaiterView>, ts: set<nat>): set<string>
    requires forall t | t in ts :: t < |waiters|
  {
    set t | t in ts :: waiters[t].req.id
  }

  function GcQueued(e: Engine, now: Time, grace: int): Engine
    requires Bounded(e)
  {
    var stale := StaleIn(e.waiters, e.queue, now, grace);
    e.(waiters := MarkDone(e.waiters, stale),
       queue := KeptQueue(e.waiters, e.queue, now, grace),
       byID := e.byID - IdsOf(e.waiters, stale))
  }

  function ArmTimer(e: Engine, id: string, delay: int): Engine
    requires Bounded(e)
  {
    if delay <= 0 then e
    else
      var stopped := if id in e.retryTimers then StopTimer(e.timers, e.retryTimers[id]) else e.timers;
      e.(timers := stopped + [TimerView(id, delay, true)], retryTimers := e.retryTimers[id := |e.timers|])
  }

  /** The non-blocking send: a full buffer keeps what it has. */
  function Deliver(w: WaiterView, v: Verdict): WaiterView {
    if w.buffer.None? then w.(buffer := Some(v)) else w
  }

  predicate HasHead(e: Engine) {
    e.queue != [] && e.queue[0] < |e.waiters|
  }

  function Head(e: Engine): WaiterView
    requires HasHead(e)
  {
    e.waiters[e.queue[0]]
  }

  function PopHead(e: Engine): (r: Engine)
    requires HasHead(e)
    ensures Bounded(e) ==> Bounded(r)
  {
    e.(queue := e.queue[1..])
  }

  function DenyHead(e: Engine): (r: Engine)
    requires HasHead(e)
    ensures Bounded(e) ==> Bounded(r)
  {
    e.(waiters := e.waiters[e.queue[0] := Deliver(Head(e), Deny).(state := Done)],
       queue := e.queue[1..],
       byID := e.byID - {Head(e).req.id})
  }

  function TakeSlot(e: Engine): (r: Engine)
    requires HasHead(e)
    ensures Bounded(e) ==> Bounded(r)
  {
    e.(held := e.held + {Head(e).req.id})
  }

  function TakeRecord(e: Engine, now: Time): (r: Engine)
    requires HasHead(e)
    ensures Bounded(e) ==> Bounded(r)
  {
    e.(recent := e.recent[Head(e).req.id := Record(Normalised(Head(e).req.targets), now)])
  }

  function AdmitHead(e: Engine): (r: Engine)
    requires HasHead(e)
    ensures Bounded(e) ==> Bounded(r)
  {
    e.(waiters := e.waiters[e.queue[0] := Deliver(Head(e).(state := Admitted), Allow)],
       queue := e.queue[1..],
       recentlyAdmitted := e.recentlyAdmitted + 1)
  }

  /** The snapshot entry of a build admitted in this very pass. */
  function JustAdmitted(req: Request, now: Time): ActiveBuild {
    ActiveBuild(req.id, Normalised(req.targets), req.pid, now)
  }
}
