/** The cooldown protocol of queue routing and of bulk-send progress: a lock key with a
    lifetime, and a pending marker that lets one rejected attempt schedule a retry. */
module Cooldown {
  import opened Options

  /** Lifetime of the lock, lifetime of the marker and countdown of the retry, and
      whether a pass deletes the lock when it ends (routing) or lets it expire (progress). */
  datatype Config = Config(ttl: nat, delay: nat, releases: bool)

  /** A pass between taking the lock and ending: its place in the run and its start time. */
  datatype Pass = Pass(order: nat, since: int)

  /** `order` numbers the steps of the run. `queue` holds the earliest start times of the
      attempts waiting in the broker. `rejected` attempts lost the lock and have yet to
      try the marker; `marked` ones set the marker and have yet to schedule the retry. */
  datatype World = World(
    now: int,
    order: nat,
    lock: Option<int>,
    marker: Option<int>,
    queue: multiset<int>,
    rejected: nat,
    marked: nat,
    running: set<Pass>,
    ended: set<nat>,
    triggers: set<nat>)

  datatype Event =
    | Tick(elapsed: nat)
    | Trigger
    | TryLock(eta: int)
    | TryMarker
    | Schedule
    | End(p: Pass)

  const INITIAL := World(0, 0, None, None, multiset{}, 0, 0, {}, {}, {})

  /** A key is there until its expiry time. */
  predicate Live(key: Option<int>, now: int) {
    key.Some? && now < key.value
  }

  function Step(c: Config, w: World, e: Event): Option<World> {
    var s := w.(order := w.order + 1);
    match e
    case Tick(elapsed) => Some(s.(now := s.now + elapsed))
    case Trigger => Some(s.(queue := s.queue + multiset{s.now}, triggers := s.triggers + {w.order}))
    case TryLock(eta) =>
      if eta !in s.queue || s.now < eta then None
      else
        var t := s.(queue := s.queue - multiset{eta});
        if Live(t.lock, t.now) then Some(t.(rejected := t.rejected + 1))
        else Some(t.(lock := Some(t.now + c.ttl), running := t.running + {Pass(w.order, t.now)}))
    case TryMarker =>
      if s.rejected == 0 then None
      else
        var t := s.(rejected := s.rejected - 1);
        if Live(t.marker, t.now) then Some(t)
        else Some(t.(marker := Some(t.now + c.delay), marked := t.marked + 1))
    case Schedule =>
      if s.marked == 0 then None
      else Some(s.(marked := s.marked - 1, queue := s.queue + multiset{s.now + c.delay}))
    case End(p) =>
      if p !in s.running then None
      else
        Some(s.(running := s.running - {p}, ended := s.ended + {p.order},
                lock := if c.releases then None else s.lock))
  }

  lemma StepRecords(c: Config, w: World, e: Event)
    requires Step(c, w, e).Some?
    ensures var t := Step(c, w, e).value;
            t.order == w.order + 1 && t.triggers == w.triggers + if e.Trigger? then {w.order} else {}
  {}

  function Run(c: Config, s: World, events: seq<Event>): Option<World>
    decreases |events|
  {
    if events == [] then Some(s)
    else
      match Step(c, s, events[0])
      case None => None
      case Some(t) => Run(c, t, events[1..])
  }

  /** An attempt is still to come that no pass has been started for yet. */
  predicate Busy(s: World) {
    s.queue != multiset{} || s.rejected > 0 || s.marked > 0
  }

  predicate Quiet(s: World) {
    !Busy(s) && s.running == {}
  }

  lemma RunningCanEnd(c: Config, w: World, p: Pass)
    requires p in w.running
    ensures Step(c, w, End(p)).Some?
  {}

  lemma QuietStaysQuiet(c: Config, w: World, e: Event)
    requires Quiet(w) && !e.Trigger? && Step(c, w, e).Some?
    ensures Quiet(Step(c, w, e).value)
  {}

  /** A pass that began after step `k`, running or ended. */
  predicate PassedSince(s: World, k: nat) {
    (exists p | p in s.running :: k < p.order) || (exists o | o in s.ended :: k < o)
  }

  /** While the marker is live, the retry it stands for is scheduled no earlier than its
      expiry, or about to be; and no retry is more than the delay away. */
  ghost predicate MarkerBacked(c: Config, s: World) {
    WithinDelay(c, s) && (Live(s.marker, s.now) ==> s.marked > 0 || exists eta | eta in s.queue :: s.marker.value <= eta)
  }

  ghost predicate WithinDelay(c: Config, s: World) {
    && (s.marker.Some? ==> s.marker.value <= s.now + c.delay)
    && (forall eta | eta in s.queue :: eta <= s.now + c.delay)
  }

  ghost predicate Awake(c: Config, s: World) {
    && MarkerBacked(c, s)
    && (forall k | k in s.triggers :: k < s.order && (Busy(s) || PassedSince(s, k)))
  }

  lemma InitialIsAwake(c: Config)
    ensures Awake(c, INITIAL)
  {}

  lemma StepKeepsWithinDelay(c: Config, s: World, e: Event)
    requires WithinDelay(c, s) && Step(c, s, e).Some?
    ensures WithinDelay(c, Step(c, s, e).value)
  {}

  lemma StepKeepsMarkerBacked(c: Config, s: World, e: Event)
    requires MarkerBacked(c, s) && Step(c, s, e).Some?
    ensures MarkerBacked(c, Step(c, s, e).value)
  {
    StepKeepsWithinDelay(c, s, e);
    if e.Tick? || e.Trigger? || e.End? {
      hide WithinDelay;
    }
    var t := Step(c, s, e).value;
    if Live(t.marker, t.now) && Live(s.marker, s.now) && s.marked == 0 {
      var eta :| eta in s.queue && s.marker.value <= eta;
      assert eta in t.queue;
    }
    if e.Schedule? {
      assert s.now + c.delay in t.queue;
    }
  }

  lemma PassedStays(c: Config, s: World, e: Event, k: nat)
    requires PassedSince(s, k) && Step(c, s, e).Some?
    ensures PassedSince(Step(c, s, e).value, k)
  {
    var t := Step(c, s, e).value;
    if p :| p in s.running && k < p.order {
      assert p in t.running || p.order in t.ended;
    } else {
      var o :| o in s.ended && k < o;
      assert o in t.ended;
    }
  }

  /** Work in hand is only ever turned into a pass: even an attempt that the marker turns
      away leaves the retry that the marker stands for. */
  lemma BusyStays(c: Config, s: World, e: Event)
    requires MarkerBacked(c, s) && Busy(s) && Step(c, s, e).Some?
    ensures Busy(Step(c, s, e).value) || Pass(s.order, s.now) in Step(c, s, e).value.running
  {
    var t := Step(c, s, e).value;
    if e.Trigger? || e.Schedule? {
      assert (if e.Trigger? then s.now else s.now + c.delay) in t.queue;
    }
  }

  lemma TriggerIsBusy(c: Config, s: World)
    requires Step(c, s, Trigger).Some?
    ensures Busy(Step(c, s, Trigger).value)
  {
    assert s.now in Step(c, s, Trigger).value.queue;
  }

  lemma StepKeepsAwake(c: Config, s: World, e: Event)
    requires Awake(c, s) && Step(c, s, e).Some?
    ensures Awake(c, Step(c, s, e).value)
  {
    hide Step, MarkerBacked, Busy, PassedSince;
    StepKeepsMarkerBacked(c, s, e);
    StepRecords(c, s, e);
    var t := Step(c, s, e).value;
    if Busy(s) {
      BusyStays(c, s, e);
    }
    forall k | k in t.triggers ensures k < t.order && (Busy(t) || PassedSince(t, k)) {
      if k !in s.triggers {
        TriggerIsBusy(c, s);
      } else if PassedSince(s, k) {
        PassedStays(c, s, e, k);
      } else if Pass(s.order, s.now) in t.running {
        PassingNow(t, Pass(s.order, s.now), k);
      }
    }
  }

  lemma PassingNow(s: World, p: Pass, k: nat)
    requires p in s.running && k < p.order
    ensures PassedSince(s, k)
  {}

  lemma {:induction false} RunKeepsAwake(c: Config, s: World, events: seq<Event>)
    requires Awake(c, s) && Run(c, s, events).Some?
    ensures Awake(c, Run(c, s, events).value)
    decreases |events|
  {
    if events != [] {
      StepKeepsAwake(c, s, events[0]);
      RunKeepsAwake(c, Step(c, s, events[0]).value, events[1..]);
    }
  }

  /** No lost wakeup: once nothing is scheduled, in flight or running, every trigger,
      rejected or not, has been followed by a pass that began after it. */
  lemma NoLostWakeup(c: Config, events: seq<Event>, k: nat)
    requires Run(c, INITIAL, events).Some?
    requires var s := Run(c, INITIAL, events).value; Quiet(s) && k in s.triggers
    ensures exists o | o in Run(c, INITIAL, events).value.ended :: k < o
  {
    RunKeepsAwake(c, INITIAL, events);
  }

  /** Every running pass is still within the lifetime of the lock it took. */
  predicate Prompt(c: Config, s: World) {
    forall p | p in s.running :: s.now < p.since + c.ttl
  }

  predicate PromptRun(c: Config, s: World, events: seq<Event>)
    decreases |events|
  {
    && Prompt(c, s)
    && (events != [] && Step(c, s, events[0]).Some? ==> PromptRun(c, Step(c, s, events[0]).value, events[1..]))
  }

  ghost predicate Exclusive(c: Config, s: World) {
    && (forall p, q | p in s.running && q in s.running :: p == q)
    && (forall p | p in s.running :: s.lock == Some(p.since + c.ttl))
  }

  /** Two passes under one key never overlap while passes end within the lock's lifetime. */
  lemma {:induction false} PassesNeverOverlap(c: Config, s: World, events: seq<Event>)
    requires Exclusive(c, s) && PromptRun(c, s, events) && Run(c, s, events).Some?
    ensures Exclusive(c, Run(c, s, events).value)
    decreases |events|
  {
    if events != [] {
      PassesNeverOverlap(c, Step(c, s, events[0]).value, events[1..]);
    }
  }

  /** So it is from the start of every run. */
  lemma PassesNeverOverlapFromStart(c: Config, events: seq<Event>)
    requires PromptRun(c, INITIAL, events) && Run(c, INITIAL, events).Some?
    ensures var s := Run(c, INITIAL, events).value; forall p, q | p in s.running && q in s.running :: p == q
  {
    PassesNeverOverlap(c, INITIAL, events);
  }

  /** A pass that outlives its lock is overlapped by the next due attempt, and when it
      ends it deletes the lock of that other pass. */
  lemma OverlongPassOverlaps(c: Config, s: World, p: Pass, eta: int)
    requires c.releases && 0 < c.ttl && p in s.running && p.order < s.order && s.lock == Some(p.since + c.ttl)
    requires p.since + c.ttl <= s.now && eta in s.queue && eta <= s.now
    ensures var t := Run(c, s, [TryLock(eta)]);
            && t.Some? && p in t.value.running && Pass(s.order, s.now) in t.value.running
            && Live(t.value.lock, s.now)
    ensures var u := Run(c, s, [TryLock(eta), End(p)]);
            u.Some? && Pass(s.order, s.now) in u.value.running && u.value.lock.None?
  {
    var t := Step(c, s, TryLock(eta)).value;
    assert [TryLock(eta)][1..] == [];
    assert [TryLock(eta), End(p)][1..] == [End(p)];
    assert [End(p)][1..] == [];
    var u := Step(c, t, End(p)).value;
    assert Run(c, t, [End(p)]) == Run(c, u, [End(p)][1..]);
  }

  // ---- The Celery task ----

  lemma RunOneMore(c: Config, s: World, events: seq<Event>, e: Event)
    requires Run(c, s, events).Some? && Step(c, Run(c, s, events).value, e).Some?
    ensures Run(c, s, events + [e]) == Step(c, Run(c, s, events).value, e)
    decreases |events|
  {
    if events == [] {
      assert (events + [e])[1..] == [];
    } else {
      assert (events + [e])[1..] == events[1..] + [e];
      RunOneMore(c, Step(c, s, events[0]).value, events[1..], e);
    }
  }

  lemma RunFirst(c: Config, s: World, e: Event)
    ensures Run(c, s, [e]) == Step(c, s, e)
  {
    assert [e][1..] == [];
  }

  /** The steps of an attempt that nothing interrupts, when its pass takes `duration`. */
  function Attempt(w: World, eta: int, duration: nat): seq<Event> {
    if !Live(w.lock, w.now) then [TryLock(eta), Tick(duration), End(Pass(w.order, w.now))]
    else if Live(w.marker, w.now) then [TryLock(eta), TryMarker]
    else [TryLock(eta), TryMarker, Schedule]
  }

  lemma LockIsTried(c: Config, w: World, eta: int)
    requires eta in w.queue && eta <= w.now
    ensures Live(w.lock, w.now) ==>
      Step(c, w, TryLock(eta)) ==
      Some(World(w.now, w.order + 1, w.lock, w.marker, w.queue - multiset{eta}, w.rejected + 1, w.marked, w.running, w.ended, w.triggers))
    ensures !Live(w.lock, w.now) ==>
      Step(c, w, TryLock(eta)) ==
      Some(World(w.now, w.order + 1, Some(w.now + c.ttl), w.marker, w.queue - multiset{eta}, w.rejected, w.marked,
                 w.running + {Pass(w.order, w.now)}, w.ended, w.triggers))
  {}

  /** The keys of one queue, sector or bulk send, and the Celery task that they pace. */
  class PacedTask {
    const c: Config
    var now: int
    var lock: Option<int>
    var marker: Option<int>
    var queue: multiset<int>
    ghost var order: nat
    ghost var rejected: nat
    ghost var marked: nat
    ghost var running: set<Pass>
    ghost var ended: set<nat>
    ghost var triggers: set<nat>

    constructor (c: Config)
      ensures this.c == c && State() == INITIAL
    {
      this.c := c;
      now, lock, marker, queue := 0, None, None, multiset{};
      order, rejected, marked, running, ended, triggers := 0, 0, 0, {}, {}, {};
    }

    ghost function State(): World
      reads this
    {
      World(now, order, lock, marker, queue, rejected, marked, running, ended, triggers)
    }

    /** The cache's add: sets the key unless it is live. */
    method Add(key: Option<int>, timeout: nat) returns (after: Option<int>, added: bool)
      ensures added <==> !Live(key, now)
      ensures after == if added then Some(now + timeout) else key
    {
      added := !(key.Some? && now < key.value);
      after := if added then Some(now + timeout) else key;
    }

    method TakeLock(eta: int) returns (acquired: bool)
      requires eta in queue && eta <= now
      modifies this
      ensures acquired <==> !Live(old(lock), old(now))
      ensures now == old(now) && marker == old(marker)
      ensures if acquired then Pass(old(order), old(now)) in running else rejected > 0
      ensures Step(c, old(State()), TryLock(eta)) == Some(State())
    {
      hide Step;
      LockIsTried(c, State(), eta);
      queue := queue - multiset{eta};
      lock, acquired := Add(lock, c.ttl);
      order := order + 1;
      if acquired {
        running := running + {Pass(old(order), now)};
      } else {
        rejected := rejected + 1;
      }
    }

    method SetMarker() returns (added: bool)
      requires rejected > 0
      modifies this
      ensures added <==> !Live(old(marker), old(now))
      ensures added ==> marked > 0
      ensures Step(c, old(State()), TryMarker) == Some(State())
    {
      marker, added := Add(marker, c.delay);
      marked := marked + if added then 1 else 0;
      rejected, order := rejected - 1, order + 1;
    }

    method ApplyAsync()
      requires marked > 0
      modifies this
      ensures Step(c, old(State()), Schedule) == Some(State())
    {
      queue := queue + multiset{now + c.delay};
      marked, order := marked - 1, order + 1;
    }

    method WorkFor(duration: nat)
      modifies this
      ensures running == old(running)
      ensures Step(c, old(State()), Tick(duration)) == Some(State())
    {
      now, order := now + duration, order + 1;
    }

    /** The lock is deleted at the end of a pass, or left to expire. */
    method EndPass(ghost p: Pass)
      requires p in running
      modifies this
      ensures Step(c, old(State()), End(p)) == Some(State())
    {
      if c.releases {
        lock := None;
      }
      running, ended, order := running - {p}, ended + {p.order}, order + 1;
    }

    /** Runs an attempt that is due. */
    method Execute(eta: int, duration: nat) returns (acquired: bool)
      requires eta in queue && eta <= now
      modifies this
      ensures acquired <==> !Live(old(lock), old(now))
      ensures Run(c, old(State()), Attempt(old(State()), eta, duration)) == Some(State())
    {
      hide Step, Run;
      ghost var w := State();
      acquired := TakeLock(eta);
      RunFirst(c, w, TryLock(eta));
      if !acquired {
        var added := SetMarker();
        RunOneMore(c, w, [TryLock(eta)], TryMarker);
        assert [TryLock(eta)] + [TryMarker] == [TryLock(eta), TryMarker];
        if added {
          ApplyAsync();
          RunOneMore(c, w, [TryLock(eta), TryMarker], Schedule);
          assert [TryLock(eta), TryMarker] + [Schedule] == [TryLock(eta), TryMarker, Schedule];
        }
      } else {
        WorkFor(duration);
        RunOneMore(c, w, [TryLock(eta)], Tick(duration));
        assert [TryLock(eta)] + [Tick(duration)] == [TryLock(eta), Tick(duration)];
        ghost var p := Pass(w.order, w.now);
        EndPass(p);
        RunOneMore(c, w, [TryLock(eta), Tick(duration)], End(p));
        assert [TryLock(eta), Tick(duration)] + [End(p)] == [TryLock(eta), Tick(duration), End(p)];
      }
    }
  }
}
