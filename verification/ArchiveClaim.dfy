/** Several workers claiming the same room: row lock, unique constraint and soft lock,
    as a state machine over the single database steps. */
module ArchiveClaim {
  import opened Options
  import opened ArchiveRows

  type Worker = int

  /** Where a worker is inside its claim transaction. */
  datatype Phase =
    | Idle
    | Unseen                 // SELECT ... SKIP LOCKED came back empty
    | Missing                // and no committed row exists either
    | Holding                // holds the row lock, or its own uncommitted insert
    | Approved(checkedAt: int)

  /** `committed` tells whether the single row in `rows` is visible to others.
      `owners` have claimed the row and not yet begun to process its messages; `clocks`
      holds the clock readings of those that have, and are about to re-stamp the row.
      `claims` logs the stamps of the successful claims. */
  datatype World = World(
    now: int,
    rows: seq<Row>,
    committed: bool,
    lock: Option<Worker>,
    phases: map<Worker, Phase>,
    owners: set<Worker>,
    clocks: map<Worker, int>,
    claims: seq<int>)

  datatype Event =
    | Tick(elapsed: nat)
    | Select(w: Worker)
    | Exists(w: Worker)
    | Insert(w: Worker, job: int)
    | Check(w: Worker)
    | Stamp(w: Worker, job: int)
    | Rollback(w: Worker)
    | ReadClock(w: Worker)
    | Restamp(w: Worker)
    | SetStatus(status: JobStatus)
    | Prepare(job: int)

  /** The soft-lock timeout, and the longest time between a worker reading the clock
      for a re-stamp and that re-stamp reaching the row. */
  datatype Config = Config(timeout: nat, lag: nat)

  const INITIAL := World(0, [], false, None, map[], {}, map[], [])

  function PhaseOf(s: World, w: Worker): Phase {
    if w in s.phases then s.phases[w] else Idle
  }

  function Move(s: World, w: Worker, p: Phase): World {
    s.(phases := s.phases[w := p])
  }

  /** One database step, or None when the step cannot happen in this state. */
  function Step(c: Config, s: World, e: Event): Option<World> {
    match e
    case Tick(elapsed) => Some(s.(now := s.now + elapsed))
    case Select(w) =>
      if PhaseOf(s, w) != Idle then None
      else if s.rows != [] && s.committed && s.lock.None? then Some(Move(s, w, Holding).(lock := Some(w)))
      else Some(Move(s, w, Unseen))
    case Exists(w) =>
      if PhaseOf(s, w) != Unseen then None
      else Some(Move(s, w, if s.rows != [] && s.committed then Idle else Missing))
    case Insert(w, job) =>
      if PhaseOf(s, w) != Missing then None
      else if s.rows == [] then
        Some(Move(s, w, Holding).(rows := [NewRow(job)], committed := false, lock := Some(w)))
      else if s.committed then Some(Move(s, w, Idle))  // IntegrityError
      else None                                         // waits for the other insert
    case Check(w) =>
      if PhaseOf(s, w) != Holding || s.rows == [] then None
      else if s.rows[0].status == Finished || IsActivelyProcessed(s.rows[0], s.now, c.timeout) then
        Some(Move(s, w, Idle).(lock := None, committed := true))
      else Some(Move(s, w, Approved(s.now)))
    case Stamp(w, job) =>
      if !PhaseOf(s, w).Approved? || s.rows == [] then None
      else
        var row := s.rows[0].(startedAt := Some(s.now), job := job);
        Some(Move(s, w, Idle).(rows := [row], committed := true, lock := None,
                               owners := s.owners + {w}, claims := s.claims + [s.now]))
    case Rollback(w) =>
      if !(PhaseOf(s, w).Holding? || PhaseOf(s, w).Approved?) then None
      else if s.committed then Some(Move(s, w, Idle).(lock := None))
      else Some(Move(s, w, Idle).(lock := None, rows := []))
    case ReadClock(w) =>
      if w !in s.owners then None else Some(s.(owners := s.owners - {w}, clocks := s.clocks[w := s.now]))
    case Restamp(w) =>
      if w !in s.clocks || s.rows == [] || !s.committed || s.lock.Some? then None
      else if c.lag < s.now - s.clocks[w] then None
      else
        var row := s.rows[0].(startedAt := Some(s.clocks[w]), status := ProcessingMessages);
        Some(s.(rows := [row], clocks := s.clocks - {w}))
    case SetStatus(status) =>
      if s.rows == [] || !s.committed || s.lock.Some? then None
      else Some(s.(rows := [s.rows[0].(status := status)]))
    case Prepare(job) =>
      if s.lock.Some? then None  // waits for the claim
      else if s.rows == [] then Some(s.(rows := [NewRow(job)], committed := true))
      else if s.rows[0].status == Finished then Some(s)
      else Some(s.(rows := [s.rows[0].(job := job)]))
  }

  /** Neither FAILED nor FINISHED. */
  predicate Calm(s: World) {
    s.rows != [] ==> s.rows[0].status !in {Failed, Finished}
  }

  function Run(c: Config, s: World, events: seq<Event>): Option<World>
    decreases |events|
  {
    if events == [] then Some(s)
    else
      match Step(c, s, events[0])
      case None => None
      case Some(t) => Run(c, t, events[1..])
  }

  /** The row is neither FAILED nor FINISHED at any point of the run. */
  predicate CalmRun(c: Config, s: World, events: seq<Event>)
    decreases |events|
  {
    && Calm(s)
    && (events != [] && Step(c, s, events[0]).Some? ==> CalmRun(c, Step(c, s, events[0]).value, events[1..]))
  }

  predicate InTransaction(p: Phase) {
    p.Holding? || p.Approved?
  }

  /** There is at most one row, only the lock holder is past the SELECT, and an
      approved claim still sees the row its check was made on. */
  ghost predicate Locked(c: Config, s: World) {
    && |s.rows| <= 1
    && (s.lock.Some? ==> s.rows != [])
    && (s.rows != [] && !s.committed ==> s.lock.Some? && s.rows[0].startedAt.None?)
    && (forall w | w in s.phases && InTransaction(s.phases[w]) :: s.lock == Some(w))
    && (forall w | w in s.phases && s.phases[w].Approved? && s.rows != [] ::
          && s.phases[w].checkedAt <= s.now
          && !IsActivelyProcessed(s.rows[0], s.phases[w].checkedAt, c.timeout))
  }

  lemma StepKeepsLocked(c: Config, s: World, e: Event)
    requires Locked(c, s) && Step(c, s, e).Some?
    ensures Locked(c, Step(c, s, e).value)
  {}

  /** A room never has two rows, whatever the interleaving. */
  lemma {:induction false} OneRowPerRoom(c: Config, s: World, events: seq<Event>)
    requires Locked(c, s) && Run(c, s, events).Some?
    ensures Locked(c, Run(c, s, events).value) && |Run(c, s, events).value.rows| <= 1
    decreases |events|
  {
    if events != [] {
      StepKeepsLocked(c, s, events[0]);
      OneRowPerRoom(c, Step(c, s, events[0]).value, events[1..]);
    }
  }

  /** Stamps from index `from` on lie at least `gap` apart. */
  ghost predicate Apart(claims: seq<int>, from: nat, gap: int) {
    forall i, j | from <= i < j < |claims| :: claims[j] - claims[i] >= gap
  }

  /** Since claim number `from`, the row's stamp is at most `lag` older than any claim. */
  ghost predicate SoftLocked(c: Config, s: World, from: nat) {
    && from <= |s.claims|
    && Apart(s.claims, from, c.timeout - c.lag)
    && (from < |s.claims| ==>
          && s.rows != [] && s.committed && s.rows[0].startedAt.Some?
          && forall i | from <= i < |s.claims| ::
               s.claims[i] <= s.now && s.claims[i] - c.lag <= s.rows[0].startedAt.value)
  }

  lemma StepKeepsSoftLocked(c: Config, s: World, e: Event, from: nat)
    requires Locked(c, s) && SoftLocked(c, s, from)
    requires Step(c, s, e).Some? && Calm(s) && Calm(Step(c, s, e).value)
    ensures SoftLocked(c, Step(c, s, e).value, from)
  {
    var t := Step(c, s, e).value;
    if e.Stamp? {
      assert s.phases[e.w].Approved?;
      forall i | from <= i < |s.claims| ensures s.now - s.claims[i] >= c.timeout - c.lag {}
    } else {
      assert t.claims == s.claims;
    }
  }

  lemma {:induction false} CalmRunKeepsSoftLocked(c: Config, s: World, events: seq<Event>, from: nat)
    requires Locked(c, s) && SoftLocked(c, s, from) && CalmRun(c, s, events) && Run(c, s, events).Some?
    ensures SoftLocked(c, Run(c, s, events).value, from)
    decreases |events|
  {
    if events != [] {
      StepKeepsLocked(c, s, events[0]);
      StepKeepsSoftLocked(c, s, events[0], from);
      CalmRunKeepsSoftLocked(c, Step(c, s, events[0]).value, events[1..], from);
    }
  }

  /** After any history, two successful claims made while the row stays neither FAILED
      nor FINISHED are `timeout` apart, less the time a re-stamp may take to land. */
  lemma ClaimsAreApart(c: Config, history: seq<Event>, events: seq<Event>)
    requires Run(c, INITIAL, history).Some?
    requires var s := Run(c, INITIAL, history).value;
             CalmRun(c, s, events) && Run(c, s, events).Some?
    ensures var s := Run(c, INITIAL, history).value;
            Apart(Run(c, s, events).value.claims, |s.claims|, c.timeout - c.lag)
  {
    OneRowPerRoom(c, INITIAL, history);
    var s := Run(c, INITIAL, history).value;
    CalmRunKeepsSoftLocked(c, s, events, |s.claims|);
  }

  lemma Prepend(c: Config, s: World, e: Event, t: World, events: seq<Event>)
    requires Step(c, s, e) == Some(t) && Calm(s)
    ensures Run(c, s, [e] + events) == Run(c, t, events)
    ensures CalmRun(c, t, events) ==> CalmRun(c, s, [e] + events)
  {
    assert ([e] + events)[1..] == events;
  }

  /** What an undisturbed claim leaves behind. */
  function Claimed(s: World, w: Worker, job: int): World
    requires s.rows != []
  {
    s.(rows := [s.rows[0].(startedAt := Some(s.now), job := job)],
       phases := s.phases[w := Idle],
       owners := s.owners + {w},
       claims := s.claims + [s.now])
  }

  /** An undisturbed claim goes through exactly when the row is neither finished nor
      actively processed. */
  lemma ClaimGoesThrough(c: Config, s: World, w: Worker, job: int)
    requires |s.rows| == 1 && s.committed && s.lock.None? && PhaseOf(s, w) == Idle
    ensures var claim := [Select(w), Check(w), Stamp(w, job)];
            && (Run(c, s, claim).Some? <==>
                  s.rows[0].status != Finished && !IsActivelyProcessed(s.rows[0], s.now, c.timeout))
            && (Run(c, s, claim).Some? ==> Run(c, s, claim).value == Claimed(s, w, job))
            && (Run(c, s, claim).Some? && Calm(s) ==> CalmRun(c, s, claim))
  {
    var claim := [Select(w), Check(w), Stamp(w, job)];
    var s1 := Step(c, s, Select(w)).value;
    assert claim[1..] == [Check(w), Stamp(w, job)];
    assert claim[1..][1..] == [Stamp(w, job)];
    assert claim[1..][1..][1..] == [];
    var s2 := Step(c, s1, Check(w)).value;
    assert Run(c, s, claim) == Run(c, s1, claim[1..]) == Run(c, s2, claim[1..][1..]);
    if s.rows[0].status != Finished && !IsActivelyProcessed(s.rows[0], s.now, c.timeout) {
      var s3 := Step(c, s2, Stamp(w, job)).value;
      assert s3 == Claimed(s, w, job) by {
        assert s3.phases == s.phases[w := Idle];
      }
      assert Run(c, s2, claim[1..][1..]) == Run(c, s3, claim[1..][1..][1..]) == Some(s3);
      assert Calm(s) ==> CalmRun(c, s3, []) && CalmRun(c, s2, claim[1..][1..]) && CalmRun(c, s1, claim[1..]);
    } else {
      assert Step(c, s2, Stamp(w, job)).None?;
    }
  }

  lemma {:induction false} RunConcat(c: Config, s: World, a: seq<Event>, b: seq<Event>)
    requires Run(c, s, a).Some?
    ensures Run(c, s, a + b) == Run(c, Run(c, s, a).value, b)
    ensures CalmRun(c, s, a) && CalmRun(c, Run(c, s, a).value, b) ==> CalmRun(c, s, a + b)
    decreases |a|
  {
    if a == [] {
      assert a + b == b;
    } else {
      assert (a + b)[1..] == a[1..] + b;
      RunConcat(c, Step(c, s, a[0]).value, a[1..], b);
    }
  }

  /** A FAILED row excludes nobody: two workers claim it at the same instant. */
  lemma FailedRowIsClaimedTwice(c: Config, s: World, w: Worker, v: Worker, job: int)
    requires |s.rows| == 1 && s.committed && s.lock.None? && w != v
    requires PhaseOf(s, w) == Idle && PhaseOf(s, v) == Idle && s.rows[0].status == Failed
    ensures exists events ::
              Run(c, s, events).Some? && Run(c, s, events).value.claims == s.claims + [s.now, s.now]
  {
    var first, second := [Select(w), Check(w), Stamp(w, job)], [Select(v), Check(v), Stamp(v, job)];
    ClaimGoesThrough(c, s, w, job);
    ClaimGoesThrough(c, Claimed(s, w, job), v, job);
    RunConcat(c, s, first, second);
    var t := Run(c, s, first + second).value;
    assert t.claims == s.claims + [s.now, s.now];
  }

  ghost predicate CalmlyReaches(c: Config, s: World, t: World) {
    exists events :: CalmRun(c, s, events) && Run(c, s, events) == Some(t)
  }

  lemma ReachesInTwo(c: Config, s: World, e: Event, t: World, f: Event, u: World)
    requires Step(c, s, e) == Some(t) && Step(c, t, f) == Some(u) && Calm(s) && Calm(t) && Calm(u)
    ensures CalmlyReaches(c, s, u)
  {
    Prepend(c, t, f, u, []);
    Prepend(c, s, e, t, [f] + []);
    assert Run(c, s, [e] + ([f] + [])) == Some(u);
  }

  lemma ReachesByClaim(c: Config, s: World, w: Worker, job: int)
    requires |s.rows| == 1 && s.committed && s.lock.None? && PhaseOf(s, w) == Idle && Calm(s)
    requires !IsActivelyProcessed(s.rows[0], s.now, c.timeout)
    ensures CalmlyReaches(c, s, Claimed(s, w, job))
  {
    ClaimGoesThrough(c, s, w, job);
  }

  lemma ReachesTransitively(c: Config, s: World, t: World, u: World)
    requires CalmlyReaches(c, s, t) && CalmlyReaches(c, t, u)
    ensures CalmlyReaches(c, s, u)
  {
    var a :| CalmRun(c, s, a) && Run(c, s, a) == Some(t);
    var b :| CalmRun(c, t, b) && Run(c, t, b) == Some(u);
    RunConcat(c, s, a, b);
  }

  /** The bound cannot be improved: the late re-stamp of a worker that has claimed the row
      brings two later claims as close as that. */
  lemma LateRestampIsTight(c: Config, s: World, a: Worker, b: Worker, d: Worker, job: int)
    requires c.lag <= c.timeout && 0 < c.timeout
    requires |s.rows| == 1 && s.committed && s.lock.None? && Calm(s)
    requires PhaseOf(s, b) == Idle && PhaseOf(s, d) == Idle && b != d && a in s.owners
    requires s.rows[0].startedAt == Some(s.now - c.timeout)
    ensures exists t :: CalmlyReaches(c, s, t) && t.claims == s.claims + [s.now + c.lag, s.now + c.timeout]
  {
    var s1 := s.(owners := s.owners - {a}, clocks := s.clocks[a := s.now]);
    var s2 := s1.(now := s.now + c.lag);
    ReachesInTwo(c, s, ReadClock(a), s1, Tick(c.lag), s2);
    ReachesByClaim(c, s2, b, job);
    var s3 := Claimed(s2, b, job);
    var s4 := Step(c, s3, Restamp(a)).value;
    var s5 := s4.(now := s4.now + (c.timeout - c.lag));
    ReachesInTwo(c, s3, Restamp(a), s4, Tick(c.timeout - c.lag), s5);
    ReachesByClaim(c, s5, d, job);
    var s6 := Claimed(s5, d, job);
    ReachesTransitively(c, s, s2, s3);
    ReachesTransitively(c, s, s3, s5);
    ReachesTransitively(c, s, s5, s6);
    assert s6.claims == s.claims + [s.now + c.lag, s.now + c.timeout];
  }

  /** What the first claim of a room leaves behind, `elapsed` later. */
  function FirstClaim(a: Worker, job: int, elapsed: nat): World {
    World(elapsed, [NewRow(job).(startedAt := Some(0))], true, None, map[a := Idle], {a}, map[], [0])
  }

  function SeenMissing(a: Worker): World {
    World(0, [], false, None, map[a := Missing], {}, map[], [])
  }

  function Checked(a: Worker, job: int): World {
    World(0, [NewRow(job)], false, Some(a), map[a := Approved(0)], {}, map[], [])
  }

  lemma FirstSelect(c: Config, a: Worker)
    ensures CalmlyReaches(c, INITIAL, SeenMissing(a))
  {
    hide CalmlyReaches;
    var s1 := INITIAL.(phases := map[a := Unseen]);
    assert s1.phases[a := Missing] == map[a := Missing];
    ReachesInTwo(c, INITIAL, Select(a), s1, Exists(a), SeenMissing(a));
  }

  lemma FirstInsert(c: Config, a: Worker, job: int)
    ensures CalmlyReaches(c, SeenMissing(a), Checked(a, job))
  {
    hide CalmlyReaches;
    var s3 := World(0, [NewRow(job)], false, Some(a), map[a := Holding], {}, map[], []);
    assert SeenMissing(a).phases[a := Holding] == s3.phases;
    assert s3.phases[a := Approved(0)] == map[a := Approved(0)];
    ReachesInTwo(c, SeenMissing(a), Insert(a, job), s3, Check(a), Checked(a, job));
  }

  lemma FirstStamp(c: Config, a: Worker, job: int, elapsed: nat)
    ensures CalmlyReaches(c, Checked(a, job), FirstClaim(a, job, elapsed))
  {
    hide CalmlyReaches;
    var s := Checked(a, job);
    assert s.phases[a := Idle] == map[a := Idle] && s.owners + {a} == {a} && s.claims + [0] == [0];
    ReachesInTwo(c, s, Stamp(a, job), FirstClaim(a, job, 0), Tick(elapsed), FirstClaim(a, job, elapsed));
  }

  lemma FirstClaimIsReached(c: Config, a: Worker, job: int, elapsed: nat)
    ensures CalmlyReaches(c, INITIAL, FirstClaim(a, job, elapsed))
  {
    hide CalmlyReaches;
    FirstSelect(c, a);
    FirstInsert(c, a, job);
    FirstStamp(c, a, job, elapsed);
    ReachesTransitively(c, INITIAL, SeenMissing(a), Checked(a, job));
    ReachesTransitively(c, INITIAL, Checked(a, job), FirstClaim(a, job, elapsed));
  }

  /** From the start, with three workers that each claim the room in turn. */
  lemma LateRestampFromStart(c: Config, a: Worker, b: Worker, d: Worker, job: int)
    requires c.lag <= c.timeout && 0 < c.timeout && b != d
    ensures exists t :: CalmlyReaches(c, INITIAL, t) && t.claims == [0, c.timeout + c.lag, c.timeout + c.timeout]
  {
    hide CalmlyReaches;
    var s := FirstClaim(a, job, c.timeout);
    FirstClaimIsReached(c, a, job, c.timeout);
    LateRestampIsTight(c, s, a, b, d, job);
    var t :| CalmlyReaches(c, s, t) && t.claims == s.claims + [s.now + c.lag, s.now + c.timeout];
    ReachesTransitively(c, INITIAL, s, t);
  }
}
