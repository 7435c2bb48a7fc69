/** Metric-goal alerts of one metric: each sweep compares the projects in breach with the
    keys the previous sweep left in Redis. */
module MetricGoals {
  import opened Arithmetic
  import opened Options

  type Project = string

  /** A project with at least one room in breach. */
  datatype Violation = Violation(
    project: Project,
    violatingCount: nat,
    roomsThresholdCount: nat,
    emailEnabled: bool,
    maxValueSeconds: int)
  {
    predicate MeetsRoomsThreshold() {
      violatingCount >= roomsThresholdCount
    }

    /** Enough rooms in breach, on a goal that sends email. */
    predicate Alerts() {
      emailEnabled && MeetsRoomsThreshold()
    }
  }

  // ---- Thresholds ----

  const DEFAULT_ROOMS_THRESHOLD_COUNT: nat := 5

  function Max(a: nat, b: nat): nat {
    if a < b then b else a
  }

  /** A percentage of the active rooms takes precedence over the room count. */
  function ResolveThresholdCount(percent: Option<nat>, count: nat, activeRooms: Option<nat>): nat {
    if percent.Some? && percent.value != 0 && activeRooms.Some? then
      Max(1, CeilDiv(activeRooms.value * percent.value, 100))
    else if count != 0 then count
    else DEFAULT_ROOMS_THRESHOLD_COUNT
  }

  /** Under a percent goal, the threshold is met exactly when some room is in breach and
      the rooms in breach make up the percentage. */
  lemma PercentThresholdIsExact(v: Violation, percent: nat, count: nat, activeRooms: nat)
    requires 0 < percent
    requires v.roomsThresholdCount == ResolveThresholdCount(Some(percent), count, Some(activeRooms))
    ensures v.MeetsRoomsThreshold() <==> 1 <= v.violatingCount && activeRooms * percent <= 100 * v.violatingCount
  {
    CeilDivIsLeast(activeRooms * percent, 100, v.violatingCount);
  }

  // ---- Detection for one goal ----

  const MICROS: int := 1000000

  predicate InBreach(since: int, now: int, thresholdSeconds: nat) {
    since <= now - thresholdSeconds * MICROS
  }

  function Breaching(since: seq<int>, now: int, thresholdSeconds: nat): (b: seq<int>)
    ensures forall t | t in b :: t in since && InBreach(t, now, thresholdSeconds)
    ensures forall t | t in since && InBreach(t, now, thresholdSeconds) :: t in b
    ensures |b| <= |since|
  {
    if since == [] then []
    else (if InBreach(since[0], now, thresholdSeconds) then [since[0]] else [])
         + Breaching(since[1..], now, thresholdSeconds)
  }

  function MaxOf(q: seq<int>): (m: int)
    requires q != []
    ensures m in q && forall t | t in q :: t <= m
  {
    if |q| == 1 then q[0]
    else
      var m := MaxOf(q[1..]);
      assert forall t | t in q :: t == q[0] || t in q[1..];
      if q[0] < m then m else q[0]
  }

  function AgeSeconds(since: int, now: int): int {
    (now - since) / MICROS
  }

  /** The aggregate for one goal over the start times of the rooms' waits, in microseconds. */
  function DetectGoal(project: Project, since: seq<int>, now: int, thresholdSeconds: nat, roomsThreshold: nat,
                      emailEnabled: bool): Option<Violation>
  {
    var breaching := Breaching(since, now, thresholdSeconds);
    if breaching == [] then None
    else
      Some(Violation(project, |breaching|, roomsThreshold, emailEnabled, AgeSeconds(MaxOf(breaching), now)))
  }

  /** The reported maximum is the age of the youngest wait in breach: at least the
      threshold, at most any wait in breach, and the longest one only when all agree. */
  lemma ReportedMaximumIsTheYoungest(project: Project, since: seq<int>, now: int, thresholdSeconds: nat,
                                     roomsThreshold: nat, emailEnabled: bool)
    requires DetectGoal(project, since, now, thresholdSeconds, roomsThreshold, emailEnabled).Some?
    ensures var v := DetectGoal(project, since, now, thresholdSeconds, roomsThreshold, emailEnabled).value;
            && thresholdSeconds <= v.maxValueSeconds
            && (forall t | t in since && InBreach(t, now, thresholdSeconds) :: v.maxValueSeconds <= AgeSeconds(t, now))
            && ((forall t | t in since && InBreach(t, now, thresholdSeconds) :: AgeSeconds(t, now) <= v.maxValueSeconds)
                <==>
                (forall t, u | t in since && u in since && InBreach(t, now, thresholdSeconds)
                               && InBreach(u, now, thresholdSeconds) :: AgeSeconds(t, now) == AgeSeconds(u, now)))
  {}

  /** With waits of different ages in breach, the longest is not the one reported. */
  lemma LongestWaitIsNotReported(project: Project, since: seq<int>, now: int, thresholdSeconds: nat,
                                 roomsThreshold: nat, emailEnabled: bool, longest: int, other: int)
    requires longest in since && other in since
    requires InBreach(longest, now, thresholdSeconds) && InBreach(other, now, thresholdSeconds)
    requires AgeSeconds(other, now) < AgeSeconds(longest, now)
    ensures var v := DetectGoal(project, since, now, thresholdSeconds, roomsThreshold, emailEnabled);
            v.Some? && v.value.maxValueSeconds < AgeSeconds(longest, now)
  {
    assert other in Breaching(since, now, thresholdSeconds);
  }

  lemma TwoWaits(project: Project)
    ensures DetectGoal(project, [0, 60 * MICROS], 100 * MICROS, 30, 1, true) == Some(Violation(project, 2, 1, true, 40))
    ensures AgeSeconds(0, 100 * MICROS) == 100
  {
    var since := [0, 60 * MICROS];
    assert since[1..] == [60 * MICROS] && since[1..][1..] == [];
    assert Breaching(since[1..], 100 * MICROS, 30) == [60 * MICROS];
    assert Breaching(since, 100 * MICROS, 30) == since;
    assert MaxOf(since) == 60 * MICROS;
  }

  // ---- Filtering ----

  function Filter<T>(q: seq<T>, keep: T -> bool): seq<T> {
    if q == [] then []
    else Filter(q[..|q| - 1], keep) + if keep(q[|q| - 1]) then [q[|q| - 1]] else []
  }

  lemma FilterSnoc<T>(q: seq<T>, i: nat, keep: T -> bool)
    requires i < |q|
    ensures Filter(q[..i + 1], keep) == Filter(q[..i], keep) + if keep(q[i]) then [q[i]] else []
  {
    assert q[..i + 1][..i] == q[..i];
  }

  function Projects(q: seq<Violation>): set<Project> {
    set v | v in q :: v.project
  }

  function Alerting(q: seq<Violation>): seq<Violation> {
    Filter(q, (v: Violation) => v.Alerts())
  }

  predicate DistinctProjects(q: seq<Violation>) {
    forall i, j | 0 <= i < j < |q| :: q[i].project != q[j].project
  }

  // ---- One sweep ----

  /** Keys of one kind, each with its expiry time. */
  type Keys = map<Project, int>

  function LiveKeys(keys: Keys, now: int): set<Project> {
    set p | p in keys && now < keys[p]
  }

  datatype Result = Result(
    newAlerts: seq<Violation>,
    updates: seq<Violation>,
    resolved: set<Project>,
    toasts: seq<Violation>)

  /** The transitions between two consecutive sets of projects in breach and at threshold. */
  function Edges(violations: seq<Violation>, wasViolating: set<Project>, wasAlerting: set<Project>): Result {
    Result(
      Filter(violations, (v: Violation) => v.project !in wasViolating),
      Filter(violations, (v: Violation) => v.project in wasViolating),
      wasViolating - Projects(violations),
      Filter(violations, (v: Violation) => v.Alerts() && v.project !in wasAlerting))
  }

  /** The time a sweep takes, from its scan of the keys to its last clear. */
  datatype Period = Period(start: int, end: int)

  /** At the end of a sweep the live keys are exactly `projects`, each with a full lifetime
      from some time in the sweep. */
  ghost predicate Refreshed(keys: Keys, projects: set<Project>, d: Period, ttl: nat) {
    && LiveKeys(keys, d.end) == projects
    && forall p | p in projects :: p in keys && d.start + ttl <= keys[p] <= d.end + ttl
  }

  /** Keys last for their lifetime, and not longer. */
  lemma KeysLastUntilExpiry(keys: Keys, projects: set<Project>, d: Period, ttl: nat, later: int)
    requires Refreshed(keys, projects, d, ttl) && d.end <= later
    ensures later < d.start + ttl ==> LiveKeys(keys, later) == projects
    ensures d.end + ttl <= later ==> LiveKeys(keys, later) == {}
  {}

  /** `projects` have been claimed during the sweep on top of the keys that were live: all
      of them are live for all of it. */
  ghost predicate Claimed(keys: Keys, was: set<Project>, projects: set<Project>, d: Period, ttl: nat) {
    && LiveKeys(keys, d.start) == LiveKeys(keys, d.end) == was + projects
    && forall p | p in projects :: p in keys && d.start + ttl <= keys[p] <= d.end + ttl
  }

  lemma ClaimOneMore(keys: Keys, was: set<Project>, projects: set<Project>, d: Period, ttl: nat, p: Project, now: int)
    requires Claimed(keys, was, projects, d, ttl) && d.start <= now <= d.end < d.start + ttl
    ensures Claimed(keys[p := now + ttl], was, projects + {p}, d, ttl)
  {
    assert LiveKeys(keys[p := now + ttl], d.start) == LiveKeys(keys, d.start) + {p};
    assert LiveKeys(keys[p := now + ttl], d.end) == LiveKeys(keys, d.end) + {p};
  }

  lemma NothingClaimed(keys: Keys, d: Period, ttl: nat)
    requires LiveKeys(keys, d.start) == LiveKeys(keys, d.end)
    ensures Claimed(keys, LiveKeys(keys, d.start), {}, d, ttl)
  {}

  lemma LiveWhenClaimed(keys: Keys, was: set<Project>, projects: set<Project>, d: Period, ttl: nat, p: Project, now: int)
    requires Claimed(keys, was, projects, d, ttl) && p !in projects && d.start <= now <= d.end
    ensures p in LiveKeys(keys, now) <==> p in was
  {
    assert p in LiveKeys(keys, d.end) ==> p in LiveKeys(keys, now);
    assert p in LiveKeys(keys, now) ==> p in LiveKeys(keys, d.start);
  }

  lemma ProjectsSnoc(q: seq<Violation>, v: Violation)
    ensures Projects(q + [v]) == Projects(q) + {v.project}
  {}

  lemma {:induction false} AlertingAreViolating(q: seq<Violation>)
    ensures Projects(Alerting(q)) <= Projects(q)
  {
    if q != [] {
      var n := |q| - 1;
      AlertingAreViolating(q[..n]);
      assert q == q[..n] + [q[n]];
      ProjectsSnoc(q[..n], q[n]);
      ProjectsSnoc(Alerting(q[..n]), q[n]);
    }
  }

  lemma EmptyFilters()
    ensures Projects([]) == {}
    ensures forall keep: Violation -> bool :: Filter([], keep) == []
  {}

  lemma DistinctSoFar(q: seq<Violation>, i: nat)
    requires DistinctProjects(q) && i < |q|
    ensures q[i].project !in Projects(q[..i])
  {}

  lemma SortedSoFar(q: seq<Violation>, i: nat, isNew: Violation -> bool, isOld: Violation -> bool,
                    isToast: Violation -> bool, isAlert: Violation -> bool)
    requires i < |q|
    ensures Filter(q[..i + 1], isNew) == if isNew(q[i]) then Filter(q[..i], isNew) + [q[i]] else Filter(q[..i], isNew)
    ensures Filter(q[..i + 1], isOld) == if isOld(q[i]) then Filter(q[..i], isOld) + [q[i]] else Filter(q[..i], isOld)
    ensures Filter(q[..i + 1], isToast) == if isToast(q[i]) then Filter(q[..i], isToast) + [q[i]] else Filter(q[..i], isToast)
    ensures Projects(Filter(q[..i + 1], isAlert)) ==
              if isAlert(q[i]) then Projects(Filter(q[..i], isAlert)) + {q[i].project} else Projects(Filter(q[..i], isAlert))
    ensures Projects(q[..i + 1]) == Projects(q[..i]) + {q[i].project}
  {
    hide Filter, Projects;
    FilterSnoc(q, i, isNew);
    FilterSnoc(q, i, isOld);
    FilterSnoc(q, i, isToast);
    FilterSnoc(q, i, isAlert);
    assert Filter(q[..i], isAlert) + [] == Filter(q[..i], isAlert);
    ProjectsSnoc(Filter(q[..i], isAlert), q[i]);
    ProjectsSnoc(q[..i], q[i]);
    assert q[..i + 1] == q[..i] + [q[i]];
  }

  lemma DeleteKeys(keys: Keys, gone: set<Project>, now: int)
    ensures LiveKeys(keys - gone, now) == LiveKeys(keys, now) - gone
  {}

  // ---- Whole histories ----

  datatype Sweep = Sweep(during: Period, violations: seq<Violation>)

  /** Each sweep follows the previous one, and ends before that one's keys run out. */
  predicate Timely(history: seq<Sweep>, ttl: nat) {
    && (forall k | 0 <= k < |history| ::
          && DistinctProjects(history[k].violations)
          && history[k].during.start <= history[k].during.end < history[k].during.start + ttl)
    && (forall k | 0 < k < |history| ::
          && history[k - 1].during.end <= history[k].during.start
          && history[k].during.end < history[k - 1].during.start + ttl)
  }

  /** The projects in breach at sweep `k`; none before the first sweep. */
  function BreachingAt(history: seq<Sweep>, k: int): set<Project> {
    if 0 <= k < |history| then Projects(history[k].violations) else {}
  }

  /** The projects at or above the rooms threshold, with email enabled, at sweep `k`. */
  function AlertingAt(history: seq<Sweep>, k: int): set<Project> {
    if 0 <= k < |history| then Projects(Alerting(history[k].violations)) else {}
  }

  function EdgesAt(history: seq<Sweep>, k: nat): Result
    requires k < |history|
  {
    Edges(history[k].violations, BreachingAt(history, k - 1), AlertingAt(history, k - 1))
  }

  lemma {:induction false} FilterMembers<T>(q: seq<T>, keep: T -> bool, x: T)
    ensures x in Filter(q, keep) <==> x in q && keep(x)
  {
    if q != [] {
      FilterMembers(q[..|q| - 1], keep, x);
      assert q == q[..|q| - 1] + [q[|q| - 1]];
    }
  }

  lemma ProjectOfFilter(q: seq<Violation>, keep: Violation -> bool, p: Project)
    ensures p in Projects(Filter(q, keep)) <==> exists v | v in q :: keep(v) && v.project == p
  {
    forall v ensures v in Filter(q, keep) <==> v in q && keep(v) {
      FilterMembers(q, keep, v);
    }
  }

  /** A project is announced, updated or resolved exactly on entering, staying in or
      leaving breach, and toasted exactly on reaching the threshold. */
  lemma TransitionsAreEdges(history: seq<Sweep>, k: nat, p: Project)
    requires k < |history| && DistinctProjects(history[k].violations)
    ensures var r, now, was := EdgesAt(history, k), BreachingAt(history, k), BreachingAt(history, k - 1);
            && (p in Projects(r.newAlerts) <==> p in now && p !in was)
            && (p in Projects(r.updates) <==> p in now && p in was)
            && (p in r.resolved <==> p !in now && p in was)
    ensures p in Projects(EdgesAt(history, k).toasts) <==> p in AlertingAt(history, k) && p !in AlertingAt(history, k - 1)
  {
    var q, was, alert := history[k].violations, BreachingAt(history, k - 1), AlertingAt(history, k - 1);
    ProjectOfFilter(q, (v: Violation) => v.project !in was, p);
    ProjectOfFilter(q, (v: Violation) => v.project in was, p);
    ProjectOfFilter(q, (v: Violation) => v.Alerts() && v.project !in alert, p);
    ProjectOfFilter(q, (v: Violation) => v.Alerts(), p);
  }

  datatype Kind = New | Update | Resolved | Nothing

  /** What a sweep broadcasts for project `p`. */
  function KindOf(r: Result, p: Project): Kind {
    if p in Projects(r.newAlerts) then New
    else if p in Projects(r.updates) then Update
    else if p in r.resolved then Resolved
    else Nothing
  }

  function Kinds(history: seq<Sweep>, p: Project): seq<Kind> {
    seq(|history|, k requires 0 <= k < |history| => KindOf(EdgesAt(history, k), p))
  }

  /** Reads broadcasts by the grammar (new update* resolved)*: None when they break it,
      else whether an alert is open. Inside an alert every sweep broadcasts. */
  function Open(kinds: seq<Kind>): Option<bool> {
    if kinds == [] then Some(false) else Next(Open(kinds[..|kinds| - 1]), kinds[|kinds| - 1])
  }

  function Next(state: Option<bool>, kind: Kind): Option<bool> {
    match state
    case None => None
    case Some(open) =>
      match kind
      case New => if open then None else Some(true)
      case Update => if open then Some(true) else None
      case Resolved => if open then Some(false) else None
      case Nothing => if open then None else Some(false)
  }

  lemma NextIsBreach(was: bool, now: bool)
    ensures Next(Some(was), if now then if was then Update else New else if was then Resolved else Nothing) == Some(now)
  {}

  lemma OpenSnoc(kinds: seq<Kind>, n: nat)
    requires n < |kinds|
    ensures Open(kinds[..n + 1]) == Next(Open(kinds[..n]), kinds[n])
  {
    assert kinds[..n + 1][..n] == kinds[..n];
  }

  /** Every project's broadcasts follow the grammar, and an alert is open exactly while
      the project is in breach. */
  lemma {:induction false} BroadcastsFollowGrammar(history: seq<Sweep>, p: Project, n: nat)
    requires n <= |history| && forall k | 0 <= k < |history| :: DistinctProjects(history[k].violations)
    ensures Open(Kinds(history, p)[..n]) == Some(p in BreachingAt(history, n - 1))
  {
    if n > 0 {
      hide Open, Next, Kinds, DistinctProjects, BreachingAt, EdgesAt;
      BroadcastsFollowGrammar(history, p, n - 1);
      KindsOfEdges(history, p, n - 1);
      OpenSnoc(Kinds(history, p), n - 1);
      NextIsBreach(p in BreachingAt(history, n - 2), p in BreachingAt(history, n - 1));
    }
  }

  lemma KindsOfEdges(history: seq<Sweep>, p: Project, k: nat)
    requires k < |history| && DistinctProjects(history[k].violations)
    ensures var now, was := p in BreachingAt(history, k), p in BreachingAt(history, k - 1);
            && |Kinds(history, p)| == |history|
            && Kinds(history, p)[k] == if now then if was then Update else New else if was then Resolved else Nothing
  {
    TransitionsAreEdges(history, k, p);
    hide EdgesAt, BreachingAt;
  }

  class RedisAlerts {
    var violating: Keys
    var alerting: Keys

    constructor ()
      ensures violating == map[] && alerting == map[]
    {
      violating, alerting := map[], map[];
    }

    /** SET NX, or refresh the lifetime. True when the key was not there. */
    method ClaimKey(keys: Keys, p: Project, now: int, ttl: nat) returns (after: Keys, isNew: bool)
      requires 0 < ttl
      ensures isNew <==> p !in LiveKeys(keys, now)
      ensures after == keys[p := now + ttl]
      ensures LiveKeys(after, now) == LiveKeys(keys, now) + {p}
    {
      isNew := !(p in keys && now < keys[p]);
      after := keys[p := now + ttl];
    }

    /** The loop over the violations: claim or refresh the keys and sort the violations
        into new alerts, updates and toasts. Time passes between the claims. */
    method ClaimViolations(violations: seq<Violation>, d: Period, ttl: nat, wasViolating: set<Project>, wasAlerting: set<Project>)
      returns (newAlerts: seq<Violation>, updates: seq<Violation>, toasts: seq<Violation>)
      requires d.start <= d.end < d.start + ttl && DistinctProjects(violations)
      requires wasViolating == LiveKeys(violating, d.start) == LiveKeys(violating, d.end)
      requires wasAlerting == LiveKeys(alerting, d.start) == LiveKeys(alerting, d.end)
      modifies this
      ensures Edges(violations, wasViolating, wasAlerting).(resolved := {}) == Result(newAlerts, updates, {}, toasts)
      ensures Claimed(violating, wasViolating, Projects(violations), d, ttl)
      ensures Claimed(alerting, wasAlerting, Projects(Alerting(violations)), d, ttl)
    {
      hide LiveKeys, Filter, Projects, Claimed;
      EmptyFilters();
      NothingClaimed(violating, d, ttl);
      NothingClaimed(alerting, d, ttl);
      var isNew, isAlert, isOld, isToast :=
        (v: Violation) => v.project !in wasViolating, (v: Violation) => v.Alerts(),
        (v: Violation) => v.project in wasViolating, (v: Violation) => v.Alerts() && v.project !in wasAlerting;
      newAlerts, updates, toasts := [], [], [];
      var now := d.start;
      for i := 0 to |violations|
        invariant d.start <= now <= d.end
        invariant newAlerts == Filter(violations[..i], isNew) && updates == Filter(violations[..i], isOld)
        invariant toasts == Filter(violations[..i], isToast)
        invariant Claimed(violating, wasViolating, Projects(violations[..i]), d, ttl)
        invariant Claimed(alerting, wasAlerting, Projects(Filter(violations[..i], isAlert)), d, ttl)
      {
        var v := violations[i];
        AlertingAreViolating(violations[..i]);
        DistinctSoFar(violations, i);
        SortedSoFar(violations, i, isNew, isOld, isToast, isAlert);
        now := Later(now, d.end);
        LiveWhenClaimed(violating, wasViolating, Projects(violations[..i]), d, ttl, v.project, now);
        ClaimOneMore(violating, wasViolating, Projects(violations[..i]), d, ttl, v.project, now);
        var created;
        violating, created := ClaimKey(violating, v.project, now, ttl);
        if created {
          newAlerts := newAlerts + [v];
        } else {
          updates := updates + [v];
        }
        if v.emailEnabled && v.MeetsRoomsThreshold() {
          now := Later(now, d.end);
          LiveWhenClaimed(alerting, wasAlerting, Projects(Filter(violations[..i], isAlert)), d, ttl, v.project, now);
          ClaimOneMore(alerting, wasAlerting, Projects(Filter(violations[..i], isAlert)), d, ttl, v.project, now);
          alerting, created := ClaimKey(alerting, v.project, now, ttl);
          if created {
            toasts := toasts + [v];
          }
        }
      }
      assert violations[..|violations|] == violations;
    }

    method Later(now: int, end: int) returns (later: int)
      requires now <= end
      ensures now <= later <= end
    {
      later :| now <= later <= end;
    }

    /** One sweep, during which no key runs out. Whatever the callbacks do, they do not
        change the keys. */
    method ProcessViolations(violations: seq<Violation>, d: Period, ttl: nat) returns (r: Result)
      requires d.start <= d.end < d.start + ttl && DistinctProjects(violations)
      requires LiveKeys(violating, d.start) == LiveKeys(violating, d.end)
      requires LiveKeys(alerting, d.start) == LiveKeys(alerting, d.end)
      modifies this
      ensures r == Edges(violations, LiveKeys(old(violating), d.start), LiveKeys(old(alerting), d.start))
      ensures Refreshed(violating, Projects(violations), d, ttl)
      ensures LiveKeys(alerting, d.end) == Projects(Alerting(violations)) +
                (LiveKeys(old(alerting), d.start) - LiveKeys(old(violating), d.start) - Projects(violations))
      ensures LiveKeys(old(alerting), d.start) <= LiveKeys(old(violating), d.start) ==>
                Refreshed(alerting, Projects(Alerting(violations)), d, ttl)
    {
      hide LiveKeys, Filter, Projects;
      var wasViolating, wasAlerting := LiveKeys(violating, d.start), LiveKeys(alerting, d.start);
      var newAlerts, updates, toasts := ClaimViolations(violations, d, ttl, wasViolating, wasAlerting);
      var currentlyViolating, currentlyAlerting := Projects(violations), Projects(Alerting(violations));
      AlertingAreViolating(violations);
      var resolved := wasViolating - currentlyViolating;
      DeleteKeys(violating, resolved, d.end);
      DeleteKeys(alerting, resolved, d.end);
      violating, alerting := violating - resolved, alerting - resolved;
      var dropped := (wasAlerting - currentlyAlerting) * currentlyViolating;
      DeleteKeys(alerting, dropped, d.end);
      alerting := alerting - dropped;
      r := Result(newAlerts, updates, resolved, toasts);
    }

    /** Any timely run of sweeps from empty keys reports the edges of the history. */
    method RunSweeps(history: seq<Sweep>, ttl: nat) returns (log: seq<Result>)
      requires Timely(history, ttl) && violating == map[] && alerting == map[]
      modifies this
      ensures |log| == |history| && forall k | 0 <= k < |history| :: log[k] == EdgesAt(history, k)
      ensures history != [] ==>
        var end := history[|history| - 1].during.end;
        && LiveKeys(violating, end) == BreachingAt(history, |history| - 1)
        && LiveKeys(alerting, end) == AlertingAt(history, |history| - 1)
        && LiveKeys(alerting, end) <= LiveKeys(violating, end)
    {
      log := [];
      for i := 0 to |history|
        invariant |log| == i && forall k | 0 <= k < i :: log[k] == EdgesAt(history, k)
        invariant i == 0 ==> violating == map[] && alerting == map[]
        invariant i > 0 ==>
          && Refreshed(violating, BreachingAt(history, i - 1), history[i - 1].during, ttl)
          && Refreshed(alerting, AlertingAt(history, i - 1), history[i - 1].during, ttl)
          && AlertingAt(history, i - 1) <= BreachingAt(history, i - 1)
      {
        var sweep := history[i];
        var d := sweep.during;
        KeysFromLastSweep(history, ttl, i, violating, alerting);
        AlertingAreViolating(sweep.violations);
        hide LiveKeys, Refreshed, Edges;
        var r := ProcessViolations(sweep.violations, d, ttl);
        log := log + [r];
      }
    }
  }

  /** Between two timely sweeps, and during the second, no key runs out. */
  lemma KeysFromLastSweep(history: seq<Sweep>, ttl: nat, i: nat, violating: Keys, alerting: Keys)
    requires Timely(history, ttl) && i < |history|
    requires i == 0 ==> violating == map[] && alerting == map[]
    requires i > 0 ==>
      && Refreshed(violating, BreachingAt(history, i - 1), history[i - 1].during, ttl)
      && Refreshed(alerting, AlertingAt(history, i - 1), history[i - 1].during, ttl)
    ensures var d := history[i].during;
            && LiveKeys(violating, d.start) == LiveKeys(violating, d.end) == BreachingAt(history, i - 1)
            && LiveKeys(alerting, d.start) == LiveKeys(alerting, d.end) == AlertingAt(history, i - 1)
  {
    var d := history[i].during;
    if i > 0 {
      var last := history[i - 1].during;
      hide Refreshed, LiveKeys;
      KeysLastUntilExpiry(violating, BreachingAt(history, i - 1), last, ttl, d.start);
      KeysLastUntilExpiry(violating, BreachingAt(history, i - 1), last, ttl, d.end);
      KeysLastUntilExpiry(alerting, AlertingAt(history, i - 1), last, ttl, d.start);
      KeysLastUntilExpiry(alerting, AlertingAt(history, i - 1), last, ttl, d.end);
    }
  }
}
