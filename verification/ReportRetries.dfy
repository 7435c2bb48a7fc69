/** The retry machine that report generation and room exports share: the oldest eligible
    report is taken, and a report whose attempt fails is retried a bounded number of times. */
module ReportRetries {
  const MAX_RETRY_COUNT := 3

  /** How long a report stays in progress before it counts as stuck, in seconds. */
  const STUCK := 600

  datatype Kind = CustomDashboard | RoomExport

  datatype Status = Pending | InProgress | Ready | Failed | PermanentlyFailed

  datatype Report = Report(kind: Kind, created: int, modified: int, status: Status, retryCount: nat)

  type Table = map<nat, Report>

  /** How the processing of a report ends. A crash leaves it in progress. */
  datatype Outcome = Success | Failure | Crash

  predicate Eligible(r: Report, kind: Kind, now: int) {
    && r.kind == kind
    && (r.status == Pending || r.status == Failed || (r.status == InProgress && r.modified < now - STUCK))
    && r.retryCount < MAX_RETRY_COUNT
  }

  predicate Waits(t: Table, u: nat, kind: Kind, now: int) {
    u in t && Eligible(t[u], kind, now)
  }

  predicate Oldest(t: Table, u: nat, kind: Kind, now: int) {
    Waits(t, u, kind, now) && forall v | v in t && Waits(t, v, kind, now) :: t[u].created <= t[v].created
  }

  function Started(r: Report, now: int): Report {
    r.(status := InProgress, modified := now)
  }

  function Ended(r: Report, now: int, outcome: Outcome): Report {
    match outcome
    case Success => r.(status := Ready, modified := now)
    case Failure =>
      r.(retryCount := r.retryCount + 1, modified := now,
         status := if r.retryCount + 1 >= MAX_RETRY_COUNT then PermanentlyFailed else Failed)
    case Crash => r
  }

  // ---- Runs ----

  datatype Event =
    | Create(u: nat, kind: Kind, now: int)
    | Periodic(u: nat, kind: Kind, start: int, end: int, outcome: Outcome)
    | Direct(u: nat, start: int, end: int, outcome: Outcome)

  /** The periodic job takes the oldest eligible report of its kind; the direct one takes
      a named room export that is pending or failed. */
  predicate Legal(t: Table, e: Event) {
    match e
    case Create(u, _, _) => u !in t
    case Periodic(u, kind, start, _, _) => Oldest(t, u, kind, start)
    case Direct(u, _, _, _) => u in t && t[u].kind == RoomExport && (t[u].status == Pending || t[u].status == Failed)
  }

  function After(t: Table, e: Event): Table
    requires Legal(t, e)
  {
    match e
    case Create(u, kind, now) => t[u := Report(kind, now, now, Pending, 0)]
    case Periodic(u, _, start, end, outcome) => t[u := Ended(Started(t[u], start), end, outcome)]
    case Direct(u, start, end, outcome) => t[u := Ended(Started(t[u], start), end, outcome)]
  }

  predicate LegalRun(events: seq<Event>)
    decreases |events|, 0
  {
    events != [] ==> LegalRun(events[..|events| - 1]) && Legal(Result(events[..|events| - 1]), events[|events| - 1])
  }

  /** The table after the events, from an empty one. */
  function Result(events: seq<Event>): Table
    requires LegalRun(events)
    decreases |events|, 1
  {
    if events == [] then map[] else After(Result(events[..|events| - 1]), events[|events| - 1])
  }

  predicate IsAttempt(e: Event, u: nat) {
    !e.Create? && e.u == u
  }

  /** How many attempts on `u` ended this way. */
  function Tally(events: seq<Event>, u: nat, outcome: Outcome): nat {
    if events == [] then 0
    else
      var e := events[|events| - 1];
      Tally(events[..|events| - 1], u, outcome) + if IsAttempt(e, u) && e.outcome == outcome then 1 else 0
  }

  function Attempts(events: seq<Event>, u: nat): nat {
    if events == [] then 0
    else Attempts(events[..|events| - 1], u) + if IsAttempt(events[|events| - 1], u) then 1 else 0
  }

  lemma {:induction false} AttemptsAreTallied(events: seq<Event>, u: nat)
    ensures Attempts(events, u) == Tally(events, u, Success) + Tally(events, u, Failure) + Tally(events, u, Crash)
  {
    if events != [] {
      AttemptsAreTallied(events[..|events| - 1], u);
    }
  }

  lemma {:induction false} NothingBeforeCreation(events: seq<Event>, u: nat)
    requires LegalRun(events) && u !in Result(events)
    ensures Attempts(events, u) == 0
  {
    if events != [] {
      NothingBeforeCreation(events[..|events| - 1], u);
    }
  }

  /** What the row says of the history of its report. */
  predicate Counted(r: Report, failures: nat, successes: nat) {
    && r.retryCount == failures <= MAX_RETRY_COUNT
    && (r.status == PermanentlyFailed <==> failures == MAX_RETRY_COUNT)
    && (r.status == Ready <==> successes == 1)
    && successes <= 1
  }

  /** In every run the retry count is the number of caught failures, never above the
      maximum, and the report is given up exactly when it gets there. A report succeeds
      at most once and is never given up after that. */
  lemma {:induction false} RetriesAreCounted(events: seq<Event>, u: nat)
    requires LegalRun(events) && u in Result(events)
    ensures Counted(Result(events)[u], Tally(events, u, Failure), Tally(events, u, Success))
    decreases |events|
  {
    var n := |events| - 1;
    if u in Result(events[..n]) {
      RetriesAreCounted(events[..n], u);
    } else {
      NothingBeforeCreation(events[..n], u);
      AttemptsAreTallied(events[..n], u);
    }
  }

  /** A report is attempted at most three times, and once more for every crash. */
  lemma AttemptsAreBounded(events: seq<Event>, u: nat)
    requires LegalRun(events)
    ensures Attempts(events, u) <= MAX_RETRY_COUNT + Tally(events, u, Crash)
  {
    AttemptsAreTallied(events, u);
    if u in Result(events) {
      RetriesAreCounted(events, u);
    } else {
      NothingBeforeCreation(events, u);
    }
  }

  /** A report that is ready or given up is never attempted again. */
  lemma {:induction false} FinalReportsRest(events: seq<Event>, k: nat, u: nat)
    requires LegalRun(events) && k <= |events| && LegalRun(events[..k])
    requires u in Result(events[..k]) && Result(events[..k])[u].status in {Ready, PermanentlyFailed}
    ensures u in Result(events) && Result(events)[u] == Result(events[..k])[u]
    ensures Attempts(events, u) == Attempts(events[..k], u)
    decreases |events|
  {
    var n := |events| - 1;
    if k == |events| {
      assert events[..k] == events;
    } else {
      assert events[..n][..k] == events[..k];
      FinalReportsRest(events[..n], k, u);
    }
  }

  /** The `n`-th time at which a report that crashes at once is stuck again. */
  function StuckAgain(n: nat): int {
    if n == 0 then 0 else StuckAgain(n - 1) + STUCK + 1
  }

  function CrashAt(n: nat): Event {
    Periodic(0, CustomDashboard, StuckAgain(n), StuckAgain(n), Crash)
  }

  /** A report created and then attempted `n` times, each attempt a crash. */
  function CrashLoop(n: nat): seq<Event> {
    if n == 0 then [Create(0, CustomDashboard, 0)] else CrashLoop(n - 1) + [CrashAt(n)]
  }

  function Crashed(n: nat): Table {
    map[0 := Report(CustomDashboard, 0, StuckAgain(n), if n == 0 then Pending else InProgress, 0)]
  }

  lemma CrashOnceMore(events: seq<Event>, n: nat)
    requires LegalRun(events) && Result(events) == Crashed(n)
    ensures LegalRun(events + [CrashAt(n + 1)]) && Result(events + [CrashAt(n + 1)]) == Crashed(n + 1)
  {
    var t, e := Crashed(n), CrashAt(n + 1);
    assert (events + [e])[..|events|] == events;
    assert Eligible(t[0], CustomDashboard, e.start);
    assert Legal(t, e) && After(t, e) == Crashed(n + 1);
  }

  lemma {:induction false} CrashLoopResult(n: nat)
    ensures LegalRun(CrashLoop(n)) && Result(CrashLoop(n)) == Crashed(n)
  {
    if n == 0 {
      assert CrashLoop(0)[..0] == [];
    } else {
      hide LegalRun, Result, Crashed;
      CrashLoopResult(n - 1);
      CrashOnceMore(CrashLoop(n - 1), n - 1);
    }
  }

  lemma {:induction false} CrashesAreAll(n: nat)
    ensures Attempts(CrashLoop(n), 0) == n && Tally(CrashLoop(n), 0, Crash) == n
  {
    if n == 0 {
      assert CrashLoop(0)[..0] == [];
    } else {
      hide Attempts, Tally;
      CrashesAreAll(n - 1);
      OneMoreAttempt(CrashLoop(n - 1), 0, CrashAt(n));
    }
  }

  /** Crashes are not counted: a report whose attempts all crash is retried forever. */
  lemma CrashesAreNotCounted(n: nat)
    ensures LegalRun(CrashLoop(n)) && Attempts(CrashLoop(n), 0) == n
    ensures Result(CrashLoop(n)) == Crashed(n) && Result(CrashLoop(n))[0].retryCount == 0
  {
    hide CrashLoop, LegalRun, Result, Attempts;
    CrashLoopResult(n);
    CrashesAreAll(n);
  }

  /** An attempt that fails, when the report is stuck or has failed before. */
  function FailAt(n: nat): Event {
    Periodic(0, CustomDashboard, StuckAgain(n), StuckAgain(n), Failure)
  }

  /** The only report, after so many failures. */
  function FailedTimes(at: nat, failures: nat): Table {
    map[0 := Report(CustomDashboard, 0, StuckAgain(at),
                    if failures >= MAX_RETRY_COUNT then PermanentlyFailed else Failed, failures)]
  }

  lemma FailsOnceMore(events: seq<Event>, n: nat, failures: nat)
    requires failures < MAX_RETRY_COUNT && LegalRun(events)
    requires Result(events) == if failures == 0 then Crashed(n) else FailedTimes(n + 1, failures)
    ensures LegalRun(events + [FailAt(n + 1)]) && Result(events + [FailAt(n + 1)]) == FailedTimes(n + 1, failures + 1)
  {
    var t, e := Result(events), FailAt(n + 1);
    assert (events + [e])[..|events|] == events;
    assert Eligible(t[0], CustomDashboard, e.start);
    assert Legal(t, e) && After(t, e) == FailedTimes(n + 1, failures + 1);
  }

  lemma OneMoreAttempt(events: seq<Event>, u: nat, e: Event)
    ensures Attempts(events + [e], u) == Attempts(events, u) + if IsAttempt(e, u) then 1 else 0
    ensures Tally(events + [e], u, Crash) == Tally(events, u, Crash) + if IsAttempt(e, u) && e.outcome == Crash then 1 else 0
  {
    assert (events + [e])[..|events|] == events;
  }

  /** The bound is met for every number of crashes. */
  lemma AttemptBoundIsMet(n: nat)
    ensures exists events ::
      && LegalRun(events)
      && Tally(events, 0, Crash) == n
      && Attempts(events, 0) == MAX_RETRY_COUNT + Tally(events, 0, Crash)
  {
    CrashesAreNotCounted(n);
    CrashesAreAll(n);
    hide LegalRun, Result, Tally, Attempts, CrashLoop;
    var a, e := CrashLoop(n), FailAt(n + 1);
    FailsOnceMore(a, n, 0);
    OneMoreAttempt(a, 0, e);
    FailsOnceMore(a + [e], n, 1);
    OneMoreAttempt(a + [e], 0, e);
    FailsOnceMore(a + [e] + [e], n, 2);
    OneMoreAttempt(a + [e] + [e], 0, e);
    assert LegalRun(a + [e] + [e] + [e]);
  }

  // ---- The jobs ----

  lemma {:induction false} OldestExists(t: Table, among: set<nat>, kind: Kind, now: int) returns (u: nat)
    requires among != {} && among <= t.Keys && forall v | v in among :: Waits(t, v, kind, now)
    ensures u in among && forall v | v in among :: t[u].created <= t[v].created
    decreases |among|
  {
    u :| u in among;
    if among != {u} {
      var w := OldestExists(t, among - {u}, kind, now);
      if t[w].created < t[u].created {
        u := w;
      }
    }
  }

  class ReportStatuses {
    var reports: Table

    constructor ()
      ensures reports == map[]
    {
      reports := map[];
    }

    /** Marks the oldest eligible report in progress, if there is one. */
    method SelectReport(kind: Kind, now: int) returns (found: bool, u: nat)
      modifies this
      ensures found <==> exists v :: Waits(old(reports), v, kind, now)
      ensures found ==> Oldest(old(reports), u, kind, now) && reports == old(reports)[u := Started(old(reports)[u], now)]
      ensures !found ==> reports == old(reports)
    {
      var waiting := set v | v in reports && Waits(reports, v, kind, now);
      assert forall v | Waits(reports, v, kind, now) :: v in waiting;
      found, u := waiting != {}, 0;
      if found {
        ghost var w := OldestExists(reports, waiting, kind, now);
        assert Oldest(reports, w, kind, now);
        u :| u in reports && Oldest(reports, u, kind, now);
        assert Oldest(reports, u, kind, now);
        reports := reports[u := reports[u].(status := InProgress, modified := now)];
      }
    }

    method HandleError(u: nat, now: int)
      requires u in reports
      modifies this
      ensures reports == old(reports)[u := Ended(old(reports)[u], now, Failure)]
    {
      var r := reports[u];
      r := r.(retryCount := r.retryCount + 1);
      if r.retryCount >= MAX_RETRY_COUNT {
        r := r.(status := PermanentlyFailed);
      } else {
        r := r.(status := Failed);
      }
      reports := reports[u := r.(modified := now)];
    }

    method Conclude(u: nat, now: int, outcome: Outcome)
      requires u in reports
      modifies this
      ensures reports == old(reports)[u := Ended(old(reports)[u], now, outcome)]
    {
      match outcome {
        case Success => reports := reports[u := reports[u].(status := Ready, modified := now)];
        case Failure => HandleError(u, now);
        case Crash => assert reports == reports[u := reports[u]];
      }
    }

    /** The periodic job of either kind; `end` and `outcome` are those of the processing. */
    method ProcessPending(kind: Kind, start: int, end: int, outcome: Outcome) returns (found: bool, u: nat)
      modifies this
      ensures found <==> exists v :: Waits(old(reports), v, kind, start)
      ensures found ==>
        && Legal(old(reports), Periodic(u, kind, start, end, outcome))
        && reports == After(old(reports), Periodic(u, kind, start, end, outcome))
      ensures !found ==> reports == old(reports)
    {
      found, u := SelectReport(kind, start);
      if found {
        Conclude(u, end, outcome);
      }
    }

    /** The direct job for one room export: it skips a report that is not there or not
        due, refuses one of another kind, and raises the error it has handled. */
    method GenerateRoomExport(u: nat, start: int, end: int, outcome: Outcome) returns (ran: bool, raised: bool)
      modifies this
      ensures ran <==> Legal(old(reports), Direct(u, start, end, outcome))
      ensures raised <==> u in old(reports) && (old(reports)[u].kind != RoomExport || (ran && outcome == Failure))
      ensures reports == if ran then After(old(reports), Direct(u, start, end, outcome)) else old(reports)
    {
      ran, raised := false, false;
      if u !in reports {
        return;
      }
      if reports[u].kind != RoomExport {
        raised := true;
        return;
      }
      ran := reports[u].status == Pending || reports[u].status == Failed;
      if ran {
        reports := reports[u := reports[u].(status := InProgress, modified := start)];
        Conclude(u, end, outcome);
        raised := outcome == Failure;
      }
    }
  }
}
