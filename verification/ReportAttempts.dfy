/** Attempts at a report as functions of the part numbers they start from, the call they
    are interrupted at and the deletes that fail: what is delivered, and when it is right. */
module ReportAttempts {
  import opened Arithmetic
  import opened Options
  import opened PartNames
  import opened ReportParts

  /** A requested table and the rows its query returns, in the query's order. */
  datatype Source = Source(requested: bool, rows: seq<Row>)

  datatype Output =
    | Zip(rooms: Content, agents: Content)
    | Workbook(roomsSheet: map<nat, Line>, agentsSheet: map<nat, Line>)

  /** The numbers of the parts of the two tables. */
  datatype Parts = Parts(rooms: seq<nat>, agents: seq<nat>)

  /** What happens to an attempt: how many storage calls it makes before it is interrupted,
      if it is, and which of its deletes fail, in order; further ones do not. */
  datatype Faults = Faults(calls: Option<nat>, fails: seq<bool>)

  /** The sheet with the lines of `c` in rows 0, 1, 2 and so on. */
  function SheetOf(c: Content): map<nat, Line> {
    map i: nat | i < |c| :: c[i]
  }

  lemma SheetsDiffer(c: Content, d: Content)
    requires c != d
    ensures SheetOf(c) != SheetOf(d)
  {
    if |c| < |d| {
      assert |c| in SheetOf(d) && |c| !in SheetOf(c);
    } else if |d| < |c| {
      assert |d| in SheetOf(c) && |d| !in SheetOf(d);
    } else {
      var i :| 0 <= i < |c| && c[i] != d[i];
      assert SheetOf(c)[i] != SheetOf(d)[i];
    }
  }

  // ---- Calls and deletes ----

  predicate Suffices(calls: Option<nat>, m: nat) {
    calls.None? || m <= calls.value
  }

  function Spent(calls: Option<nat>, m: nat): Option<nat>
    requires Suffices(calls, m)
  {
    if calls.None? then None else Some(calls.value - m)
  }

  function Lacking(completed: nat, k: nat): nat {
    if completed < k then k - completed else 0
  }

  /** How many parts a table of `k` parts lacks by count. */
  function ToSave(n: seq<nat>, k: nat): nat {
    Lacking(|n|, k)
  }

  datatype Saved = Saved(parts: seq<nat>, calls: Option<nat>, ok: bool)

  /** Saving the parts from the count of existing ones on, one call each. */
  function Save(n: seq<nat>, k: nat, overwrite: bool, calls: Option<nat>): Saved {
    if Suffices(calls, ToSave(n, k)) then Saved(Final(n, k, overwrite), Spent(calls, ToSave(n, k)), true)
    else Saved(Resumed(n, |n|, |n| + calls.value, overwrite), Some(0), false)
  }

  datatype Cleaned = Cleaned(parts: seq<nat>, calls: Option<nat>, fails: seq<bool>, ok: bool)

  predicate FailsNext(fails: seq<bool>) {
    fails != [] && fails[0]
  }

  function Later(fails: seq<bool>): seq<bool> {
    if fails == [] then [] else fails[1..]
  }

  /** Deleting parts in order, one call each; a delete that fails keeps its part. */
  function Clean(n: seq<nat>, calls: Option<nat>, fails: seq<bool>): Cleaned {
    if n == [] then Cleaned([], calls, fails, true)
    else if !Suffices(calls, 1) then Cleaned(n, calls, fails, false)
    else
      var rest := Clean(n[1..], Spent(calls, 1), Later(fails));
      if FailsNext(fails) then rest.(parts := [n[0]] + rest.parts) else rest
  }

  function Behind(kept: seq<nat>, c: Cleaned): Cleaned {
    c.(parts := kept + c.parts)
  }

  /** The next delete moves the part behind those kept, or away. */
  lemma CleanNext(n: seq<nat>, calls: Option<nat>, fails: seq<bool>, kept: seq<nat>)
    requires n != []
    ensures Behind(kept, Clean(n, calls, fails)) ==
            if !Suffices(calls, 1) then Cleaned(kept + n, calls, fails, false)
            else Behind(if FailsNext(fails) then kept + [n[0]] else kept, Clean(n[1..], Spent(calls, 1), Later(fails)))
  {
    if Suffices(calls, 1) {
      var rest := Clean(n[1..], Spent(calls, 1), Later(fails));
      assert kept + ([n[0]] + rest.parts) == kept + [n[0]] + rest.parts;
    }
  }

  lemma NothingToClean(calls: Option<nat>, fails: seq<bool>)
    ensures Clean([], calls, fails) == Cleaned([], calls, fails, true)
  {}

  lemma {:induction false} CleanKeepsNumbers(n: seq<nat>, calls: Option<nat>, fails: seq<bool>)
    requires Ascending(n)
    ensures var c := Clean(n, calls, fails);
            && Ascending(c.parts) && (Strict(n) ==> Strict(c.parts))
            && |c.parts| <= |n| && (forall x | x in c.parts :: x in n)
            && (c.ok <==> Suffices(calls, |n|))
            && (c.ok ==> c.calls == Spent(calls, |n|))
  {
    if n != [] && Suffices(calls, 1) {
      assert n == [n[0]] + n[1..];
      AscendingCons(n[0], n[1..]);
      StrictCons(n[0], n[1..]);
      hide Ascending, Strict;
      CleanKeepsNumbers(n[1..], Spent(calls, 1), Later(fails));
      var rest := Clean(n[1..], Spent(calls, 1), Later(fails));
      AscendingCons(n[0], rest.parts);
      StrictCons(n[0], rest.parts);
    }
  }

  /** None of the first `m` deletes fails. */
  predicate NoneFails(fails: seq<bool>, m: nat) {
    forall i | 0 <= i < m && i < |fails| :: !fails[i]
  }

  function Dropped(fails: seq<bool>, m: nat): seq<bool> {
    if m <= |fails| then fails[m..] else []
  }

  /** Without a failing delete, an interruption leaves the parts from the first one not
      deleted on, and nothing is left when there is none. */
  lemma {:induction false} CleanWithoutFailures(n: seq<nat>, calls: Option<nat>, fails: seq<bool>)
    requires NoneFails(fails, |n|)
    ensures Suffices(calls, |n|) ==> Clean(n, calls, fails) == Cleaned([], Spent(calls, |n|), Dropped(fails, |n|), true)
    ensures !Suffices(calls, |n|) ==> Clean(n, calls, fails).parts == n[calls.value..] && !Clean(n, calls, fails).ok
  {
    if n != [] && Suffices(calls, 1) {
      assert !FailsNext(fails);
      assert NoneFails(Later(fails), |n[1..]|);
      CleanWithoutFailures(n[1..], Spent(calls, 1), Later(fails));
      assert Dropped(Later(fails), |n| - 1) == Dropped(fails, |n|);
      if !Suffices(calls, |n|) {
        assert n[1..][calls.value - 1..] == n[calls.value..];
      }
    }
  }

  // ---- Reports ----

  /** One report: its chunk size, its tables, and whether its storage overwrites a file of
      the same name. */
  datatype Plan = Plan(chunk: nat, overwrite: bool, rooms: Source, agents: Source)
  {
    function SourceOf(t: Table): Source {
      match t
      case Rooms => rooms
      case AgentStatusLogs => agents
    }

    function QueriedRows(t: Table): seq<Row> {
      if SourceOf(t).requested then SourceOf(t).rows else []
    }

    function PartsNeeded(t: Table): nat
      requires 1 <= chunk
    {
      NumParts(|QueriedRows(t)|, chunk)
    }

    predicate Configured() {
      1 <= chunk && PartsNeeded(Rooms) <= CAPACITY && PartsNeeded(AgentStatusLogs) <= CAPACITY
    }

    /** The report of one uninterrupted pass. */
    function Expected(t: Table): Content {
      if SourceOf(t).requested then FullReport(SourceOf(t).rows) else []
    }

    function FinalReport(xlsx: bool): Output {
      if xlsx then Workbook(SheetOf(Expected(Rooms)), SheetOf(Expected(AgentStatusLogs)))
      else Zip(Expected(Rooms), Expected(AgentStatusLogs))
    }

    /** Sorted numbers of the table's parts, no more than it needs. */
    predicate Fits(t: Table, n: seq<nat>)
      requires Configured()
    {
      Numbers(n, PartsNeeded(t), overwrite) && |n| <= PartsNeeded(t)
    }

    predicate AllFit(p: Parts)
      requires Configured()
    {
      Fits(Rooms, p.rooms) && Fits(AgentStatusLogs, p.agents)
    }

    /** What the table's parts are completed to. */
    function Completed(t: Table, n: seq<nat>): seq<nat>
      requires Configured()
    {
      Final(n, PartsNeeded(t), overwrite)
    }

    /** Whether parts numbered `n` can be completed to the full table. */
    predicate Rejoins(t: Table, n: seq<nat>)
      requires Configured()
    {
      QueriedRows(t) == [] ||
      if overwrite then Gapless(n) else SameLines(QueriedRows(t), chunk, Completed(t, n), 0)
    }

    predicate AllRejoin(p: Parts)
      requires Configured()
    {
      Rejoins(Rooms, p.rooms) && Rejoins(AgentStatusLogs, p.agents)
    }

    /** What the file and the sheet of a table contain when its parts are numbered `n`. */
    function FileLines(t: Table, n: seq<nat>): Content {
      if n == [] then if SourceOf(t).requested then [Header] else []
      else Joined(QueriedRows(t), chunk, n)
    }

    function SheetContent(t: Table, n: seq<nat>): Content {
      if n == [] || |FileLines(t, n)| > 1 then FileLines(t, n) else []
    }

    // ---- One attempt ----

    function SaveTable(t: Table, n: seq<nat>, calls: Option<nat>): Saved
      requires Configured()
    {
      Save(n, PartsNeeded(t), overwrite, calls)
    }

    /** The parts that both tables lack. */
    function AllToSave(p: Parts): nat
      requires Configured()
    {
      ToSave(p.rooms, PartsNeeded(Rooms)) + ToSave(p.agents, PartsNeeded(AgentStatusLogs))
    }

    function AllCompleted(p: Parts): Parts
      requires Configured()
    {
      Parts(Completed(Rooms, p.rooms), Completed(AgentStatusLogs, p.agents))
    }

    /** The parts after both tables were saved, or as far as the calls went. */
    function SaveAll(p: Parts, calls: Option<nat>): (Parts, Option<nat>, bool)
      requires Configured()
    {
      var r := SaveTable(Rooms, p.rooms, calls);
      if !r.ok then (Parts(r.parts, p.agents), r.calls, false)
      else
        var a := SaveTable(AgentStatusLogs, p.agents, r.calls);
        (Parts(r.parts, a.parts), a.calls, a.ok)
    }

    /** The deletes of both tables' parts and of their directory. */
    function CleanAll(p: Parts, calls: Option<nat>, fails: seq<bool>): (Parts, bool) {
      var r := Clean(p.rooms, calls, fails);
      if !r.ok then (Parts(r.parts, p.agents), false)
      else
        var a := Clean(p.agents, r.calls, r.fails);
        (Parts(r.parts, a.parts), a.ok && Suffices(a.calls, 1))
    }

    /** Saving, one call to join, and the cleanup: the parts left, and whether the attempt
        got to its end and delivers. */
    function Attempt(p: Parts, f: Faults): (Parts, bool)
      requires Configured()
    {
      var (q, calls, ok) := SaveAll(p, f.calls);
      if !ok || !Suffices(calls, 1) then (q, false) else CleanAll(q, Spent(calls, 1), f.fails)
    }

    /** What an attempt that starts from these parts delivers, when it does. */
    function OutputFrom(xlsx: bool, p: Parts): Output
      requires Configured()
    {
      var q := AllCompleted(p);
      if xlsx then Workbook(SheetOf(SheetContent(Rooms, q.rooms)), SheetOf(SheetContent(AgentStatusLogs, q.agents)))
      else Zip(FileLines(Rooms, q.rooms), FileLines(AgentStatusLogs, q.agents))
    }

    // ---- Runs ----

    /** What a run of attempts delivers, one after the other. */
    function Deliveries(xlsx: bool, p: Parts, run: seq<Faults>): seq<Output>
      requires Configured()
      decreases |run|
    {
      if run == [] then []
      else
        var (left, delivers) := Attempt(p, run[0]);
        (if delivers then [OutputFrom(xlsx, p)] else []) + Deliveries(xlsx, left, run[1..])
    }

    /** The parts that each delivering attempt started from. */
    function Starts(p: Parts, run: seq<Faults>): seq<Parts>
      requires Configured()
      decreases |run|
    {
      if run == [] then []
      else
        var (left, delivers) := Attempt(p, run[0]);
        (if delivers then [p] else []) + Starts(left, run[1..])
    }

    /** Each delivery is right if and only if the parts its attempt started from rejoin. */
    predicate RightIffRejoining(xlsx: bool, deliveries: seq<Output>, starts: seq<Parts>)
      requires Configured()
    {
      && |deliveries| == |starts|
      && forall i | 0 <= i < |deliveries| :: deliveries[i] == FinalReport(xlsx) <==> AllRejoin(starts[i])
    }

    predicate AllRight(xlsx: bool, deliveries: seq<Output>) {
      forall i | 0 <= i < |deliveries| :: deliveries[i] == FinalReport(xlsx)
    }

    function LeftAfter(p: Parts, run: seq<Faults>): Parts
      requires Configured()
      decreases |run|
    {
      if run == [] then p else LeftAfter(Attempt(p, run[0]).0, run[1..])
    }

    /** The attempt is interrupted before its cleanup. */
    predicate CutShort(p: Parts, f: Faults)
      requires Configured()
    {
      !Suffices(f.calls, AllToSave(p) + 1)
    }

    /** The attempt is not interrupted, and none of its deletes fails. */
    predicate CleansUp(p: Parts, f: Faults)
      requires Configured()
    {
      var deletes := |Completed(Rooms, p.rooms)| + |Completed(AgentStatusLogs, p.agents)|;
      Suffices(f.calls, AllToSave(p) + 1 + deletes + 1) && NoneFails(f.fails, deletes)
    }

    predicate AllCutShort(p: Parts, run: seq<Faults>)
      requires Configured()
      decreases |run|
    {
      run != [] ==> CutShort(p, run[0]) && AllCutShort(Attempt(p, run[0]).0, run[1..])
    }

    /** No cleanup is interrupted or has a delete that fails. */
    predicate NoneMarred(p: Parts, run: seq<Faults>)
      requires Configured()
      decreases |run|
    {
      run != [] ==> (CutShort(p, run[0]) || CleansUp(p, run[0])) && NoneMarred(Attempt(p, run[0]).0, run[1..])
    }
  }

  // ---- What one table's parts join to ----

  lemma PartsAreChunks(n: nat, chunk: nat, i: nat)
    requires 1 <= chunk
    ensures i < NumParts(n, chunk) <==> i * chunk < n
  {
    CeilDivIsLeast(n, chunk, i);
  }

  lemma RejoinsIff(w: Plan, t: Table, n: seq<nat>)
    requires w.Configured() && w.QueriedRows(t) != [] && w.Fits(t, n)
    ensures Joined(w.QueriedRows(t), w.chunk, w.Completed(t, n)) == w.Expected(t) <==> w.Rejoins(t, n)
  {
    ResumedIsFullIff(w.QueriedRows(t), w.chunk, n, w.overwrite);
  }

  lemma GaplessRejoins(w: Plan, t: Table, n: seq<nat>)
    requires w.Configured() && Gapless(n) && |n| <= w.PartsNeeded(t)
    ensures w.Rejoins(t, n)
  {
    GaplessResumes(|n|, w.PartsNeeded(t), w.overwrite);
  }

  lemma NoRowsNoParts(w: Plan, t: Table, f: seq<nat>)
    requires w.Configured() && w.QueriedRows(t) == [] && Below(f, w.PartsNeeded(t))
    ensures w.PartsNeeded(t) == 0 && f == [] && w.FileLines(t, f) == w.Expected(t)
  {
    CeilDivIsLeast(0, w.chunk, 0);
    FirstIsBelow(f, w.PartsNeeded(t));
  }

  lemma FirstIsBelow(f: seq<nat>, k: nat)
    requires Below(f, k)
    ensures f != [] ==> f[0] < k
  {}

  lemma CompletedIsNotEmpty(w: Plan, t: Table, n: seq<nat>)
    requires w.Configured() && w.QueriedRows(t) != [] && w.Fits(t, n)
    ensures w.Completed(t, n) != []
  {
    FinalFacts(n, w.PartsNeeded(t), w.overwrite);
    PartsAreChunks(|w.QueriedRows(t)|, w.chunk, 0);
    assert (if n == [] then 0 else n[0]) in w.Completed(t, n);
  }

  lemma FullReportIsLong(rows: seq<Row>)
    requires rows != []
    ensures |FullReport(rows)| > 1
  {}

  /** File and sheet are right exactly when the parts the attempt resumed from rejoin. */
  lemma TableIsRightIff(w: Plan, t: Table, n: seq<nat>)
    requires w.Configured() && w.Fits(t, n)
    ensures w.FileLines(t, w.Completed(t, n)) == w.Expected(t) <==> w.Rejoins(t, n)
    ensures SheetOf(w.SheetContent(t, w.Completed(t, n))) == SheetOf(w.Expected(t)) <==> w.Rejoins(t, n)
  {
    hide Joined, SameLines, NumParts, Final, FullReport, SheetOf;
    var f := w.Completed(t, n);
    FinalFacts(n, w.PartsNeeded(t), w.overwrite);
    if w.QueriedRows(t) == [] {
      NoRowsNoParts(w, t, f);
    } else {
      RejoinsIff(w, t, n);
      CompletedIsNotEmpty(w, t, n);
      FullReportIsLong(w.SourceOf(t).rows);
    }
    if w.SheetContent(t, f) != w.Expected(t) {
      SheetsDiffer(w.SheetContent(t, f), w.Expected(t));
    }
  }

  /** An attempt that delivers, delivers the report of one uninterrupted pass if and only
      if the parts it started from rejoin. */
  lemma DeliveredIsRightIff(w: Plan, xlsx: bool, p: Parts)
    requires w.Configured() && w.AllFit(p)
    ensures w.OutputFrom(xlsx, p) == w.FinalReport(xlsx) <==> w.AllRejoin(p)
  {
    TableIsRightIff(w, Rooms, p.rooms);
    TableIsRightIff(w, AgentStatusLogs, p.agents);
  }

  // ---- What an attempt leaves ----

  lemma SaveFacts(w: Plan, t: Table, n: seq<nat>, calls: Option<nat>)
    requires w.Configured() && w.Fits(t, n)
    ensures var s := w.SaveTable(t, n, calls);
            && w.Fits(t, s.parts)
            && w.Completed(t, s.parts) == w.Completed(t, n)
            && (s.ok <==> Suffices(calls, ToSave(n, w.PartsNeeded(t))))
            && (s.ok ==> s.parts == w.Completed(t, n) && s.calls == Spent(calls, ToSave(n, w.PartsNeeded(t))))
            && (w.Rejoins(t, s.parts) <==> w.Rejoins(t, n))
            && (Gapless(n) ==> Gapless(s.parts))
  {
    hide NumParts;
    var k := w.PartsNeeded(t);
    var j := if Suffices(calls, ToSave(n, k)) then k else |n| + calls.value;
    assert w.SaveTable(t, n, calls).parts == Resumed(n, |n|, j, w.overwrite);
    PartlyResumed(n, |n|, j, k, w.overwrite);
    InterruptionsDoNotMatter(n, j, k, w.overwrite);
    if Gapless(n) {
      GaplessResumes(|n|, j, w.overwrite);
    }
    if w.QueriedRows(t) != [] {
      RejoinsIff(w, t, n);
      RejoinsIff(w, t, Resumed(n, |n|, j, w.overwrite));
    }
  }

  lemma SaveAllFacts(w: Plan, p: Parts, calls: Option<nat>)
    requires w.Configured() && w.AllFit(p)
    ensures var (q, rest, ok) := w.SaveAll(p, calls);
            && w.AllFit(q) && w.AllCompleted(q) == w.AllCompleted(p)
            && (w.AllRejoin(q) <==> w.AllRejoin(p))
            && (Gapless(p.rooms) && Gapless(p.agents) ==> Gapless(q.rooms) && Gapless(q.agents))
            && (ok <==> Suffices(calls, w.AllToSave(p)))
            && (ok ==> q == w.AllCompleted(p) && rest == Spent(calls, w.AllToSave(p)))
  {
    hide Plan.SaveTable, Plan.PartsNeeded, Plan.Fits, Plan.Completed, Plan.Rejoins, Gapless, ToSave;
    var r := w.SaveTable(Rooms, p.rooms, calls);
    SaveFacts(w, Rooms, p.rooms, calls);
    SaveFacts(w, AgentStatusLogs, p.agents, r.calls);
  }

  lemma CleanKeepsFit(w: Plan, t: Table, n: seq<nat>, calls: Option<nat>, fails: seq<bool>)
    requires w.Configured() && w.Fits(t, n)
    ensures w.Fits(t, Clean(n, calls, fails).parts)
  {
    CleanKeepsNumbers(n, calls, fails);
    var c := Clean(n, calls, fails);
    assert forall i | 0 <= i < |c.parts| :: c.parts[i] in c.parts;
  }

  lemma AttemptKeepsFit(w: Plan, p: Parts, f: Faults)
    requires w.Configured() && w.AllFit(p)
    ensures w.AllFit(w.Attempt(p, f).0)
  {
    SaveAllFacts(w, p, f.calls);
    var (q, calls, ok) := w.SaveAll(p, f.calls);
    if ok && Suffices(calls, 1) {
      var r := Clean(q.rooms, Spent(calls, 1), f.fails);
      CleanKeepsFit(w, Rooms, q.rooms, Spent(calls, 1), f.fails);
      CleanKeepsFit(w, AgentStatusLogs, q.agents, r.calls, r.fails);
    }
  }

  /** An attempt that is interrupted before its cleanup delivers nothing and changes
      nothing about what its parts can be completed to. */
  lemma CutShortChangesNothing(w: Plan, p: Parts, f: Faults)
    requires w.Configured() && w.AllFit(p) && w.CutShort(p, f)
    ensures var (left, delivers) := w.Attempt(p, f);
            && !delivers && w.AllFit(left)
            && w.AllCompleted(left) == w.AllCompleted(p)
            && (w.AllRejoin(left) <==> w.AllRejoin(p))
  {
    SaveAllFacts(w, p, f.calls);
  }

  /** An attempt without interruption and failing deletes delivers and leaves no parts. */
  lemma CleansUpDelivers(w: Plan, p: Parts, f: Faults)
    requires w.Configured() && w.AllFit(p) && w.CleansUp(p, f)
    ensures w.Attempt(p, f) == (Parts([], []), true)
  {
    hide Clean, Plan.SaveAll, Plan.Completed, Plan.Rejoins, Plan.Fits, Plan.AllToSave, Gapless;
    SaveAllFacts(w, p, f.calls);
    var q := w.AllCompleted(p);
    var calls := Spent(f.calls, w.AllToSave(p) + 1);
    CleanWithoutFailures(q.rooms, calls, f.fails);
    var later := Dropped(f.fails, |q.rooms|);
    assert NoneFails(later, |q.agents|) by {
      assert forall i | 0 <= i < |later| :: later[i] == f.fails[|q.rooms| + i];
    }
    CleanWithoutFailures(q.agents, Spent(calls, |q.rooms|), later);
  }

  lemma NothingRejoins(w: Plan)
    requires w.Configured()
    ensures w.AllFit(Parts([], [])) && w.AllRejoin(Parts([], []))
  {
    assert Gapless([]);
    GaplessRejoins(w, Rooms, []);
    GaplessRejoins(w, AgentStatusLogs, []);
  }

  // ---- Runs ----

  lemma NoneIsRight(w: Plan, xlsx: bool)
    requires w.Configured()
    ensures w.RightIffRejoining(xlsx, [], []) && w.AllRight(xlsx, [])
  {}

  lemma RightIffCons(w: Plan, xlsx: bool, p: Parts, d: seq<Output>, starts: seq<Parts>)
    requires w.Configured() && w.RightIffRejoining(xlsx, d, starts)
    requires w.OutputFrom(xlsx, p) == w.FinalReport(xlsx) <==> w.AllRejoin(p)
    ensures w.RightIffRejoining(xlsx, [w.OutputFrom(xlsx, p)] + d, [p] + starts)
  {
    hide Plan.OutputFrom, Plan.FinalReport, Plan.AllRejoin, Plan.Configured;
  }

  lemma AllRightCons(w: Plan, xlsx: bool, o: Output, d: seq<Output>)
    requires w.AllRight(xlsx, d) && o == w.FinalReport(xlsx)
    ensures w.AllRight(xlsx, [o] + d)
  {
    hide Plan.FinalReport;
  }

  /** The exact condition for every delivery of every run. */
  lemma {:induction false} DeliveriesAreRightIff(w: Plan, xlsx: bool, p: Parts, run: seq<Faults>)
    requires w.Configured() && w.AllFit(p)
    ensures w.RightIffRejoining(xlsx, w.Deliveries(xlsx, p, run), w.Starts(p, run))
    decreases |run|
  {
    if run == [] {
      NoneIsRight(w, xlsx);
    } else {
      hide Plan.Attempt, Plan.AllFit, Plan.AllRejoin, Plan.OutputFrom, Plan.FinalReport, Plan.Configured, Plan.RightIffRejoining;
      DeliveredIsRightIff(w, xlsx, p);
      AttemptKeepsFit(w, p, run[0]);
      var (left, delivers) := w.Attempt(p, run[0]);
      DeliveriesAreRightIff(w, xlsx, left, run[1..]);
      var d, starts := w.Deliveries(xlsx, left, run[1..]), w.Starts(left, run[1..]);
      RightIffCons(w, xlsx, p, d, starts);
      assert [] + d == d && [] + starts == starts;
    }
  }

  /** Any number of attempts interrupted before their cleanup, then one that is not
      interrupted: exactly one report is delivered, and it is that of one uninterrupted
      pass if and only if the first parts rejoin. */
  lemma {:induction false} InterruptedRunDelivers(w: Plan, xlsx: bool, p: Parts, cuts: seq<Faults>, fails: seq<bool>)
    requires w.Configured() && w.AllFit(p) && w.AllCutShort(p, cuts)
    ensures w.Deliveries(xlsx, p, cuts + [Faults(None, fails)]) == [w.OutputFrom(xlsx, p)]
    ensures w.Deliveries(xlsx, p, cuts + [Faults(None, fails)]) == [w.FinalReport(xlsx)] <==> w.AllRejoin(p)
    decreases |cuts|
  {
    hide Plan.Attempt, Plan.AllFit, Plan.AllRejoin, Plan.OutputFrom, Plan.FinalReport, Plan.Configured, Plan.CutShort;
    DeliveredIsRightIff(w, xlsx, p);
    var last := Faults(None, fails);
    if cuts == [] {
      assert cuts + [last] == [last] && [last][1..] == [];
      UninterruptedDelivers(w, p, fails);
    } else {
      assert (cuts + [last])[1..] == cuts[1..] + [last];
      CutShortChangesNothing(w, p, cuts[0]);
      SameCompletionSameOutput(w, xlsx, p, w.Attempt(p, cuts[0]).0);
      InterruptedRunDelivers(w, xlsx, w.Attempt(p, cuts[0]).0, cuts[1..], fails);
    }
  }

  lemma SameCompletionSameOutput(w: Plan, xlsx: bool, p: Parts, q: Parts)
    requires w.Configured() && w.AllCompleted(p) == w.AllCompleted(q)
    ensures w.OutputFrom(xlsx, p) == w.OutputFrom(xlsx, q)
  {}

  lemma UninterruptedDelivers(w: Plan, p: Parts, fails: seq<bool>)
    requires w.Configured() && w.AllFit(p)
    ensures w.Attempt(p, Faults(None, fails)).1
  {
    SaveAllFacts(w, p, None);
    var q := w.AllCompleted(p);
    CleanKeepsNumbers(q.rooms, None, fails);
    var r := Clean(q.rooms, None, fails);
    CleanKeepsNumbers(q.agents, None, r.fails);
  }

  predicate AllInterrupted(cuts: seq<Faults>) {
    forall i | 0 <= i < |cuts| :: cuts[i].calls.Some?
  }

  /** The calls of all attempts together. */
  function CallsIn(cuts: seq<Faults>): nat
    requires AllInterrupted(cuts)
  {
    if cuts == [] then 0 else cuts[0].calls.value + CallsIn(cuts[1..])
  }

  lemma SaveLeavesToSave(w: Plan, t: Table, n: seq<nat>, calls: Option<nat>)
    requires w.Configured() && w.Fits(t, n) && Gapless(n)
    ensures var s := w.SaveTable(t, n, calls);
            ToSave(s.parts, w.PartsNeeded(t)) == if s.ok then 0 else ToSave(n, w.PartsNeeded(t)) - calls.value
    ensures !w.SaveTable(t, n, calls).ok ==> w.SaveTable(t, n, calls).calls == Some(0)
  {
    hide NumParts, Numbers;
    var k := w.PartsNeeded(t);
    GaplessResumes(|n|, if Suffices(calls, ToSave(n, k)) then k else |n| + calls.value, w.overwrite);
  }

  lemma SaveAllLeavesToSave(w: Plan, p: Parts, calls: nat)
    requires w.Configured() && w.AllFit(p) && Gapless(p.rooms) && Gapless(p.agents) && calls <= w.AllToSave(p)
    ensures w.AllToSave(w.SaveAll(p, Some(calls)).0) == w.AllToSave(p) - calls
  {
    hide Plan.SaveTable, Plan.PartsNeeded, Plan.Fits, Plan.Completed, Plan.Rejoins, Gapless, ToSave;
    var r := w.SaveTable(Rooms, p.rooms, Some(calls));
    SaveFacts(w, Rooms, p.rooms, Some(calls));
    SaveFacts(w, AgentStatusLogs, p.agents, r.calls);
    SaveLeavesToSave(w, Rooms, p.rooms, Some(calls));
    SaveLeavesToSave(w, AgentStatusLogs, p.agents, r.calls);
  }

  /** From parts without a gap, all attempts are interrupted before their cleanup exactly
      when together they make no more calls than there are parts to save. */
  lemma {:induction false} AllCutShortIff(w: Plan, p: Parts, cuts: seq<Faults>)
    requires w.Configured() && w.AllFit(p) && Gapless(p.rooms) && Gapless(p.agents)
    ensures w.AllCutShort(p, cuts) <==> AllInterrupted(cuts) && CallsIn(cuts) <= w.AllToSave(p)
    decreases |cuts|
  {
    if cuts != [] {
      hide Plan.SaveAll, Plan.AllFit, Plan.AllToSave, Plan.Configured, Gapless;
      assert AllInterrupted(cuts) <==> cuts[0].calls.Some? && AllInterrupted(cuts[1..]) by {
        assert forall i | 1 <= i < |cuts| :: cuts[i] == cuts[1..][i - 1];
      }
      if w.CutShort(p, cuts[0]) {
        var calls := cuts[0].calls;
        SaveAllFacts(w, p, calls);
        SaveAllLeavesToSave(w, p, calls.value);
        AllCutShortIff(w, w.SaveAll(p, calls).0, cuts[1..]);
      }
    }
  }

  /** From no parts it is always right: however many attempts are interrupted before their
      cleanup, the report delivered by the next one equals that of one uninterrupted pass. */
  lemma InterruptedRunIsRight(w: Plan, xlsx: bool, cuts: seq<Faults>, fails: seq<bool>)
    requires w.Configured() && AllInterrupted(cuts)
    requires CallsIn(cuts) <= w.PartsNeeded(Rooms) + w.PartsNeeded(AgentStatusLogs)
    ensures w.Deliveries(xlsx, Parts([], []), cuts + [Faults(None, fails)]) == [w.FinalReport(xlsx)]
  {
    NothingRejoins(w);
    assert Gapless([]);
    AllCutShortIff(w, Parts([], []), cuts);
    InterruptedRunDelivers(w, xlsx, Parts([], []), cuts, fails);
  }

  /** As long as no cleanup is marred, every delivery of a run is right. */
  lemma {:induction false} UnmarredRunIsRight(w: Plan, xlsx: bool, p: Parts, run: seq<Faults>)
    requires w.Configured() && w.AllFit(p) && w.AllRejoin(p) && w.NoneMarred(p, run)
    ensures w.AllRight(xlsx, w.Deliveries(xlsx, p, run))
    decreases |run|
  {
    if run == [] {
      NoneIsRight(w, xlsx);
    } else {
      hide Plan.Attempt, Plan.AllFit, Plan.AllRejoin, Plan.OutputFrom, Plan.FinalReport, Plan.Configured, Plan.CutShort,
        Plan.CleansUp, Plan.AllRight;
      DeliveredIsRightIff(w, xlsx, p);
      UnmarredKeepsRejoining(w, p, run[0]);
      var left := w.Attempt(p, run[0]).0;
      UnmarredRunIsRight(w, xlsx, left, run[1..]);
      var d := w.Deliveries(xlsx, left, run[1..]);
      AllRightCons(w, xlsx, w.OutputFrom(xlsx, p), d);
      assert [] + d == d;
    }
  }

  lemma UnmarredKeepsRejoining(w: Plan, p: Parts, f: Faults)
    requires w.Configured() && w.AllFit(p) && w.AllRejoin(p) && (w.CutShort(p, f) || w.CleansUp(p, f))
    ensures w.AllFit(w.Attempt(p, f).0) && w.AllRejoin(w.Attempt(p, f).0)
  {
    hide Plan.Attempt, Plan.AllFit, Plan.AllRejoin, Plan.CutShort, Plan.CleansUp, Plan.AllCompleted;
    if w.CutShort(p, f) {
      CutShortChangesNothing(w, p, f);
    } else {
      CleansUpDelivers(w, p, f);
      NothingRejoins(w);
    }
  }

  /** A run from its `i`-th attempt on. */
  lemma RunGoesOn(w: Plan, xlsx: bool, p: Parts, run: seq<Faults>, i: nat)
    requires w.Configured() && i < |run|
    ensures var (left, delivers) := w.Attempt(p, run[i]);
            && w.LeftAfter(p, run[i..]) == w.LeftAfter(left, run[i + 1..])
            && w.Deliveries(xlsx, p, run[i..]) ==
               (if delivers then [w.OutputFrom(xlsx, p)] else []) + w.Deliveries(xlsx, left, run[i + 1..])
  {
    hide Plan.Attempt, Plan.OutputFrom;
    assert run[i..][0] == run[i] && run[i..][1..] == run[i + 1..];
  }

  // ---- One interruption ----

  /** The interruption falls between two deletes of parts of one table. */
  predicate BetweenDeletes(w: Plan, calls: nat)
    requires w.Configured()
  {
    var rooms, agents := w.PartsNeeded(Rooms), w.PartsNeeded(AgentStatusLogs);
    var before := rooms + agents + 1;
    before < calls < before + rooms || before + rooms < calls < before + rooms + agents
  }

  lemma EmptyCompletes(w: Plan, t: Table)
    requires w.Configured()
    ensures w.Completed(t, []) == Range(0, w.PartsNeeded(t))
  {
    assert Range(0, 0) == [];
    GaplessResumes(0, w.PartsNeeded(t), w.overwrite);
  }

  /** A table whose first parts were deleted rejoins exactly when none or all of them were. */
  lemma SuffixRejoinsIff(w: Plan, t: Table, deleted: nat)
    requires w.Configured() && deleted <= w.PartsNeeded(t)
    ensures w.Fits(t, Range(deleted, w.PartsNeeded(t)))
    ensures w.Rejoins(t, Range(deleted, w.PartsNeeded(t))) <==> deleted == 0 || deleted == w.PartsNeeded(t)
  {
    hide NumParts;
    var k := w.PartsNeeded(t);
    var n := Range(deleted, k);
    if deleted == 0 || deleted == k {
      assert Gapless(n);
      GaplessRejoins(w, t, n);
    } else {
      PartsAreChunks(|w.QueriedRows(t)|, w.chunk, 0);
      RejoinsIff(w, t, n);
      InterruptedCleanupIsNeverFull(w.QueriedRows(t), w.chunk, deleted, w.overwrite);
    }
  }

  lemma CleanRange(k: nat, d: nat)
    ensures Clean(Range(0, k), Some(d), []).parts == Range(Min(d, k), k)
    ensures Clean(Range(0, k), Some(d), []).ok <==> k <= d
    ensures k <= d ==> Clean(Range(0, k), Some(d), []) == Cleaned([], Some(d - k), [], true)
  {
    hide Clean;
    CleanWithoutFailures(Range(0, k), Some(d), []);
    if d < k {
      assert Range(0, k)[d..] == Range(d, k);
    }
  }

  /** What an attempt from no parts leaves when it is interrupted in its cleanup, after `d`
      calls of it. */
  lemma LeftByInterruption(w: Plan, d: nat)
    requires w.Configured()
    ensures var kr, ka := w.PartsNeeded(Rooms), w.PartsNeeded(AgentStatusLogs);
            w.Attempt(Parts([], []), Faults(Some(kr + ka + 1 + d), [])).0 ==
            Parts(Range(Min(d, kr), kr), Range(if kr <= d then Min(d - kr, ka) else 0, ka))
  {
    hide Clean, NumParts, Plan.SaveAll;
    var kr, ka := w.PartsNeeded(Rooms), w.PartsNeeded(AgentStatusLogs);
    var none := Parts([], []);
    NothingRejoins(w);
    SaveAllFacts(w, none, Some(kr + ka + 1 + d));
    EmptyCompletes(w, Rooms);
    EmptyCompletes(w, AgentStatusLogs);
    hide Plan.Completed, Plan.Rejoins, Plan.Fits;
    CleanRange(kr, d);
    if kr <= d {
      CleanRange(ka, d - kr);
    }
  }

  lemma TwoAttemptsDeliver(w: Plan, xlsx: bool, p: Parts, first: Faults)
    requires w.Configured() && w.AllFit(p)
    ensures var d := w.Deliveries(xlsx, p, [first, Faults(None, [])]);
            d != [] && d[|d| - 1] == w.OutputFrom(xlsx, w.Attempt(p, first).0)
  {
    hide Plan.Attempt, Plan.AllFit, Plan.OutputFrom, Plan.Configured;
    var last := Faults(None, []);
    var left := w.Attempt(p, first).0;
    AttemptKeepsFit(w, p, first);
    UninterruptedDelivers(w, left, []);
    assert [first, last][1..] == [last] && [last][1..] == [];
    assert w.Deliveries(xlsx, left, [last]) == [w.OutputFrom(xlsx, left)];
  }

  /** The exact effect of one interruption, at any storage call: the report delivered by
      the next attempt is right if and only if the interruption did not fall between two
      deletes of parts of one table. */
  lemma OneInterruptionIff(w: Plan, xlsx: bool, calls: nat)
    requires w.Configured()
    ensures var d := w.Deliveries(xlsx, Parts([], []), [Faults(Some(calls), []), Faults(None, [])]);
            d != [] && (d[|d| - 1] == w.FinalReport(xlsx) <==> !BetweenDeletes(w, calls))
  {
    var none, first := Parts([], []), Faults(Some(calls), []);
    NothingRejoins(w);
    AttemptKeepsFit(w, none, first);
    TwoAttemptsDeliver(w, xlsx, none, first);
    DeliveredIsRightIff(w, xlsx, w.Attempt(none, first).0);
    LeftRejoinsIff(w, calls);
  }

  lemma LeftRejoinsIff(w: Plan, calls: nat)
    requires w.Configured()
    ensures w.AllRejoin(w.Attempt(Parts([], []), Faults(Some(calls), [])).0) <==> !BetweenDeletes(w, calls)
  {
    hide Plan.Attempt, Plan.AllCompleted, Plan.AllRejoin, Plan.AllFit, NumParts;
    var none, first := Parts([], []), Faults(Some(calls), []);
    NothingRejoins(w);
    if w.CutShort(none, first) {
      CutShortChangesNothing(w, none, first);
    } else {
      CleanupRejoinsIff(w, calls - (w.PartsNeeded(Rooms) + w.PartsNeeded(AgentStatusLogs) + 1));
    }
  }

  lemma CleanupRejoinsIff(w: Plan, d: nat)
    requires w.Configured()
    ensures var calls := w.PartsNeeded(Rooms) + w.PartsNeeded(AgentStatusLogs) + 1 + d;
            w.AllRejoin(w.Attempt(Parts([], []), Faults(Some(calls), [])).0) <==> !BetweenDeletes(w, calls)
  {
    hide Plan.Attempt, Plan.Rejoins, Plan.Fits, NumParts, Range;
    var kr, ka := w.PartsNeeded(Rooms), w.PartsNeeded(AgentStatusLogs);
    LeftByInterruption(w, d);
    SuffixRejoinsIff(w, Rooms, Min(d, kr));
    SuffixRejoinsIff(w, AgentStatusLogs, if kr <= d then Min(d - kr, ka) else 0);
  }
}
