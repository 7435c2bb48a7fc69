/** Report workers over shared part storage: each may be interrupted before any storage
    call, and the next one resumes from the number of parts it finds. */
module ReportRuns {
  import opened Arithmetic
  import opened Listings
  import opened Options
  import opened PartNames
  import opened ReportAttempts
  import opened ReportParts

  type Files = map<Name, Content>

  // ---- Files as part numbers ----

  function PartsIn(files: Files, t: Table): set<Name> {
    set name | name in files && IsPart(t, name)
  }

  ghost predicate IsNamed(t: Table, name: Name, i: nat, overwrite: bool) {
    exists suffix :: name == PartName(Prefix(t), i, suffix) && (overwrite ==> suffix == "")
  }

  /** The files `q` are, in this order, the parts numbered `n`. */
  ghost predicate Reads(files: Files, t: Table, rows: seq<Row>, chunk: nat, q: seq<Name>, n: seq<nat>, overwrite: bool) {
    && |q| == |n|
    && forall j | 0 <= j < |q| ::
         q[j] in files && IsNamed(t, q[j], n[j], overwrite) && files[q[j]] == PartContent(rows, chunk, n[j])
  }

  /** The parts of the table, by name, are those numbered `n`. */
  ghost predicate Holds(files: Files, t: Table, rows: seq<Row>, chunk: nat, n: seq<nat>, overwrite: bool) {
    && Numbers(n, CAPACITY, overwrite)
    && TotalOn(Before, PartsIn(files, t))
    && Reads(files, t, rows, chunk, Listing(Before, PartsIn(files, t)), n, overwrite)
  }

  lemma NoParts(files: Files, t: Table, rows: seq<Row>, chunk: nat, overwrite: bool)
    requires PartsIn(files, t) == {}
    ensures Holds(files, t, rows, chunk, [], overwrite)
  {
    NamesAreOrdered(PartsIn(files, t));
  }

  lemma NamedIsPart(t: Table, u: Table, name: Name, i: nat, overwrite: bool)
    requires IsNamed(u, name, i, overwrite)
    ensures IsPart(t, name) <==> t == u
  {
    var suffix :| name == PartName(Prefix(u), i, suffix);
    PartsBelongToOneTable(t, u, i, suffix);
  }

  lemma NamesFollowNumbers(t: Table, x: Name, i: nat, y: Name, j: nat, overwrite: bool)
    requires IsNamed(t, x, i, overwrite) && IsNamed(t, y, j, overwrite) && i < CAPACITY && j < CAPACITY
    ensures Before(x, y) ==> i <= j
    ensures overwrite && Before(x, y) ==> i < j
    ensures overwrite && i == j ==> x == y
  {
    hide PartName, Before;
    var a :| x == PartName(Prefix(t), i, a) && (overwrite ==> a == "");
    var b :| y == PartName(Prefix(t), j, b) && (overwrite ==> b == "");
    if j < i {
      NamesSortNumerically(Prefix(t), j, b, i, a);
    }
    if Before(x, y) {
      BeforeIsStrict(x, y);
    }
  }

  /** Parts listed by name are listed by number. */
  lemma ListedByNumber(files: Files, t: Table, rows: seq<Row>, chunk: nat, q: seq<Name>, n: seq<nat>, overwrite: bool)
    requires Sorted(Before, q) && Reads(files, t, rows, chunk, q, n, overwrite) && Below(n, CAPACITY)
    ensures Numbers(n, CAPACITY, overwrite)
  {
    hide PartName, Before, IsNamed, PartContent;
    forall i, j | 0 <= i < j < |n| ensures n[i] <= n[j] && (overwrite ==> n[i] < n[j]) {
      assert Before(q[i], q[j]);
      NamesFollowNumbers(t, q[i], n[i], q[j], n[j], overwrite);
    }
  }

  lemma NewPart(files: Files, t: Table, rows: seq<Row>, chunk: nat, n: seq<nat>, overwrite: bool, i: nat, name: Name)
    requires Holds(files, t, rows, chunk, n, overwrite)
    requires i < CAPACITY && IsNamed(t, name, i, overwrite) && name !in files
    ensures Holds(files[name := PartContent(rows, chunk, i)], t, rows, chunk, Insert(n, i), overwrite)
  {
    hide PartName, Before, IsNamed, PartContent, IsPart, Numbers, TotalOn, Listing;
    var after := files[name := PartContent(rows, chunk, i)];
    NamedIsPart(t, t, name, i, overwrite);
    var s := PartsIn(files, t);
    assert PartsIn(after, t) == s + {name};
    NamesAreOrdered(s + {name});
    var p := ListingWith(Before, s, name);
    ReadsWith(files, t, rows, chunk, Listing(Before, s), n, overwrite, p, i, name);
    ListingLists(Before, s + {name});
    BelowWith(n, p, i, overwrite);
    ListedByNumber(after, t, rows, chunk, Listing(Before, s + {name}), n[..p] + [i] + n[p..], overwrite);
    InsertedNumbers(n, p, i, overwrite);
  }

  lemma ReadsWith(files: Files, t: Table, rows: seq<Row>, chunk: nat, q: seq<Name>, n: seq<nat>, overwrite: bool,
                  p: nat, i: nat, name: Name)
    requires Reads(files, t, rows, chunk, q, n, overwrite) && p <= |q|
    requires IsNamed(t, name, i, overwrite) && name !in files
    ensures Reads(files[name := PartContent(rows, chunk, i)], t, rows, chunk,
                  q[..p] + [name] + q[p..], n[..p] + [i] + n[p..], overwrite)
  {
    hide IsNamed, PartContent;
    var after := files[name := PartContent(rows, chunk, i)];
    var q', r := q[..p] + [name] + q[p..], n[..p] + [i] + n[p..];
    forall j | 0 <= j < |q'|
      ensures q'[j] in after && IsNamed(t, q'[j], r[j], overwrite) && after[q'[j]] == PartContent(rows, chunk, r[j])
    {
      if j != p {
        var k := if j < p then j else j - 1;
        assert q'[j] == q[k] && r[j] == n[k];
      }
    }
  }

  lemma BelowWith(n: seq<nat>, p: nat, i: nat, overwrite: bool)
    requires p <= |n| && Numbers(n, CAPACITY, overwrite) && i < CAPACITY
    ensures Below(n[..p] + [i] + n[p..], CAPACITY)
  {}

  lemma InsertedNumbers(n: seq<nat>, p: nat, i: nat, overwrite: bool)
    requires p <= |n| && Numbers(n[..p] + [i] + n[p..], CAPACITY, overwrite)
    ensures n[..p] + [i] + n[p..] == Insert(n, i)
  {
    InsertedAt(n, p, i);
  }

  /** Saving part `i` under a name that is free, or its own name when the storage overwrites. */
  lemma SavePart(files: Files, t: Table, rows: seq<Row>, chunk: nat, n: seq<nat>, overwrite: bool, i: nat, name: Name)
    requires Holds(files, t, rows, chunk, n, overwrite)
    requires i < CAPACITY && IsNamed(t, name, i, overwrite) && (name in files ==> overwrite)
    ensures Holds(files[name := PartContent(rows, chunk, i)], t, rows, chunk, Put(n, i, overwrite), overwrite)
  {
    hide PartName, Before, IsNamed, PartContent, IsPart, TotalOn, Listing;
    var q := Listing(Before, PartsIn(files, t));
    if name in files {
      NamedIsPart(t, t, name, i, overwrite);
      ListingLists(Before, PartsIn(files, t));
      assert name in Elements(q);
      var j :| 0 <= j < |q| && q[j] == name;
      SameNameSameNumber(t, name, i, n[j]);
      assert files[name := PartContent(rows, chunk, i)] == files;
    } else {
      NewPart(files, t, rows, chunk, n, overwrite, i, name);
      if overwrite && i in n {
        var j :| 0 <= j < |n| && n[j] == i;
        NamesFollowNumbers(t, q[j], i, name, i, overwrite);
        assert false;
      }
    }
  }

  lemma SameNameSameNumber(t: Table, name: Name, i: nat, j: nat)
    requires IsNamed(t, name, i, true) && IsNamed(t, name, j, true)
    ensures i == j
  {
    hide PartName;
    if i != j {
      NamesAreDistinct(Prefix(t), i, j);
    }
  }

  lemma RemovePart(files: Files, t: Table, rows: seq<Row>, chunk: nat, n: seq<nat>, overwrite: bool, p: nat)
    requires Holds(files, t, rows, chunk, n, overwrite) && p < |n|
    ensures Holds(files - {Listing(Before, PartsIn(files, t))[p]}, t, rows, chunk, n[..p] + n[p + 1..], overwrite)
    ensures IsPart(t, Listing(Before, PartsIn(files, t))[p])
    ensures Listing(Before, PartsIn(files - {Listing(Before, PartsIn(files, t))[p]}, t)) ==
            Listing(Before, PartsIn(files, t))[..p] + Listing(Before, PartsIn(files, t))[p + 1..]
  {
    hide PartName, Before, IsNamed, PartContent, TotalOn, Listing;
    var s := PartsIn(files, t);
    var q := Listing(Before, s);
    ListingLists(Before, s);
    assert q[p] in Elements(q);
    ListingWithout(Before, s, p);
    assert PartsIn(files - {q[p]}, t) == s - {q[p]};
    var q', r := q[..p] + q[p + 1..], n[..p] + n[p + 1..];
    ElementsWithout(Before, q, s, p);
    forall j | 0 <= j < |q'|
      ensures q'[j] in files - {q[p]} && IsNamed(t, q'[j], r[j], overwrite) && files[q'[j]] == PartContent(rows, chunk, r[j])
    {
      var k := if j < p then j else j + 1;
      assert q'[j] == q[k] && r[j] == n[k];
      assert q'[j] in Elements(q');
    }
    NumbersWithout(n, p, CAPACITY, overwrite);
  }

  lemma NumbersWithout(n: seq<nat>, p: nat, k: nat, overwrite: bool)
    requires p < |n| && Numbers(n, k, overwrite)
    ensures Numbers(n[..p] + n[p + 1..], k, overwrite)
  {
    var r := n[..p] + n[p + 1..];
    forall i, j | 0 <= i < j < |r| ensures r[i] <= r[j] && (overwrite ==> r[i] < r[j]) {
      assert r[i] == n[if i < p then i else i + 1] && r[j] == n[if j < p then j else j + 1];
    }
  }

  /** Only files of the table differ. */
  ghost predicate OnlyTable(before: Files, after: Files, t: Table) {
    forall name | !IsPart(t, name) :: (name in before <==> name in after) && (name in before ==> before[name] == after[name])
  }

  lemma SameFiles(files: Files, t: Table)
    ensures OnlyTable(files, files, t)
  {}

  lemma DeletedOnly(before: Files, after: Files, t: Table, name: Name)
    requires OnlyTable(before, after, t) && IsPart(t, name)
    ensures OnlyTable(before, after - {name}, t)
  {}

  /** Taking the first of what is left, or keeping it. */
  lemma CutHere<T>(kept: seq<T>, q: seq<T>, i: nat)
    requires i < |q|
    ensures var rest := kept + q[i..];
            && rest[|kept|] == q[i]
            && rest[..|kept|] + rest[|kept| + 1..] == kept + q[i + 1..]
            && rest == kept + [q[i]] + q[i + 1..]
  {
    assert q[i..] == [q[i]] + q[i + 1..];
  }

  lemma OtherTableHolds(before: Files, after: Files, t: Table, u: Table, rows: seq<Row>, chunk: nat, n: seq<nat>, overwrite: bool)
    requires OnlyTable(before, after, t) && t != u && Holds(before, u, rows, chunk, n, overwrite)
    ensures Holds(after, u, rows, chunk, n, overwrite)
  {
    hide PartName, Before, IsNamed, PartContent, IsPart, TotalOn, Listing;
    forall name | IsPart(u, name) ensures !IsPart(t, name) {
      TablesShareNoPart(u, t, name);
    }
    assert PartsIn(after, u) == PartsIn(before, u);
    ListingLists(Before, PartsIn(before, u));
    var q := Listing(Before, PartsIn(before, u));
    forall j | 0 <= j < |q| ensures q[j] in after && after[q[j]] == before[q[j]] {
      assert q[j] in Elements(q);
    }
  }

  // ---- Reading the parts back ----

  function ContentsOf(files: Files, parts: seq<Name>): (c: seq<Content>)
    requires forall i | 0 <= i < |parts| :: parts[i] in files
    ensures |c| == |parts|
  {
    seq(|parts|, i requires 0 <= i < |parts| => files[parts[i]])
  }

  function Flatten(parts: seq<Content>): Content {
    if parts == [] then [] else parts[0] + Flatten(parts[1..])
  }

  lemma {:induction false} FlattenSnoc(parts: seq<Content>, last: Content)
    ensures Flatten(parts + [last]) == Flatten(parts) + last
  {
    if parts == [] {
      assert [last][1..] == [];
      assert parts + [last] == [last];
    } else {
      assert (parts + [last])[1..] == parts[1..] + [last];
      FlattenSnoc(parts[1..], last);
    }
  }

  predicate Within(i: nat, a: nat, b: nat) {
    a <= i < b
  }

  function Shifted(c: Content, at: nat, end: nat): map<nat, Line>
    requires end == at + |c|
  {
    map i: nat | at <= i < end && Within(i, at, end) :: c[i - at]
  }

  /** Writes the lines of `c` into the rows from `at` on. */
  function ToSheet(cells: map<nat, Line>, at: nat, c: Content): map<nat, Line> {
    cells + Shifted(c, at, at + |c|)
  }

  lemma ToSheetExtends(c: Content, d: Content)
    ensures ToSheet(SheetOf(c), |c|, d) == SheetOf(c + d)
  {
    var end := |c| + |d|;
    assert forall i: nat :: Within(i, |c|, end) <==> |c| <= i < end;
  }

  /** What a sheet shows below its heading: the first line of the first part is the
      heading, unless that part is blank. */
  function SheetRows(cs: seq<Content>): Content {
    if cs == [] then [] else (if cs[0] == [] then [] else cs[0][1..]) + Flatten(cs[1..])
  }

  function SheetHeading(cs: seq<Content>): Line
    requires cs != []
  {
    if cs[0] == [] then ColumnNumbers else cs[0][0]
  }

  /** A sheet without rows stays empty. */
  function SheetLines(cs: seq<Content>): Content {
    if SheetRows(cs) == [] then [] else [SheetHeading(cs)] + SheetRows(cs)
  }

  /** The parts numbered `n`, read back, are the parts joined. */
  lemma {:induction false} ReadsJoin(files: Files, t: Table, rows: seq<Row>, chunk: nat, q: seq<Name>, n: seq<nat>, overwrite: bool)
    requires Reads(files, t, rows, chunk, q, n, overwrite)
    ensures (forall i | 0 <= i < |q| :: q[i] in files) && Flatten(ContentsOf(files, q)) == Joined(rows, chunk, n)
  {
    hide IsNamed, PartContent;
    if q != [] {
      assert Reads(files, t, rows, chunk, q[1..], n[1..], overwrite) by {
        forall j | 0 <= j < |q[1..]|
          ensures q[1..][j] in files && IsNamed(t, q[1..][j], n[1..][j], overwrite)
                  && files[q[1..][j]] == PartContent(rows, chunk, n[1..][j])
        {
          assert q[1..][j] == q[j + 1] && n[1..][j] == n[j + 1];
        }
      }
      ReadsJoin(files, t, rows, chunk, q[1..], n[1..], overwrite);
      assert ContentsOf(files, q)[1..] == ContentsOf(files, q[1..]);
    }
  }

  /** A sheet of parts with lines shows them joined, or nothing when that is one line. */
  lemma SheetShowsJoined(cs: seq<Content>)
    requires cs != [] && cs[0] != []
    ensures SheetLines(cs) == if |Flatten(cs)| == 1 then [] else Flatten(cs)
  {
    var c, rest := cs[0], Flatten(cs[1..]);
    assert Flatten(cs) == c + rest;
    hide Flatten;
    assert c + rest == [c[0]] + (c[1..] + rest);
  }

  lemma SheetSize(c: Content)
    ensures |SheetOf(c)| == |c|
  {
    if c == [] {
      assert SheetOf(c).Keys == {};
    } else {
      var n := |c| - 1;
      SheetSize(c[..n]);
      assert SheetOf(c).Keys == SheetOf(c[..n]).Keys + {n};
    }
  }

  /** What part `i` adds to the rows of the sheet. */
  function Frame(cs: seq<Content>, i: nat): Content
    requires i < |cs|
  {
    if i == 0 && cs[0] != [] then cs[0][1..] else cs[i]
  }

  lemma SheetRowsGrow(cs: seq<Content>, i: nat)
    requires i < |cs|
    ensures SheetRows(cs[..i + 1]) == SheetRows(cs[..i]) + Frame(cs, i)
  {
    var before, after := cs[..i], cs[..i + 1];
    if i > 0 {
      assert after[1..] == before[1..] + [cs[i]];
      FlattenSnoc(before[1..], cs[i]);
    } else {
      assert after[1..] == [] && Flatten([]) == [];
    }
  }

  lemma SheetGrows(cs: seq<Content>, i: nat)
    requires i < |cs|
    ensures SheetLines(cs[..i + 1]) ==
            if Frame(cs, i) == [] then SheetLines(cs[..i])
            else if SheetLines(cs[..i]) == [] then [SheetHeading(cs)] + Frame(cs, i)
            else SheetLines(cs[..i]) + Frame(cs, i)
  {
    hide SheetRows;
    SheetRowsGrow(cs, i);
    if i == 0 {
      NoSheetRows(cs);
    }
  }

  lemma NothingInSheet(cs: seq<Content>)
    ensures SheetLines(cs[..0]) == [] && SheetOf([]) == map[]
  {}

  lemma NoSheetRows(cs: seq<Content>)
    ensures SheetRows(cs[..0]) == []
  {}

  lemma NamedBy(t: Table, i: nat, suffix: Name, overwrite: bool)
    requires overwrite ==> suffix == ""
    ensures IsNamed(t, PartName(Prefix(t), i, suffix), i, overwrite)
  {}

  lemma LongerThanSuffix(t: Table, i: nat, suffix: Name)
    ensures |suffix| < |PartName(Prefix(t), i, suffix)|
  {}

  lemma {:induction false} LongestName(names: set<Name>) returns (bound: nat)
    ensures forall name | name in names :: |name| <= bound
    decreases names
  {
    bound := 0;
    if names != {} {
      var name :| name in names;
      bound := LongestName(names - {name});
      bound := if |name| < bound then bound else |name|;
    }
  }

  class ReportWorker {
    const plan: Plan
    var files: Files
    var calls: Option<nat> // storage calls before the interruption, if there is one
    var fails: seq<bool> // which of the next deletes fail

    constructor (plan: Plan)
      requires 1 <= plan.chunk
      ensures this.plan == plan && files == map[] && calls == None && fails == []
      ensures plan.Configured() ==> AllStored(files, Parts([], []))
    {
      this.plan := plan;
      files, calls, fails := map[], None, [];
      new;
      NoParts(files, Rooms, plan.QueriedRows(Rooms), plan.chunk, plan.overwrite);
      NoParts(files, AgentStatusLogs, plan.QueriedRows(AgentStatusLogs), plan.chunk, plan.overwrite);
    }

    /** The table's parts in storage are numbered `n`, and no more than it needs. */
    ghost predicate Stored(f: Files, t: Table, n: seq<nat>)
      requires plan.Configured()
    {
      Holds(f, t, plan.QueriedRows(t), plan.chunk, n, plan.overwrite) && plan.Fits(t, n)
    }

    ghost predicate AllStored(f: Files, p: Parts)
      requires plan.Configured()
    {
      Stored(f, Rooms, p.rooms) && Stored(f, AgentStatusLogs, p.agents)
    }

    lemma AllStoredFits(p: Parts)
      requires plan.Configured() && AllStored(files, p)
      ensures plan.AllFit(p)
    {}

    // ---- Storage ----

    method Call() returns (ok: bool)
      modifies this`calls
      ensures ok <==> Suffices(old(calls), 1)
      ensures calls == if ok then Spent(old(calls), 1) else old(calls)
    {
      if calls == Some(0) {
        return false;
      }
      calls := if calls.Some? then Some(calls.value - 1) else None;
      ok := true;
    }

    method ListExistingParts(t: Table) returns (parts: seq<Name>)
      ensures TotalOn(Before, PartsIn(files, t))
      ensures parts == Listing(Before, PartsIn(files, t))
      ensures |parts| == |PartsIn(files, t)|
    {
      NamesAreOrdered(PartsIn(files, t));
      ListingLists(Before, PartsIn(files, t));
      parts := Listing(Before, PartsIn(files, t));
    }

    /** The name the storage saves under: the part's own when it overwrites or the name is
        free, else one with a suffix that makes it free. */
    method GetAvailableName(t: Table, i: nat) returns (name: Name)
      ensures IsNamed(t, name, i, plan.overwrite) && (name in files ==> plan.overwrite)
    {
      hide PartName, IsNamed;
      name := PartName(Prefix(t), i, "");
      NamedBy(t, i, "", plan.overwrite);
      if plan.overwrite || name !in files {
        return;
      }
      ghost var bound := LongestName(files.Keys);
      var suffix: Name := *;
      suffix := "_" + suffix;
      name := PartName(Prefix(t), i, suffix);
      while name in files
        invariant name == PartName(Prefix(t), i, suffix)
        decreases bound - |suffix|
      {
        LongerThanSuffix(t, i, suffix);
        suffix := suffix + "0";
        name := PartName(Prefix(t), i, suffix);
      }
      NamedBy(t, i, suffix, plan.overwrite);
    }

    /** Saves one chunk as part `i`. */
    method WriteChunkToPart(t: Table, rows: seq<Row>, i: nat, start: nat, end: nat, includeHeader: bool, ghost n: seq<nat>)
      returns (ok: bool)
      requires 1 <= plan.chunk && start == i * plan.chunk && start < |rows| && end == Min(start + plan.chunk, |rows|)
      requires includeHeader == (i == 0) && i < CAPACITY && Holds(files, t, rows, plan.chunk, n, plan.overwrite)
      modifies this`files, this`calls
      ensures ok <==> Suffices(old(calls), 1)
      ensures calls == if ok then Spent(old(calls), 1) else old(calls)
      ensures Holds(files, t, rows, plan.chunk, if ok then Put(n, i, plan.overwrite) else n, plan.overwrite)
      ensures OnlyTable(old(files), files, t)
    {
      hide Holds, PartContent, IsNamed, IsPart, Put;
      ok := Call();
      if ok {
        var name := GetAvailableName(t, i);
        var content := (if includeHeader then [Header] else []) + Lines(rows[start..end]);
        RangeIsPart(rows, i, start, end);
        SavePart(files, t, rows, plan.chunk, n, plan.overwrite, i, name);
        NamedIsPart(t, t, name, i, plan.overwrite);
        files := files[name := content];
      }
    }

    lemma RangeIsPart(rows: seq<Row>, i: nat, start: nat, end: nat)
      requires 1 <= plan.chunk && start == i * plan.chunk && start < |rows| && end == Min(start + plan.chunk, |rows|)
      ensures PartContent(rows, plan.chunk, i) == (if i == 0 then [Header] else []) + Lines(rows[start..end])
    {
      MulStep(i, plan.chunk);
    }

    /** Writes the parts numbered from `completed` on, one call each, as far as the calls
        go. */
    method WritePartsFromQueryset(t: Table, rows: seq<Row>, completed: nat, ghost n: seq<nat>) returns (ok: bool)
      requires 1 <= plan.chunk && NumParts(|rows|, plan.chunk) <= CAPACITY
      requires Holds(files, t, rows, plan.chunk, n, plan.overwrite)
      modifies this`files, this`calls
      ensures var missing := Lacking(completed, NumParts(|rows|, plan.chunk));
              && (ok <==> Suffices(old(calls), missing))
              && calls == (if ok then Spent(old(calls), missing) else Some(0))
              && Holds(files, t, rows, plan.chunk,
                       Resumed(n, completed, completed + if ok then missing else old(calls).value, plan.overwrite), plan.overwrite)
      ensures OnlyTable(old(files), files, t)
    {
      hide Holds, PartContent, IsNamed, IsPart, Put, NumParts;
      ghost var done := 0;
      PartsAreChunks(|rows|, plan.chunk, 0);
      if |rows| == 0 {
        return true;
      }
      var partIndex := completed;
      var headerWritten := completed > 0;
      var start := completed * plan.chunk;
      while start < |rows|
        invariant partIndex == completed + done && start == partIndex * plan.chunk && headerWritten == (partIndex > 0)
        invariant done <= Lacking(completed, NumParts(|rows|, plan.chunk))
        invariant Suffices(old(calls), done) && calls == Spent(old(calls), done)
        invariant Holds(files, t, rows, plan.chunk, Resumed(n, completed, partIndex, plan.overwrite), plan.overwrite)
        invariant OnlyTable(old(files), files, t)
        decreases |rows| - start
      {
        var end := Min(start + plan.chunk, |rows|);
        PartsAreChunks(|rows|, plan.chunk, partIndex);
        ok := WriteChunkToPart(t, rows, partIndex, start, end, !headerWritten, Resumed(n, completed, partIndex, plan.overwrite));
        if !ok {
          return;
        }
        ResumedSplits(n, completed, partIndex, partIndex + 1, plan.overwrite);
        ResumedOnce(Resumed(n, completed, partIndex, plan.overwrite), partIndex);
        MulStep(partIndex, plan.chunk);
        headerWritten := true;
        partIndex, done := partIndex + 1, done + 1;
        start := start + plan.chunk;
      }
      PartsAreChunks(|rows|, plan.chunk, partIndex);
      ok := true;
    }

    lemma ResumedOnce(n: seq<nat>, i: nat)
      ensures Resumed(n, i, i + 1, plan.overwrite) == Put(n, i, plan.overwrite)
    {
      assert Resumed(Put(n, i, plan.overwrite), i + 1, i + 1, plan.overwrite) == Put(n, i, plan.overwrite);
    }

    /** One part at a time into a file; without parts, the requested fields as header. */
    method StreamPartsToCsvFile(parts: seq<Name>, requestedFields: bool) returns (f: Content)
      requires forall i | 0 <= i < |parts| :: parts[i] in files
      ensures parts == [] ==> f == if requestedFields then [Header] else []
      ensures parts != [] ==> f == Flatten(ContentsOf(files, parts))
    {
      f := [];
      if parts == [] {
        return if requestedFields then [Header] else [];
      }
      var cs := ContentsOf(files, parts);
      for i := 0 to |parts|
        invariant f == Flatten(cs[..i])
      {
        f := f + files[parts[i]];
        FlattenSnoc(cs[..i], cs[i]);
        assert cs[..i] + [cs[i]] == cs[..i + 1];
      }
      assert cs[..|parts|] == cs;
    }

    /** Writes a frame below what the sheet has, with the heading when it has nothing. */
    method ToExcel(cells: map<nat, Line>, currentRow: nat, columns: Line, frame: Content, ghost sheet: Content)
      returns (after: map<nat, Line>, nextRow: nat, ghost written: nat)
      requires frame != [] && cells == SheetOf(sheet) && currentRow == |sheet|
      ensures var next := if sheet == [] then [columns] + frame else sheet + frame;
              after == SheetOf(next) && nextRow == written == |next|
    {
      hide SheetOf, ToSheet;
      var isFirstWrite := currentRow == 0;
      var block := if isFirstWrite then [columns] + frame else frame;
      ToSheetExtends(sheet, block);
      assert sheet == [] ==> sheet + block == block;
      after := ToSheet(cells, currentRow, block);
      written := |sheet| + |block|;
      nextRow := currentRow;
      if isFirstWrite {
        nextRow := 1;
      }
      nextRow := nextRow + |frame|;
    }

    /** The loop over the contents of the parts. */
    method CombineContents(cs: seq<Content>) returns (cells: map<nat, Line>, ghost written: nat)
      requires cs != []
      ensures cells == SheetOf(SheetLines(cs)) && written == |cells|
    {
      hide SheetOf, Flatten, SheetLines, SheetRows;
      var currentRow: nat;
      var columns := ColumnNumbers;
      NothingInSheet(cs);
      cells, currentRow, written := map[], 0, 0;
      for i := 0 to |cs|
        invariant columns == if i == 0 then ColumnNumbers else SheetHeading(cs)
        invariant cells == SheetOf(SheetLines(cs[..i])) && currentRow == written == |SheetLines(cs[..i])|
      {
        SheetGrows(cs, i);
        var content := cs[i];
        var frame := content;
        if content == [] {
          continue;
        }
        if i == 0 {
          columns, frame := content[0], content[1..];
        }
        if frame == [] {
          continue;
        }
        cells, currentRow, written := ToExcel(cells, currentRow, columns, frame, SheetLines(cs[..i]));
      }
      assert cs[..|cs|] == cs;
      SheetSize(SheetLines(cs));
    }

    /** Parts into a sheet: the first line of the first part is the heading, and the rows
        of each part start where the previous ones ended. Every row holds the line it
        should, so none was written over; `written` counts the rows. */
    method CombinePartsToSheet(parts: seq<Name>, requestedFields: bool)
      returns (cells: map<nat, Line>, ghost written: nat)
      requires forall i | 0 <= i < |parts| :: parts[i] in files
      ensures parts == [] ==> cells == SheetOf(if requestedFields then [Header] else [])
      ensures parts != [] ==> cells == SheetOf(SheetLines(ContentsOf(files, parts)))
      ensures written == |cells|
    {
      if parts == [] {
        cells := SheetOf(if requestedFields then [Header] else []);
        written := |cells|;
        return;
      }
      cells, written := CombineContents(ContentsOf(files, parts));
    }

    // ---- Saving ----

    lemma NothingToSave(t: Table, n: seq<nat>)
      requires plan.Configured() && plan.Fits(t, n) && plan.QueriedRows(t) == []
      ensures plan.SaveTable(t, n, calls) == Saved(n, calls, true)
    {
      NoRowsNoParts(plan, t, n);
    }

    lemma SavedAll(t: Table, n: seq<nat>, before: Option<nat>, ok: bool)
      requires plan.Configured() && plan.Fits(t, n)
      requires var missing := Lacking(|n|, plan.PartsNeeded(t));
               (ok <==> Suffices(before, missing))
      ensures var missing := Lacking(|n|, plan.PartsNeeded(t));
              plan.SaveTable(t, n, before) ==
              Saved(Resumed(n, |n|, |n| + if ok then missing else before.value, plan.overwrite),
                    if ok then Spent(before, missing) else Some(0), ok)
    {
      hide Resumed, NumParts, Numbers;
    }

    lemma StoredPartsAreCounted(t: Table, n: seq<nat>)
      requires plan.Configured() && Stored(files, t, n)
      ensures |PartsIn(files, t)| == |n|
    {
      ListingLists(Before, PartsIn(files, t));
    }

    lemma SavedIsStored(f: Files, t: Table, n: seq<nat>, before: Option<nat>)
      requires plan.Configured() && plan.Fits(t, n)
      requires Holds(f, t, plan.QueriedRows(t), plan.chunk, plan.SaveTable(t, n, before).parts, plan.overwrite)
      ensures Stored(f, t, plan.SaveTable(t, n, before).parts)
    {
      SaveFacts(plan, t, n, before);
    }

    lemma StoredHolds(t: Table, n: seq<nat>)
      requires plan.Configured() && Stored(files, t, n)
      ensures Holds(files, t, plan.QueriedRows(t), plan.chunk, n, plan.overwrite) && plan.Fits(t, n)
    {}

    /** Brings one table up to date from the number of its existing parts. */
    method ResumeTable(t: Table, ghost n: seq<nat>) returns (ok: bool)
      requires plan.Configured() && Stored(files, t, n)
      modifies this`files, this`calls
      ensures var s := plan.SaveTable(t, n, old(calls));
              Stored(files, t, s.parts) && calls == s.calls && ok == s.ok
      ensures OnlyTable(old(files), files, t)
    {
      hide Stored, Holds, IsPart, PartsIn, NumParts, Resumed, OnlyTable, Listing, Plan.SaveTable, Plan.Fits;
      StoredHolds(t, n);
      if !plan.SourceOf(t).requested {
        NothingToSave(t, n);
        SameFiles(files, t);
        return true;
      }
      var parts := ListExistingParts(t);
      StoredPartsAreCounted(t, n);
      ok := WritePartsFromQueryset(t, plan.SourceOf(t).rows, |parts|, n);
      SavedAll(t, n, old(calls), ok);
      SavedIsStored(files, t, n, old(calls));
    }

    method JoinTable(t: Table, ghost n: seq<nat>) returns (f: Content, cells: map<nat, Line>)
      requires plan.Configured() && Stored(files, t, n)
      ensures f == plan.FileLines(t, n)
      ensures cells == SheetOf(plan.SheetContent(t, n))
    {
      StoredReadsBack(t, n);
      var parts := ListExistingParts(t);
      var requested := plan.SourceOf(t).requested;
      hide Listing, Stored, SheetOf, Joined, ContentsOf;
      f := StreamPartsToCsvFile(parts, requested);
      ghost var written;
      cells, written := CombinePartsToSheet(parts, requested);
    }

    lemma StoredReadsBack(t: Table, n: seq<nat>)
      requires plan.Configured() && Stored(files, t, n)
      ensures TotalOn(Before, PartsIn(files, t))
      ensures var q := Listing(Before, PartsIn(files, t));
              && (q == [] <==> n == [])
              && (forall i | 0 <= i < |q| :: q[i] in files)
              && (q != [] ==>
                    && Flatten(ContentsOf(files, q)) == plan.FileLines(t, n)
                    && SheetLines(ContentsOf(files, q)) == plan.SheetContent(t, n))
    {
      var q := Listing(Before, PartsIn(files, t));
      ReadsJoin(files, t, plan.QueriedRows(t), plan.chunk, q, n, plan.overwrite);
      if q != [] {
        PartSizes(plan.QueriedRows(t), plan.chunk, n[0]);
        hide PartContent, Listing, Joined;
        SheetShowsJoined(ContentsOf(files, q));
        assert |Flatten(ContentsOf(files, q))| >= 1;
      }
    }

    // ---- Cleanup ----

    /** The table's parts, by name, with their numbers, and nothing else changed. */
    ghost predicate Listed(before: Files, f: Files, t: Table, names: seq<Name>, n: seq<nat>)
      requires plan.Configured()
    {
      Stored(f, t, n) && Listing(Before, PartsIn(f, t)) == names && OnlyTable(before, f, t)
    }

    /** The storage's delete: it removes the file, or fails and is passed over. */
    method DeleteFile(t: Table, name: Name, ghost before: Files, ghost names: seq<Name>, ghost n: seq<nat>, ghost p: nat)
      returns (deleted: bool)
      requires plan.Configured() && Listed(before, files, t, names, n) && p < |n| && p < |names| && names[p] == name
      modifies this`files, this`fails
      ensures deleted == !FailsNext(old(fails)) && fails == Later(old(fails))
      ensures if deleted then Listed(before, files, t, names[..p] + names[p + 1..], n[..p] + n[p + 1..])
              else Listed(before, files, t, names, n)
    {
      deleted := !FailsNext(fails);
      fails := Later(fails);
      if deleted {
        DeletePart(before, t, names, n, p);
        files := files - {name};
      }
    }

    lemma DeletePart(before: Files, t: Table, names: seq<Name>, n: seq<nat>, p: nat)
      requires plan.Configured() && Listed(before, files, t, names, n) && p < |n| && p < |names|
      ensures Listed(before, files - {names[p]}, t, names[..p] + names[p + 1..], n[..p] + n[p + 1..])
    {
      hide PartContent, Listing, Before, TotalOn, PartsIn, IsPart, OnlyTable, Below, Numbers, IsNamed;
      RemovePart(files, t, plan.QueriedRows(t), plan.chunk, n, plan.overwrite, p);
      hide Holds, Reads;
      NumbersWithout(n, p, plan.PartsNeeded(t), plan.overwrite);
      DeletedOnly(before, files, t, names[p]);
    }

    lemma NothingDeleted(t: Table, n: seq<nat>)
      requires plan.Configured() && Stored(files, t, n)
      ensures Listed(files, files, t, Listing(Before, PartsIn(files, t)), n)
    {
      SameFiles(files, t);
    }

    lemma ListedIsStored(before: Files, t: Table, names: seq<Name>, n: seq<nat>)
      requires plan.Configured() && Listed(before, files, t, names, n)
      ensures Stored(files, t, n) && OnlyTable(before, files, t)
    {}

    /** The delete of the first part not yet tried, behind those that were kept. */
    method DeleteNext(t: Table, parts: seq<Name>, i: nat, ghost before: Files, ghost n: seq<nat>,
                      ghost kept: seq<nat>, ghost keptNames: seq<Name>)
      returns (ghost nowKept: seq<nat>, ghost nowNames: seq<Name>)
      requires plan.Configured() && i < |n| && i < |parts| && |kept| == |keptNames|
      requires Listed(before, files, t, keptNames + parts[i..], kept + n[i..])
      modifies this`files, this`fails
      ensures fails == Later(old(fails))
      ensures Listed(before, files, t, nowNames + parts[i + 1..], nowKept + n[i + 1..])
      ensures if FailsNext(old(fails)) then nowKept == kept + [n[i]] && nowNames == keptNames + [parts[i]]
              else nowKept == kept && nowNames == keptNames
    {
      hide Listed;
      CutHere(keptNames, parts, i);
      CutHere(kept, n, i);
      var gone := DeleteFile(t, parts[i], before, keptNames + parts[i..], kept + n[i..], |kept|);
      nowKept := if gone then kept else kept + [n[i]];
      nowNames := if gone then keptNames else keptNames + [parts[i]];
    }

    /** Deletes a table's parts by ascending name. A delete that fails is passed over; an
        interruption leaves the rest. */
    method CleanupTable(t: Table, ghost n: seq<nat>) returns (ok: bool)
      requires plan.Configured() && Stored(files, t, n)
      modifies this
      ensures var c := Clean(n, old(calls), old(fails));
              Stored(files, t, c.parts) && calls == c.calls && fails == c.fails && ok == c.ok
      ensures OnlyTable(old(files), files, t)
    {
      hide Stored, OnlyTable, IsPart, PartsIn, TotalOn, Listing, Listed, Clean;
      var parts := ListExistingParts(t);
      StoredPartsAreCounted(t, n);
      NothingDeleted(t, n);
      ghost var kept, keptNames: seq<Name> := [], [];
      assert n[0..] == n && kept + n[0..] == n && keptNames + parts[0..] == parts;
      for i := 0 to |parts|
        invariant |parts| == |n| && |kept| == |keptNames|
        invariant Listed(old(files), files, t, keptNames + parts[i..], kept + n[i..])
        invariant Clean(n, old(calls), old(fails)) == Behind(kept, Clean(n[i..], calls, fails))
      {
        CleanNext(n[i..], calls, fails, kept);
        assert n[i..][1..] == n[i + 1..];
        ok := Call();
        if !ok {
          ListedIsStored(old(files), t, keptNames + parts[i..], kept + n[i..]);
          return;
        }
        kept, keptNames := DeleteNext(t, parts, i, old(files), n, kept, keptNames);
      }
      ListedIsStored(old(files), t, keptNames + parts[|parts|..], kept + n[|parts|..]);
      NothingToClean(calls, fails);
      ok := true;
    }

    lemma OtherStored(before: Files, after: Files, t: Table, u: Table, n: seq<nat>)
      requires plan.Configured() && OnlyTable(before, after, t) && t != u && Stored(before, u, n)
      ensures Stored(after, u, n)
    {
      OtherTableHolds(before, after, t, u, plan.QueriedRows(u), plan.chunk, n, plan.overwrite);
    }

    // ---- Attempts ----

    /** Brings both tables up to date, or as far as an interruption lets it. */
    method ResumeTables(ghost p: Parts) returns (ok: bool)
      requires plan.Configured() && AllStored(files, p)
      modifies this`files, this`calls
      ensures var (left, rest, saved) := plan.SaveAll(p, old(calls));
              AllStored(files, left) && calls == rest && ok == saved
    {
      hide Stored, OnlyTable, Plan.SaveTable;
      ghost var before := files;
      ghost var r := plan.SaveTable(Rooms, p.rooms, calls);
      ok := ResumeTable(Rooms, p.rooms);
      OtherStored(before, files, Rooms, AgentStatusLogs, p.agents);
      if !ok {
        return;
      }
      before := files;
      ok := ResumeTable(AgentStatusLogs, p.agents);
      OtherStored(before, files, AgentStatusLogs, Rooms, r.parts);
    }

    /** Removes the parts of both tables and then their directory, whose deletion touches
        no part. */
    method CleanupParts(ghost p: Parts) returns (ok: bool)
      requires plan.Configured() && AllStored(files, p)
      modifies this
      ensures var (left, done) := plan.CleanAll(p, old(calls), old(fails));
              AllStored(files, left) && ok == done
    {
      hide Stored, OnlyTable, Clean;
      ghost var before := files;
      ghost var r := Clean(p.rooms, calls, fails);
      ok := CleanupTable(Rooms, p.rooms);
      OtherStored(before, files, Rooms, AgentStatusLogs, p.agents);
      if !ok {
        return;
      }
      before := files;
      ok := CleanupTable(AgentStatusLogs, p.agents);
      OtherStored(before, files, AgentStatusLogs, Rooms, r.parts);
      if ok {
        ok := Call();
      }
    }

    /** One attempt at the report: what it delivers and leaves is what the parts, the
        interruption and the failing deletes make of it. What it delivers is the report of
        one uninterrupted pass if and only if the parts it started from rejoin. */
    method ProcessReportWithResume(xlsx: bool, ghost p: Parts) returns (output: Option<Output>)
      requires plan.Configured() && AllStored(files, p)
      modifies this
      ensures var (left, delivers) := plan.Attempt(p, Faults(old(calls), old(fails)));
              AllStored(files, left) && output == if delivers then Some(plan.OutputFrom(xlsx, p)) else None
      ensures output.Some? ==> (output.value == plan.FinalReport(xlsx) <==> plan.AllRejoin(p))
    {
      hide Stored, Plan.Rejoins, Plan.Completed, Plan.FileLines, Plan.SheetContent, SheetOf, Plan.Expected, Plan.SaveAll,
        Plan.CleanAll, Plan.Fits, Suffices;
      ghost var f := Faults(calls, fails);
      AllStoredFits(p);
      DeliveredIsRightIff(plan, xlsx, p);
      SaveAllFacts(plan, p, calls);
      output := None;
      ghost var (left, rest, saved) := plan.SaveAll(p, calls);
      var ok := ResumeTables(p);
      if !ok {
        return;
      }
      ok := Call();
      if !ok {
        return;
      }
      var roomsFile, roomsSheet := JoinTable(Rooms, left.rooms);
      var agentsFile, agentsSheet := JoinTable(AgentStatusLogs, left.agents);
      ok := CleanupParts(left);
      if ok {
        output := Some(if xlsx then Workbook(roomsSheet, agentsSheet) else Zip(roomsFile, agentsFile));
      }
    }

    /** One more attempt, with what happens to it. */
    method NextAttempt(f: Faults, xlsx: bool, ghost p: Parts) returns (next: seq<Output>)
      requires plan.Configured() && AllStored(files, p)
      modifies this
      ensures AllStored(files, plan.Attempt(p, f).0)
      ensures next == if plan.Attempt(p, f).1 then [plan.OutputFrom(xlsx, p)] else []
    {
      hide AllStored, Plan.Attempt, Plan.OutputFrom, Plan.FinalReport, Plan.AllRejoin;
      calls, fails := f.calls, f.fails;
      var output := ProcessReportWithResume(xlsx, p);
      next := if output.Some? then [output.value] else [];
    }

    /** Attempts one after the other. What they deliver is a function of the parts found
        first, the interruptions and the failing deletes; each delivery is right if and only
        if the parts its attempt started from rejoin, and all are when the first parts rejoin
        and no cleanup was marred. */
    method RunReport(run: seq<Faults>, xlsx: bool, ghost p: Parts) returns (deliveries: seq<Output>)
      requires plan.Configured() && AllStored(files, p)
      modifies this
      ensures deliveries == plan.Deliveries(xlsx, p, run) && AllStored(files, plan.LeftAfter(p, run))
      ensures plan.RightIffRejoining(xlsx, deliveries, plan.Starts(p, run))
      ensures plan.AllRejoin(p) && plan.NoneMarred(p, run) ==> plan.AllRight(xlsx, deliveries)
    {
      hide AllStored, Plan.AllFit, Plan.AllRejoin, Plan.FinalReport, Plan.Attempt, Plan.OutputFrom, Plan.Deliveries,
        Plan.Starts, Plan.LeftAfter, Plan.NoneMarred, Plan.Configured, Plan.RightIffRejoining, Plan.AllRight;
      AllStoredFits(p);
      DeliveriesAreRightIff(plan, xlsx, p, run);
      if plan.AllRejoin(p) && plan.NoneMarred(p, run) {
        UnmarredRunIsRight(plan, xlsx, p, run);
      }
      deliveries := [];
      ghost var parts := p;
      assert run[0..] == run && [] + plan.Deliveries(xlsx, p, run) == plan.Deliveries(xlsx, p, run);
      for i := 0 to |run|
        invariant AllStored(files, parts)
        invariant deliveries + plan.Deliveries(xlsx, parts, run[i..]) == plan.Deliveries(xlsx, p, run)
        invariant plan.LeftAfter(parts, run[i..]) == plan.LeftAfter(p, run)
      {
        RunGoesOn(plan, xlsx, parts, run, i);
        ghost var left := plan.Attempt(parts, run[i]).0;
        var next := NextAttempt(run[i], xlsx, parts);
        assert deliveries + (next + plan.Deliveries(xlsx, left, run[i + 1..])) ==
               deliveries + next + plan.Deliveries(xlsx, left, run[i + 1..]);
        deliveries, parts := deliveries + next, left;
      }
      RunEnds(xlsx, parts);
      assert run[|run|..] == [] && deliveries + [] == deliveries;
    }

    lemma RunEnds(xlsx: bool, p: Parts)
      requires plan.Configured()
      ensures plan.Deliveries(xlsx, p, []) == [] && plan.LeftAfter(p, []) == p
    {}
  }
}
