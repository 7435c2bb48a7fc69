/** A report written as numbered part files, resumed from the number of parts found,
    and joined into one file or one sheet. */
module ReportParts {
  import opened Arithmetic
  import opened PartNames

  type Row = string

  /** A line of a part, of the final file, or of a sheet. A sheet whose first part is
      blank is headed by the numbers of its columns. */
  datatype Line = Header | Data(row: Row) | ColumnNumbers

  type Content = seq<Line>

  /** The two tables of a report share one directory, told apart by prefix. */
  datatype Table = Rooms | AgentStatusLogs

  function Prefix(t: Table): Name {
    match t
    case Rooms => "rooms"
    case AgentStatusLogs => "agent_status_logs"
  }

  predicate StartsWith(s: Name, p: Name) {
    |p| <= |s| && s[..|p|] == p
  }

  predicate EndsWith(s: Name, p: Name) {
    |p| <= |s| && s[|s| - |p|..] == p
  }

  predicate IsPart(t: Table, name: Name) {
    StartsWith(name, Prefix(t) + ".part") && EndsWith(name, ".csv")
  }

  lemma FirstLetter(t: Table, name: Name)
    requires IsPart(t, name)
    ensures name != [] && name[0] == Prefix(t)[0]
  {
    assert name[..|Prefix(t) + ".part"|][0] == name[0];
  }

  lemma TablesShareNoPart(t: Table, u: Table, name: Name)
    requires t != u && IsPart(t, name)
    ensures !IsPart(u, name)
  {
    FirstLetter(t, name);
    if IsPart(u, name) {
      FirstLetter(u, name);
    }
  }

  lemma PartsBelongToOneTable(t: Table, u: Table, i: nat, suffix: Name)
    ensures IsPart(t, PartName(Prefix(u), i, suffix)) <==> t == u
  {
    var p, n := Prefix(u) + ".part", PartName(Prefix(u), i, suffix);
    assert n == p + (Padded(i) + suffix + ".csv");
    assert n[..|p|] == p;
    assert n == (p + Padded(i) + suffix) + ".csv";
    assert n[|n| - 4..] == ".csv";
    if t != u {
      TablesShareNoPart(u, t, n);
    }
  }

  // ---- What the parts contain ----

  function Lines(rows: seq<Row>): (c: Content)
    ensures |c| == |rows|
  {
    seq(|rows|, i requires 0 <= i < |rows| => Data(rows[i]))
  }

  /** The number of parts of `n` rows. */
  function NumParts(n: nat, chunk: nat): nat
    requires 1 <= chunk
  {
    CeilDiv(n, chunk)
  }

  /** Where part `i` of `n` rows starts. */
  function Offset(n: nat, chunk: nat, i: nat): nat {
    Min(i * chunk, n)
  }

  lemma OffsetsGrow(n: nat, chunk: nat, i: nat, j: nat)
    requires i <= j
    ensures Offset(n, chunk, i) <= Offset(n, chunk, j) <= n
  {
    MulGrows(i, j, chunk);
  }

  /** The rows of part `i`. */
  function Slice(rows: seq<Row>, chunk: nat, i: nat): seq<Row> {
    OffsetsGrow(|rows|, chunk, i, i + 1);
    rows[Offset(|rows|, chunk, i)..Offset(|rows|, chunk, i + 1)]
  }

  function PartContent(rows: seq<Row>, chunk: nat, i: nat): Content {
    (if i == 0 then [Header] else []) + Lines(Slice(rows, chunk, i))
  }

  /** What one uninterrupted pass over a table reports. */
  function FullReport(rows: seq<Row>): Content {
    [Header] + Lines(rows)
  }

  /** Every part has rows, all but the last one `chunk` of them; part 0 alone is headed. */
  lemma PartSizes(rows: seq<Row>, chunk: nat, i: nat)
    requires 1 <= chunk && i < NumParts(|rows|, chunk)
    ensures 1 <= |Slice(rows, chunk, i)| <= chunk
    ensures i < NumParts(|rows|, chunk) - 1 ==> |Slice(rows, chunk, i)| == chunk
    ensures |PartContent(rows, chunk, i)| == |Slice(rows, chunk, i)| + if i == 0 then 1 else 0
    ensures PartContent(rows, chunk, i)[0] == Header <==> i == 0
  {
    hide CeilDiv;
    CeilDivIsLeast(|rows|, chunk, i);
    CeilDivIsLeast(|rows|, chunk, i + 1);
    MulStep(i, chunk);
  }

  // ---- Part numbers ----

  predicate Ascending(n: seq<nat>) {
    forall i, j | 0 <= i < j < |n| :: n[i] <= n[j]
  }

  predicate Strict(n: seq<nat>) {
    forall i, j | 0 <= i < j < |n| :: n[i] < n[j]
  }

  predicate Below(n: seq<nat>, k: nat) {
    forall i | 0 <= i < |n| :: n[i] < k
  }

  function Range(a: nat, b: nat): (r: seq<nat>)
    requires a <= b
    ensures |r| == b - a && forall i | 0 <= i < b - a :: r[i] == a + i
  {
    seq(b - a, i requires 0 <= i < b - a => a + i)
  }

  /** Numbered from 0 without a gap. */
  predicate Gapless(n: seq<nat>) {
    n == Range(0, |n|)
  }

  /** The parts with these numbers, one after the other. */
  function Joined(rows: seq<Row>, chunk: nat, n: seq<nat>): Content {
    if n == [] then [] else PartContent(rows, chunk, n[0]) + Joined(rows, chunk, n[1..])
  }

  /** The place of a new part is behind all parts of its number. */
  function Insert(n: seq<nat>, i: nat): seq<nat> {
    if n == [] || i < n[0] then [i] + n else [n[0]] + Insert(n[1..], i)
  }

  lemma {:induction false} InsertedAt(n: seq<nat>, p: nat, i: nat)
    requires p <= |n| && Ascending(n[..p] + [i] + n[p..])
    ensures n[..p] + [i] + n[p..] == Insert(n, i)
  {
    var after := n[..p] + [i] + n[p..];
    if n != [] {
      assert after[0] <= after[1];
      assert after[1..] == if p == 0 then n else n[1..][..p - 1] + [i] + n[1..][p - 1..];
      if p > 0 {
        InsertedAt(n[1..], p - 1, i);
      } else if i == n[0] {
        assert n[1..][..0] + [i] + n[1..][0..] == [i] + n[1..] == n;
        InsertedAt(n[1..], 0, i);
      }
    }
  }

  lemma AscendingCons(x: nat, q: seq<nat>)
    ensures Ascending([x] + q) <==> Ascending(q) && forall y | y in q :: x <= y
  {
    var p := [x] + q;
    assert forall j | 0 < j < |p| :: p[j] == q[j - 1] && q[j - 1] in q;
    forall j | 0 <= j < |q| ensures q[j] == p[j + 1] && p[0] == x {}
  }

  lemma StrictCons(x: nat, q: seq<nat>)
    ensures Strict([x] + q) <==> Strict(q) && forall y | y in q :: x < y
  {
    var p := [x] + q;
    assert forall j | 0 < j < |p| :: p[j] == q[j - 1] && q[j - 1] in q;
    forall j | 0 <= j < |q| ensures q[j] == p[j + 1] && p[0] == x {}
  }

  lemma {:induction false} InsertMembers(n: seq<nat>, i: nat)
    ensures |Insert(n, i)| == |n| + 1 && forall x :: x in Insert(n, i) <==> x in n || x == i
  {
    if n != [] && n[0] <= i {
      InsertMembers(n[1..], i);
      assert n == [n[0]] + n[1..];
    }
  }

  lemma {:induction false} InsertFacts(n: seq<nat>, i: nat)
    requires Ascending(n)
    ensures Ascending(Insert(n, i)) && |Insert(n, i)| == |n| + 1
    ensures forall x :: x in Insert(n, i) <==> x in n || x == i
    ensures Strict(n) && i !in n ==> Strict(Insert(n, i))
    ensures Strict(Insert(n, i)) ==> Strict(n)
  {
    InsertMembers(n, i);
    if n == [] {
      assert Insert(n, i) == [i];
    } else {
      assert n == [n[0]] + n[1..];
      AscendingCons(n[0], n[1..]);
      StrictCons(n[0], n[1..]);
      if i < n[0] {
        hide Ascending, Strict;
        AscendingCons(i, n);
        StrictCons(i, n);
      } else {
        hide Ascending, Strict;
        InsertFacts(n[1..], i);
        AscendingCons(n[0], Insert(n[1..], i));
        StrictCons(n[0], Insert(n[1..], i));
      }
    }
  }

  /** Saving part `i`: an overwriting storage keeps one part of a number. */
  function Put(n: seq<nat>, i: nat, overwrite: bool): seq<nat> {
    if overwrite && i in n then n else Insert(n, i)
  }

  /** Saving the parts from `i` to `k`. */
  function Resumed(n: seq<nat>, i: nat, k: nat, overwrite: bool): seq<nat>
    decreases k - i
  {
    if i >= k then n else Resumed(Put(n, i, overwrite), i + 1, k, overwrite)
  }

  /** What an attempt that resumes from the number of existing parts completes them to. */
  function Final(n: seq<nat>, k: nat, overwrite: bool): seq<nat> {
    Resumed(n, |n|, k, overwrite)
  }

  /** Sorted numbers below `k`, each once when the storage overwrites. */
  predicate Numbers(n: seq<nat>, k: nat, overwrite: bool) {
    Ascending(n) && Below(n, k) && (overwrite ==> Strict(n))
  }

  lemma PutFacts(n: seq<nat>, i: nat, k: nat, overwrite: bool)
    requires Numbers(n, k, overwrite) && i < k
    ensures Numbers(Put(n, i, overwrite), k, overwrite)
    ensures forall x :: x in Put(n, i, overwrite) <==> x in n || x == i
    ensures |n| <= |Put(n, i, overwrite)| <= |n| + 1 && (!overwrite ==> |Put(n, i, overwrite)| == |n| + 1)
  {
    InsertFacts(n, i);
    var after := Put(n, i, overwrite);
    assert forall j | 0 <= j < |n| :: n[j] in n;
    assert forall j | 0 <= j < |after| :: after[j] in after;
  }

  lemma {:induction false} ResumedFacts(n: seq<nat>, i: nat, k: nat, overwrite: bool)
    requires Numbers(n, k, overwrite)
    ensures var r := Resumed(n, i, k, overwrite);
            && Numbers(r, k, overwrite)
            && (forall x :: x in r <==> x in n || i <= x < k)
            && |n| <= |r| && (i <= k ==> |r| <= |n| + (k - i))
            && (!overwrite && i <= k ==> |r| == |n| + (k - i))
    decreases k - i
  {
    if i < k {
      hide Numbers;
      PutFacts(n, i, k, overwrite);
      ResumedFacts(Put(n, i, overwrite), i + 1, k, overwrite);
    }
  }

  lemma {:induction false} ResumedSplits(n: seq<nat>, i: nat, j: nat, k: nat, overwrite: bool)
    requires i <= j <= k
    ensures Resumed(Resumed(n, i, j, overwrite), j, k, overwrite) == Resumed(n, i, k, overwrite)
    decreases j - i
  {
    hide Put;
    if i < j {
      ResumedSplits(Put(n, i, overwrite), i + 1, j, k, overwrite);
    }
  }

  /** Saving parts that are there changes nothing when the storage overwrites. */
  lemma {:induction false} ResumedSkips(n: seq<nat>, i: nat, j: nat, k: nat)
    requires i <= j <= k && forall x | i <= x < j :: x in n
    ensures Resumed(n, i, k, true) == Resumed(n, j, k, true)
    decreases j - i
  {
    if i < j {
      ResumedSkips(n, i + 1, j, k);
    }
  }

  /** An interruption between saves does not change what the parts are completed to. */
  lemma InterruptionsDoNotMatter(n: seq<nat>, j: nat, k: nat, overwrite: bool)
    requires Numbers(n, k, overwrite) && |n| <= j <= k
    ensures Final(Resumed(n, |n|, j, overwrite), k, overwrite) == Final(n, k, overwrite)
  {
    var r := Resumed(n, |n|, j, overwrite);
    PartlyResumed(n, |n|, j, k, overwrite);
    ResumedSplits(n, |n|, j, k, overwrite);
    if overwrite {
      ResumedSkips(r, |r|, j, k);
    }
  }

  /** The same facts when only the parts up to `j` have been saved. */
  lemma {:induction false} PartlyResumed(n: seq<nat>, i: nat, j: nat, k: nat, overwrite: bool)
    requires Numbers(n, k, overwrite) && i <= j <= k
    ensures var r := Resumed(n, i, j, overwrite);
            && Numbers(r, k, overwrite)
            && (forall x :: x in r <==> x in n || i <= x < j)
            && |n| <= |r| <= |n| + (j - i) && (!overwrite ==> |r| == |n| + (j - i))
    decreases j - i
  {
    if i < j {
      hide Numbers;
      PutFacts(n, i, k, overwrite);
      PartlyResumed(Put(n, i, overwrite), i + 1, j, k, overwrite);
    }
  }

  lemma {:induction false} GaplessResumes(i: nat, k: nat, overwrite: bool)
    requires i <= k
    ensures Resumed(Range(0, i), i, k, overwrite) == Range(0, k)
    decreases k - i
  {
    if i < k {
      assert Range(0, i)[..i] + [i] + Range(0, i)[i..] == Range(0, i + 1);
      InsertedAt(Range(0, i), i, i);
      GaplessResumes(i + 1, k, overwrite);
    }
  }

  lemma {:induction false} AtLeastItsIndex(n: seq<nat>, j: nat)
    requires Strict(n) && j < |n|
    ensures j <= n[j]
  {
    if j > 0 {
      AtLeastItsIndex(n, j - 1);
    }
  }

  lemma {:induction false} ContainsAll(n: seq<nat>, j: nat)
    requires Strict(n) && j <= |n| && forall x: nat | x < |n| :: x in n
    ensures forall i | 0 <= i < j :: n[i] == i
  {
    if j > 0 {
      ContainsAll(n, j - 1);
      assert (j - 1) as nat in n;
      var p :| 0 <= p < |n| && n[p] == j - 1;
      AtLeastItsIndex(n, p);
      AtLeastItsIndex(n, j - 1);
      assert p == j - 1;
    }
  }

  lemma {:induction false} RoomAbove(n: seq<nat>, j: nat, k: nat)
    requires Strict(n) && Below(n, k) && j < |n|
    ensures n[j] + (|n| - j) <= k
    decreases |n| - j
  {
    if j < |n| - 1 {
      RoomAbove(n, j + 1, k);
    }
  }

  /** Distinct numbers below `k` are at most `k`, and `k` only when they are all. */
  lemma StrictIsRange(n: seq<nat>, k: nat)
    requires Strict(n) && Below(n, k)
    ensures |n| <= k && (|n| == k ==> n == Range(0, k))
  {
    if n != [] {
      RoomAbove(n, 0, k);
    }
    forall j | 0 <= j < |n| && |n| == k ensures n[j] == j {
      RoomAbove(n, j, k);
      AtLeastItsIndex(n, j);
    }
  }

  /** The completed numbers are all numbers once only if the resumed ones had no gap. */
  lemma CompleteOnlyWithoutGaps(n: seq<nat>, k: nat, overwrite: bool)
    requires Numbers(n, k, overwrite) && Strict(n) && |n| <= k
    ensures Final(n, k, overwrite) == Range(0, k) <==> Gapless(n)
  {
    if Gapless(n) {
      GaplessResumes(|n|, k, overwrite);
    }
    if Final(n, k, overwrite) == Range(0, k) {
      ResumedFacts(n, |n|, k, overwrite);
      forall x: nat | x < |n| ensures x in n {
        assert Range(0, k)[x] in Final(n, k, overwrite);
      }
      ContainsAll(n, |n|);
    }
  }

  lemma {:induction false} StrictBeforeResuming(n: seq<nat>, i: nat, k: nat)
    requires Ascending(n) && Strict(Resumed(n, i, k, false))
    ensures Strict(n)
    decreases k - i
  {
    if i < k {
      InsertFacts(n, i);
      StrictBeforeResuming(Insert(n, i), i + 1, k);
    }
  }

  // ---- Which parts join to the full report ----

  lemma {:induction false} JoinedRange(rows: seq<Row>, chunk: nat, a: nat, b: nat)
    requires a < b
    ensures Joined(rows, chunk, Range(a, b)) == (if a == 0 then [Header] else []) + Span(rows, chunk, a, b)
    decreases b - a
  {
    hide Slice, Lines, Span;
    assert Range(a, b)[1..] == Range(a + 1, b);
    SpanSplits(rows, chunk, a, b);
    if a + 1 == b {
      EmptySpan(rows, chunk, b);
    } else {
      JoinedRange(rows, chunk, a + 1, b);
    }
  }

  /** The lines of the rows between the starts of two parts. */
  function Span(rows: seq<Row>, chunk: nat, a: nat, b: nat): Content
    requires a <= b
  {
    OffsetsGrow(|rows|, chunk, a, b);
    Lines(rows[Offset(|rows|, chunk, a)..Offset(|rows|, chunk, b)])
  }

  lemma LinesSplit(rows: seq<Row>, lo: nat, mid: nat, hi: nat)
    requires lo <= mid <= hi <= |rows|
    ensures Lines(rows[lo..hi]) == Lines(rows[lo..mid]) + Lines(rows[mid..hi])
  {}

  lemma SpanSplits(rows: seq<Row>, chunk: nat, a: nat, b: nat)
    requires a < b
    ensures Span(rows, chunk, a, b) == Lines(Slice(rows, chunk, a)) + Span(rows, chunk, a + 1, b)
  {
    hide Lines, Offset;
    OffsetsGrow(|rows|, chunk, a, a + 1);
    OffsetsGrow(|rows|, chunk, a + 1, b);
    LinesSplit(rows, Offset(|rows|, chunk, a), Offset(|rows|, chunk, a + 1), Offset(|rows|, chunk, b));
  }

  lemma EmptySpan(rows: seq<Row>, chunk: nat, a: nat)
    ensures Span(rows, chunk, a, a) == []
  {}

  /** All the parts joined equal one uninterrupted pass. */
  lemma AllPartsJoined(rows: seq<Row>, chunk: nat)
    requires 1 <= chunk && rows != []
    ensures Joined(rows, chunk, Range(0, NumParts(|rows|, chunk))) == FullReport(rows)
  {
    var k := NumParts(|rows|, chunk);
    CeilDivCovers(|rows|, chunk);
    CeilDivIsLeast(|rows|, chunk, 0);
    JoinedRange(rows, chunk, 0, k);
    assert rows[0..|rows|] == rows;
  }

  /** In every place the part there carries the lines of the part that belongs there. */
  predicate SameLines(rows: seq<Row>, chunk: nat, n: seq<nat>, from: nat) {
    forall i | 0 <= i < |n| :: PartContent(rows, chunk, n[i]) == PartContent(rows, chunk, from + i)
  }

  lemma {:induction false} SameLinesJoin(rows: seq<Row>, chunk: nat, n: seq<nat>, from: nat)
    requires SameLines(rows, chunk, n, from)
    ensures Joined(rows, chunk, n) == Joined(rows, chunk, Range(from, from + |n|))
  {
    hide PartContent;
    var r := Range(from, from + |n|);
    if n != [] {
      assert r[0] == from && r[1..] == Range(from + 1, from + |n|);
      SameLinesCons(rows, chunk, n, from);
      SameLinesJoin(rows, chunk, n[1..], from + 1);
    }
  }

  /** Copies of the last part are no longer than as many parts before it, and shorter
      when the last part is a short one. */
  lemma {:induction false} LastPartsAreShort(rows: seq<Row>, chunk: nat, n: seq<nat>, j: nat)
    requires 1 <= chunk
    requires var k := NumParts(|rows|, chunk);
             2 <= k && j <= k && |n| <= k - j && forall i | 0 <= i < |n| :: n[i] == k - 1
    ensures var k := NumParts(|rows|, chunk);
            && |Joined(rows, chunk, n)| <= |Joined(rows, chunk, Range(j, k))|
            && (j < k - 1 && |Slice(rows, chunk, k - 1)| < chunk ==>
                  |Joined(rows, chunk, n)| < |Joined(rows, chunk, Range(j, k))|)
    decreases |n|
  {
    hide PartContent, Slice, NumParts;
    var k := NumParts(|rows|, chunk);
    if j < k {
      PartSizes(rows, chunk, j);
      PartSizes(rows, chunk, k - 1);
      assert Range(j, k)[1..] == Range(j + 1, k);
      if n != [] {
        LastPartsAreShort(rows, chunk, n[1..], j + 1);
      }
    }
  }

  /** Sorted parts that join to the parts from `j` on carry, place by place, their lines. */
  lemma {:induction false} JoinAligns(rows: seq<Row>, chunk: nat, n: seq<nat>, j: nat)
    requires 1 <= chunk && rows != []
    requires var k := NumParts(|rows|, chunk);
             Ascending(n) && Below(n, k) && j <= k && |n| <= k - j
    ensures Joined(rows, chunk, n) == Joined(rows, chunk, Range(j, NumParts(|rows|, chunk))) ==>
      |n| == NumParts(|rows|, chunk) - j && SameLines(rows, chunk, n, j)
    decreases |n|
  {
    hide PartContent, Slice, NumParts, SameLines;
    var k := NumParts(|rows|, chunk);
    if n == [] && j == k {
      NothingOutOfPlace(rows, chunk, j);
    } else if j < k && Joined(rows, chunk, n) == Joined(rows, chunk, Range(j, k)) {
      var a, b := PartContent(rows, chunk, if n == [] then 0 else n[0]), PartContent(rows, chunk, j);
      PartSizes(rows, chunk, j);
      assert Range(j, k)[0] == j && Range(j, k)[1..] == Range(j + 1, k);
      assert n != [];
      PartSizes(rows, chunk, n[0]);
      assert Joined(rows, chunk, n)[0] == a[0] && Joined(rows, chunk, Range(j, k))[0] == b[0];
      FirstPartsHaveOneSize(rows, chunk, n, j);
      SplitEqual(a, Joined(rows, chunk, n[1..]), b, Joined(rows, chunk, Range(j + 1, k)));
      JoinAligns(rows, chunk, n[1..], j + 1);
      SameLinesCons(rows, chunk, n, j);
    }
  }

  lemma NothingOutOfPlace(rows: seq<Row>, chunk: nat, from: nat)
    ensures SameLines(rows, chunk, [], from)
  {}

  lemma SameLinesCons(rows: seq<Row>, chunk: nat, n: seq<nat>, from: nat)
    requires n != []
    ensures SameLines(rows, chunk, n, from)
            <==> PartContent(rows, chunk, n[0]) == PartContent(rows, chunk, from) && SameLines(rows, chunk, n[1..], from + 1)
  {
    hide PartContent;
    if SameLines(rows, chunk, n, from) {
      assert PartContent(rows, chunk, n[0]) == PartContent(rows, chunk, from + 0);
      forall i | 0 <= i < |n[1..]| ensures PartContent(rows, chunk, n[1..][i]) == PartContent(rows, chunk, from + 1 + i) {
        assert PartContent(rows, chunk, n[i + 1]) == PartContent(rows, chunk, from + (i + 1));
      }
    }
    if PartContent(rows, chunk, n[0]) == PartContent(rows, chunk, from) && SameLines(rows, chunk, n[1..], from + 1) {
      forall i | 0 <= i < |n| ensures PartContent(rows, chunk, n[i]) == PartContent(rows, chunk, from + i) {
        if i > 0 {
          assert PartContent(rows, chunk, n[1..][i - 1]) == PartContent(rows, chunk, from + 1 + (i - 1));
        }
      }
    }
  }

  lemma SplitEqual(a: Content, x: Content, b: Content, y: Content)
    requires a + x == b + y && |a| == |b|
    ensures a == b && x == y
  {
    assert a == (a + x)[..|a|] && x == (a + x)[|a|..];
    assert b == (b + y)[..|b|] && y == (b + y)[|b|..];
  }

  lemma FirstPartsHaveOneSize(rows: seq<Row>, chunk: nat, n: seq<nat>, j: nat)
    requires 1 <= chunk && rows != []
    requires var k := NumParts(|rows|, chunk);
             Ascending(n) && Below(n, k) && j < k && 0 < |n| <= k - j && (n[0] == 0 <==> j == 0)
    requires Joined(rows, chunk, n) == Joined(rows, chunk, Range(j, NumParts(|rows|, chunk)))
    ensures |PartContent(rows, chunk, n[0])| == |PartContent(rows, chunk, j)|
  {
    hide PartContent, Slice, NumParts;
    var k := NumParts(|rows|, chunk);
    PartSizes(rows, chunk, j);
    PartSizes(rows, chunk, n[0]);
    if n[0] == k - 1 && j < k - 1 {
      PartSizes(rows, chunk, k - 1);
      LastPartsAreShort(rows, chunk, n, j);
    } else if n[0] < k - 1 && j == k - 1 {
      assert n[1..] == [] && Range(j, k)[1..] == [];
    }
  }

  /** From any leftover parts, an attempt that resumes from their number completes them to
      the full report if and only if: when the storage overwrites, they are numbered from
      0 without a gap; when it renames, every place gets a part with the right lines. */
  lemma ResumedIsFullIff(rows: seq<Row>, chunk: nat, n: seq<nat>, overwrite: bool)
    requires 1 <= chunk && rows != []
    requires Numbers(n, NumParts(|rows|, chunk), overwrite) && |n| <= NumParts(|rows|, chunk)
    ensures var f := Final(n, NumParts(|rows|, chunk), overwrite);
            Joined(rows, chunk, f) == FullReport(rows)
            <==> if overwrite then Gapless(n) else SameLines(rows, chunk, f, 0)
  {
    hide PartContent, NumParts, Joined, FullReport, Final;
    var k := NumParts(|rows|, chunk);
    var f := Final(n, k, overwrite);
    FinalFacts(n, k, overwrite);
    AllPartsJoined(rows, chunk);
    if |f| == k && SameLines(rows, chunk, f, 0) {
      SameLinesJoin(rows, chunk, f, 0);
    }
    if Joined(rows, chunk, f) == FullReport(rows) {
      JoinAligns(rows, chunk, f, 0);
    }
    if overwrite {
      StrictIsRange(f, k);
      CompleteOnlyWithoutGaps(n, k, true);
    }
  }

  lemma FinalFacts(n: seq<nat>, k: nat, overwrite: bool)
    requires Numbers(n, k, overwrite) && |n| <= k
    ensures var f := Final(n, k, overwrite);
            && Numbers(f, k, overwrite) && |f| <= k && (!overwrite ==> |f| == k)
            && (forall x :: x in f <==> x in n || |n| <= x < k)
  {
    ResumedFacts(n, |n|, k, overwrite);
  }

  /** Parts numbered without a gap are completed to the full report by either storage. */
  lemma GaplessIsFull(rows: seq<Row>, chunk: nat, n: seq<nat>, overwrite: bool)
    requires 1 <= chunk && rows != [] && Gapless(n) && |n| <= NumParts(|rows|, chunk)
    ensures Joined(rows, chunk, Final(n, NumParts(|rows|, chunk), overwrite)) == FullReport(rows)
  {
    GaplessResumes(|n|, NumParts(|rows|, chunk), overwrite);
    AllPartsJoined(rows, chunk);
  }

  /** Without part 0 the header and the first rows are lost for good: so it is after a
      cleanup that was interrupted between two deletes. */
  lemma HeadlessIsNeverFull(rows: seq<Row>, chunk: nat, n: seq<nat>, overwrite: bool)
    requires 1 <= chunk && rows != []
    requires Numbers(n, NumParts(|rows|, chunk), overwrite) && |n| <= NumParts(|rows|, chunk)
    requires n != [] && 0 < n[0]
    ensures Joined(rows, chunk, Final(n, NumParts(|rows|, chunk), overwrite)) != FullReport(rows)
  {
    var f := Final(n, NumParts(|rows|, chunk), overwrite);
    FinalFacts(n, NumParts(|rows|, chunk), overwrite);
    assert f != [] && f[0] in f;
    PartSizes(rows, chunk, f[0]);
    hide PartContent;
    assert Joined(rows, chunk, f)[0] == PartContent(rows, chunk, f[0])[0];
  }

  lemma InterruptedCleanupIsNeverFull(rows: seq<Row>, chunk: nat, deleted: nat, overwrite: bool)
    requires 1 <= chunk && 0 < deleted < NumParts(|rows|, chunk)
    ensures var k := NumParts(|rows|, chunk);
            Joined(rows, chunk, Final(Range(deleted, k), k, overwrite)) != FullReport(rows)
  {
    var k := NumParts(|rows|, chunk);
    CeilDivIsLeast(|rows|, chunk, 0);
    HeadlessIsNeverFull(rows, chunk, Range(deleted, k), overwrite);
  }

  /** When no two parts carry the same lines, a gap is fatal with either storage. */
  lemma DistinctPartsNeedNoGap(rows: seq<Row>, chunk: nat, n: seq<nat>, overwrite: bool)
    requires 1 <= chunk && rows != []
    requires var k := NumParts(|rows|, chunk);
             && Numbers(n, k, overwrite) && |n| <= k
             && forall i: nat, j: nat | i < j < k :: PartContent(rows, chunk, i) != PartContent(rows, chunk, j)
    ensures Joined(rows, chunk, Final(n, NumParts(|rows|, chunk), overwrite)) == FullReport(rows) <==> Gapless(n)
  {
    hide PartContent, NumParts;
    var k := NumParts(|rows|, chunk);
    ResumedIsFullIff(rows, chunk, n, overwrite);
    if Gapless(n) {
      GaplessIsFull(rows, chunk, n, overwrite);
    }
    var f := Final(n, k, overwrite);
    FinalFacts(n, k, overwrite);
    if !overwrite && SameLines(rows, chunk, f, 0) {
      forall i | 0 <= i < k ensures f[i] == i {
        assert PartContent(rows, chunk, f[i]) == PartContent(rows, chunk, 0 + i);
      }
      StrictBeforeResuming(n, |n|, k);
      CompleteOnlyWithoutGaps(n, k, false);
    }
  }

  /** A storage that renames may hide a gap: with four equal parts, losing parts 1 and 3
      and saving 2 and 3 again leaves a report that reads as the full one. */
  lemma RepeatedRowsHideTheGap(row: Row)
    ensures var rows := [row, row, row, row];
            Joined(rows, 1, Final([0, 2], NumParts(4, 1), false)) == FullReport(rows) && !Gapless([0, 2])
  {
    var rows := [row, row, row, row];
    assert NumParts(4, 1) == 4;
    assert Range(0, 2)[1] == 1;
    ResumedIsFullIff(rows, 1, [0, 2], false);
    ResumedExample();
    forall i | 0 <= i < 4 ensures PartContent(rows, 1, [0, 2, 2, 3][i]) == PartContent(rows, 1, 0 + i) {
      EqualSlices(row, i);
      EqualSlices(row, [0, 2, 2, 3][i]);
    }
  }

  lemma EqualSlices(row: Row, i: nat)
    requires i < 4
    ensures Slice([row, row, row, row], 1, i) == [row]
  {}

  lemma ResumedExample()
    ensures Final([0, 2], 4, false) == [0, 2, 2, 3]
  {
    assert Put([0, 2], 2, false) == [0, 2, 2] by {
      assert [0, 2][1..] == [2] && [2][1..] == [];
    }
    assert Put([0, 2, 2], 3, false) == [0, 2, 2, 3] by {
      assert [0, 2, 2][1..] == [2, 2] && [2, 2][1..] == [2] && [2][1..] == [];
    }
    hide Put;
    assert Resumed([0, 2], 2, 4, false) == Resumed([0, 2, 2], 3, 4, false);
    assert Resumed([0, 2, 2], 3, 4, false) == Resumed([0, 2, 2, 3], 4, 4, false);
  }
}
