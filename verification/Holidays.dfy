/** Configurable holidays of sectors and the cache in front of them. */
module Holidays {
  import opened Options
  import opened WorkingHours

  type Sector = nat

  datatype DayType = AllDay | Custom(start: int, end: int)

  /** A row of the holiday table; times are in seconds. */
  datatype Row = Row(sector: Sector, date: int, dateEnd: Option<int>, dayType: DayType, description: string, deleted: bool)
  {
    function Last(): int {
      if dateEnd.Some? then dateEnd.value else date
    }

    predicate Reversed() {
      Last() < date
    }

    /** The row answers a query for the key. */
    predicate Matches(k: Key) {
      !deleted && sector == k.sector && (date == k.date || (dateEnd.Some? && date <= k.date <= dateEnd.value))
    }

    /** Saving the row drops the key. */
    predicate Invalidates(k: Key) {
      sector == k.sector && date <= k.date <= Last()
    }

    /** The payload put in the cache, with times cut to the minute. */
    function Payload(): Entry {
      match dayType
      case AllDay => Closed(description)
      case Custom(start, end) => Hours(start - start % 60, end - end % 60, description)
    }
  }

  datatype Key = Key(sector: Sector, date: int)

  type Cache = map<Key, Option<Entry>>

  function Earlier(found: Option<Row>, r: Row, k: Key): Option<Row> {
    if r.Matches(k) && (found.None? || r.date < found.value.date) then Some(r) else found
  }

  /** The query: among the rows that match, the one with the earliest date. */
  function Query(rows: seq<Row>, k: Key): (found: Option<Row>)
    ensures found.None? ==> forall r | r in rows :: !r.Matches(k)
    ensures found.Some? ==> found.value in rows && found.value.Matches(k)
                            && forall r | r in rows && r.Matches(k) :: found.value.date <= r.date
  {
    if rows == [] then None
    else
      var n := |rows| - 1;
      var rest := Query(rows[..n], k);
      assert forall r | r in rows :: r in rows[..n] || r == rows[n];
      Earlier(rest, rows[n], k)
  }

  function Fresh(rows: seq<Row>, k: Key): Option<Entry> {
    match Query(rows, k)
    case None => None
    case Some(r) => Some(r.Payload())
  }

  ghost predicate Coherent(rows: seq<Row>, cache: Cache) {
    forall k | k in cache :: cache[k] == Fresh(rows, k)
  }

  function Without(cache: Cache, r: Row): Cache {
    map k | k in cache && !r.Invalidates(k) :: cache[k]
  }

  /** Another live row has the sector and date. */
  predicate Conflicts(rows: seq<Row>, r: Row, but: int) {
    !r.deleted && exists i | 0 <= i < |rows| && i != but :: !rows[i].deleted && rows[i].sector == r.sector && rows[i].date == r.date
  }

  // ---- Which saves keep the cache coherent ----

  /** Row `i`, or a new row when `i` is past the end, becomes `r`. */
  function Saved(rows: seq<Row>, i: nat, r: Row): seq<Row> {
    if i < |rows| then rows[i := r] else rows + [r]
  }

  lemma QuerySnoc(rows: seq<Row>, r: Row, k: Key)
    ensures Query(rows + [r], k) == Earlier(Query(rows, k), r, k)
  {
    assert (rows + [r])[..|rows|] == rows;
  }

  lemma {:induction false} UntouchedKey(rows: seq<Row>, i: nat, r: Row, k: Key)
    requires !r.Matches(k) && (i < |rows| ==> !rows[i].Matches(k))
    ensures Query(Saved(rows, i, r), k) == Query(rows, k)
  {
    hide Query;
    if i >= |rows| {
      QuerySnoc(rows, r, k);
    } else {
      var n := |rows| - 1;
      QuerySnoc(rows[..n], rows[n], k);
      assert rows == rows[..n] + [rows[n]];
      if i < n {
        UntouchedKey(rows[..n], i, r, k);
        QuerySnoc(rows[..n][i := r], rows[n], k);
        assert rows[i := r] == rows[..n][i := r] + [rows[n]];
      } else {
        QuerySnoc(rows[..n], r, k);
        assert rows[i := r] == rows[..n] + [r];
      }
    }
  }

  lemma UntouchedAnswer(rows: seq<Row>, i: nat, r: Row, k: Key)
    requires !r.Matches(k) && (i < |rows| ==> !rows[i].Matches(k))
    ensures Fresh(Saved(rows, i, r), k) == Fresh(rows, k)
  {
    UntouchedKey(rows, i, r, k);
  }

  /** The unique constraint: one live row per sector and date. */
  predicate Unique(rows: seq<Row>) {
    forall i, j | 0 <= i < j < |rows| && !rows[i].deleted && !rows[j].deleted ::
      rows[i].sector != rows[j].sector || rows[i].date != rows[j].date
  }

  /** Some row other than row `but` answers for the key. */
  predicate Covered(rows: seq<Row>, k: Key, but: int) {
    exists j | 0 <= j < |rows| && j != but :: rows[j].Matches(k)
  }

  /** A save keeps every coherent cache coherent if and only if it drops the key of every
      answer that it changes. */
  lemma SaveIsSafeIff(rows: seq<Row>, i: nat, r: Row)
    ensures (forall cache: Cache | Coherent(rows, cache) :: Coherent(Saved(rows, i, r), Without(cache, r)))
            <==> forall k | Fresh(Saved(rows, i, r), k) != Fresh(rows, k) :: r.Invalidates(k)
  {
    if forall cache: Cache | Coherent(rows, cache) :: Coherent(Saved(rows, i, r), Without(cache, r)) {
      forall k | Fresh(Saved(rows, i, r), k) != Fresh(rows, k) ensures r.Invalidates(k) {
        var cache := map[k := Fresh(rows, k)];
        assert Coherent(rows, cache);
        assert Coherent(Saved(rows, i, r), Without(cache, r));
        assert k in cache;
      }
    }
  }

  /** A new row changes the answer for its first day exactly when no row covers it. */
  lemma CreateChangesFirstDay(rows: seq<Row>, r: Row)
    ensures var k := Key(r.sector, r.date);
            Fresh(rows + [r], k) == Fresh(rows, k) <==> r.deleted || Covered(rows, k, -1)
  {
    var k := Key(r.sector, r.date);
    QuerySnoc(rows, r, k);
    if Query(rows, k).Some? {
      var j :| 0 <= j < |rows| && rows[j] == Query(rows, k).value;
      assert rows[j].Matches(k);
    }
  }

  /** Creating a holiday is safe exactly when its range is not reversed, the row is not
      live, or another row covers its only day. */
  lemma CreateIsSafeIff(rows: seq<Row>, r: Row)
    ensures (forall cache: Cache | Coherent(rows, cache) :: Coherent(rows + [r], Without(cache, r)))
            <==> !r.Reversed() || r.deleted || Covered(rows, Key(r.sector, r.date), -1)
  {
    hide Query, Fresh, Coherent, Without;
    SaveIsSafeIff(rows, |rows|, r);
    CreateChangesFirstDay(rows, r);
    forall k | !r.Matches(k) ensures Fresh(rows + [r], k) == Fresh(rows, k) {
      UntouchedAnswer(rows, |rows|, r, k);
    }
  }

  /** Without row `i`, another answer is found exactly when no other row covers its first day. */
  lemma DeleteChangesFirstDay(rows: seq<Row>, i: nat)
    requires i < |rows| && Unique(rows) && !rows[i].deleted
    ensures var k := Key(rows[i].sector, rows[i].date);
            Fresh(rows[i := rows[i].(deleted := true)], k) == Fresh(rows, k) <==> Covered(rows, k, i)
  {
    hide Query;
    var k, after := Key(rows[i].sector, rows[i].date), rows[i := rows[i].(deleted := true)];
    MatchIsFound(rows, k, i);
    if j :| 0 <= j < |rows| && j != i && rows[j].Matches(k) {
      assert rows[j].date < rows[i].date;
      MatchIsFound(rows, k, j);
      MatchIsFound(after, k, j);
      var p := AnswerAt(rows, k);
      var q := AnswerAt(after, k);
      MatchIsFound(rows, k, q);
      MatchIsFound(after, k, p);
      SameDaySameRow(rows, p, q);
    } else if Query(after, k).Some? {
      var q := AnswerAt(after, k);
    }
  }

  lemma SameDaySameRow(rows: seq<Row>, p: nat, q: nat)
    requires Unique(rows) && p < |rows| && q < |rows| && !rows[p].deleted && !rows[q].deleted
    requires rows[p].sector == rows[q].sector && rows[p].date == rows[q].date
    ensures p == q
  {}

  lemma MatchIsFound(rows: seq<Row>, k: Key, j: nat)
    requires j < |rows| && rows[j].Matches(k)
    ensures Query(rows, k).Some? && Query(rows, k).value.date <= rows[j].date
  {
    assert rows[j] in rows;
  }

  lemma AnswerAt(rows: seq<Row>, k: Key) returns (p: nat)
    requires Query(rows, k).Some?
    ensures p < |rows| && rows[p] == Query(rows, k).value && rows[p].Matches(k)
  {
    p :| 0 <= p < |rows| && rows[p] == Query(rows, k).value;
  }

  /** Soft-deleting a holiday, likewise. */
  lemma DeleteIsSafeIff(rows: seq<Row>, i: nat)
    requires i < |rows| && Unique(rows)
    ensures var r := rows[i].(deleted := true);
            (forall cache: Cache | Coherent(rows, cache) :: Coherent(rows[i := r], Without(cache, r)))
            <==> !r.Reversed() || rows[i].deleted || Covered(rows, Key(r.sector, r.date), i)
  {
    hide Query, Fresh, Coherent, Without;
    var r := rows[i].(deleted := true);
    SaveIsSafeIff(rows, i, r);
    if rows[i].deleted {
      assert rows[i := r] == rows;
    } else {
      DeleteChangesFirstDay(rows, i);
      forall k | !rows[i].Matches(k) ensures Fresh(rows[i := r], k) == Fresh(rows, k) {
        UntouchedAnswer(rows, i, r, k);
      }
    }
  }

  /** On a day that row `i` answers for, row `j` is the earliest other one, and it starts
      before row `i` or reads the same. */
  ghost predicate TakesOver(rows: seq<Row>, i: nat, j: nat, k: Key)
    requires i < |rows|
  {
    && j < |rows| && j != i && rows[j].Matches(k)
    && (forall l | 0 <= l < |rows| && l != i && rows[l].Matches(k) :: rows[j].date <= rows[l].date)
    && (rows[j].date < rows[i].date || rows[j].Payload() == rows[i].Payload())
  }

  lemma AnswerOf(rows: seq<Row>, k: Key, p: nat)
    requires p < |rows| && Query(rows, k) == Some(rows[p])
    ensures Fresh(rows, k) == Some(rows[p].Payload())
  {}

  /** The earliest other row answers for a day that row `i` gives up. */
  lemma OthersAnswer(rows: seq<Row>, i: nat, r: Row, j: nat, k: Key)
    requires i < |rows| && Unique(rows) && !r.Matches(k)
    requires j < |rows| && j != i && rows[j].Matches(k)
    requires forall l | 0 <= l < |rows| && l != i && rows[l].Matches(k) :: rows[j].date <= rows[l].date
    ensures Fresh(rows[i := r], k) == Some(rows[j].Payload())
  {
    hide Query, Fresh;
    var after := rows[i := r];
    MatchIsFound(after, k, j);
    var q := AnswerAt(after, k);
    SameDaySameRow(rows, q, j);
    AnswerOf(after, k, q);
  }

  lemma GivenUpDayIsTakenOver(rows: seq<Row>, i: nat, r: Row, j: nat, k: Key)
    requires i < |rows| && Unique(rows) && rows[i].Matches(k) && !r.Matches(k) && TakesOver(rows, i, j, k)
    ensures Fresh(rows[i := r], k) == Fresh(rows, k)
  {
    hide Query, Fresh;
    OthersAnswer(rows, i, r, j, k);
    MatchIsFound(rows, k, i);
    MatchIsFound(rows, k, j);
    var p := AnswerAt(rows, k);
    AnswerOf(rows, k, p);
    if p != i {
      SameDaySameRow(rows, p, j);
    }
  }

  lemma GivenUpDay(rows: seq<Row>, i: nat, r: Row, k: Key)
    requires i < |rows| && Unique(rows) && rows[i].Matches(k) && !r.Matches(k)
    ensures Fresh(rows[i := r], k) == Fresh(rows, k) <==> exists j :: TakesOver(rows, i, j, k)
  {
    if j :| TakesOver(rows, i, j, k) {
      GivenUpDayIsTakenOver(rows, i, r, j, k);
    } else {
      hide Query;
      MatchIsFound(rows, k, i);
      var p := AnswerAt(rows, k);
      if Query(rows[i := r], k).Some? {
        GivenUpDayChanges(rows, i, r, k, p);
      }
    }
  }

  lemma GivenUpDayChanges(rows: seq<Row>, i: nat, r: Row, k: Key, p: nat)
    requires i < |rows| && Unique(rows) && rows[i].Matches(k) && !r.Matches(k)
    requires p < |rows| && Query(rows, k) == Some(rows[p]) && Query(rows[i := r], k).Some?
    ensures Fresh(rows[i := r], k) == Fresh(rows, k) ==> exists j :: TakesOver(rows, i, j, k)
  {
    hide Query, Fresh;
    var after := rows[i := r];
    var q := AnswerAt(after, k);
    AnswerOf(rows, k, p);
    AnswerOf(after, k, q);
    forall l | 0 <= l < |rows| && l != i && rows[l].Matches(k) ensures rows[q].date <= rows[l].date {
      MatchIsFound(after, k, l);
    }
    MatchIsFound(rows, k, i);
    MatchIsFound(rows, k, q);
    if rows[q].date >= rows[i].date {
      assert rows[q].date != rows[i].date;
      assert p == i;
    }
    assert Fresh(after, k) == Fresh(rows, k) ==> TakesOver(rows, i, q, k);
  }

  /** What a live new row does to the answer for its own first day. */
  predicate KeepsFirstDay(rows: seq<Row>, i: nat, r: Row, k: Key, takenOver: bool)
    requires i < |rows|
  {
    if Covered(rows, k, i) then rows[i].Matches(k) ==> takenOver
    else rows[i].Matches(k) && rows[i].Payload() == r.Payload()
  }

  lemma FirstDayOfUpdate(rows: seq<Row>, i: nat, r: Row)
    requires i < |rows| && Unique(rows) && Unique(rows[i := r]) && !r.deleted
    ensures var k := Key(r.sector, r.date);
            Fresh(rows[i := r], k) == Fresh(rows, k)
            <==> KeepsFirstDay(rows, i, r, k, exists j :: TakesOver(rows, i, j, k))
  {
    hide Query, Fresh, TakesOver;
    var k, after, gone := Key(r.sector, r.date), rows[i := r], r.(deleted := true);
    assert Covered(after, k, i) <==> Covered(rows, k, i) by {
      assert forall j | 0 <= j < |rows| && j != i :: after[j] == rows[j];
    }
    if Covered(rows, k, i) {
      DeleteChangesFirstDay(after, i);
      assert after[i := gone] == rows[i := gone];
      if rows[i].Matches(k) {
        GivenUpDay(rows, i, gone, k);
      } else {
        UntouchedAnswer(rows, i, gone, k);
      }
    } else {
      OnlyAnswer(after, k, i);
      OnlyAnswer(rows, k, i);
    }
  }

  lemma OnlyAnswer(rows: seq<Row>, k: Key, i: nat)
    requires i < |rows| && !Covered(rows, k, i)
    ensures Fresh(rows, k) == if rows[i].Matches(k) then Some(rows[i].Payload()) else None
  {
    hide Query;
    if rows[i].Matches(k) {
      MatchIsFound(rows, k, i);
    }
    if Query(rows, k).Some? {
      var p := AnswerAt(rows, k);
      assert p == i;
    }
  }

  /** Updating a holiday is safe exactly when every day that the old row answered for, and
      the save does not drop, is taken over by another row; and, when the new range is
      reversed, the answer for its first day stays. */
  lemma UpdateIsSafeIff(rows: seq<Row>, i: nat, r: Row)
    requires i < |rows| && Unique(rows) && Unique(rows[i := r])
    ensures (forall cache: Cache | Coherent(rows, cache) :: Coherent(rows[i := r], Without(cache, r)))
            <==>
            && (forall k | rows[i].Matches(k) && !r.Invalidates(k) && !r.Matches(k) :: exists j :: TakesOver(rows, i, j, k))
            && (r.Reversed() && !r.deleted ==>
                  var k := Key(r.sector, r.date); KeepsFirstDay(rows, i, r, k, exists j :: TakesOver(rows, i, j, k)))
  {
    hide Query, Fresh, Coherent, Without, TakesOver, KeepsFirstDay;
    SaveIsSafeIff(rows, i, r);
    forall k | !rows[i].Matches(k) && !r.Matches(k) ensures Fresh(rows[i := r], k) == Fresh(rows, k) {
      UntouchedAnswer(rows, i, r, k);
    }
    forall k | rows[i].Matches(k) && !r.Matches(k)
      ensures Fresh(rows[i := r], k) == Fresh(rows, k) <==> exists j :: TakesOver(rows, i, j, k)
    {
      GivenUpDay(rows, i, r, k);
    }
    if !r.deleted {
      FirstDayOfUpdate(rows, i, r);
    }
    assert forall k | r.Matches(k) && !r.Invalidates(k) :: r.Reversed() && k == Key(r.sector, r.date);
    assert r.Reversed() && !r.deleted ==> r.Matches(Key(r.sector, r.date)) && !r.Invalidates(Key(r.sector, r.date));
  }

  /** A reversed range on an empty table: the day was looked up and cached as no holiday,
      and stays so. */
  lemma ReversedRangeStaysHidden(sector: Sector, date: int, description: string)
    ensures var r := Row(sector, date, Some(date - 1), AllDay, description, false);
            var k := Key(sector, date);
            var cache: Cache := map[k := None];
            && Coherent([], cache)
            && Fresh([] + [r], k) == Some(Closed(description))
            && k in Without(cache, r) && Without(cache, r)[k] == None
  {
    var r := Row(sector, date, Some(date - 1), AllDay, description, false);
    QuerySnoc([], r, Key(sector, date));
  }

  /** The new range is not reversed and takes in all the days the old row answered for. */
  predicate KeepsCovered(before: Row, after: Row) {
    && !after.Reversed()
    && (before.deleted
        || (before.sector == after.sector && after.date <= before.date <= after.Last() && before.Last() <= after.Last()))
  }

  lemma CoveredDaysAreDropped(before: Row, after: Row)
    ensures KeepsCovered(before, after) <==> !after.Reversed() && forall k | before.Matches(k) :: after.Invalidates(k)
  {
    if !before.deleted && forall k | before.Matches(k) :: after.Invalidates(k) {
      assert before.Matches(Key(before.sector, before.date));
      assert before.Last() >= before.date ==> before.Matches(Key(before.sector, before.Last()));
    }
  }

  lemma SaveKeepsCoherent(rows: seq<Row>, i: nat, r: Row, cache: Cache)
    requires Coherent(rows, cache) && !r.Reversed()
    requires i < |rows| ==> KeepsCovered(rows[i], r)
    ensures Coherent(Saved(rows, i, r), Without(cache, r))
  {
    var c := Without(cache, r);
    if i < |rows| {
      CoveredDaysAreDropped(rows[i], r);
    }
    forall k | k in c ensures c[k] == Fresh(Saved(rows, i, r), k) {
      UntouchedKey(rows, i, r, k);
    }
  }

  // ---- The validator and the model's save and delete ----

  datatype Event =
    | Validate(sector: Sector, config: Option<Config>, moment: Moment)
    | Create(row: Row)
    | Update(i: nat, row: Row)
    | Delete(i: nat)
    | Evict(k: Key)

  /** The table after an event; a save that breaks the unique constraint is refused. */
  function After(rows: seq<Row>, e: Event): seq<Row> {
    match e
    case Create(r) => if Conflicts(rows, r, |rows|) then rows else rows + [r]
    case Update(i, r) => if i >= |rows| || Conflicts(rows, r, i) then rows else rows[i := r]
    case Delete(i) => if i >= |rows| then rows else rows[i := rows[i].(deleted := true)]
    case _ => rows
  }

  /** Saves keep the unique constraint. */
  lemma AfterKeepsUnique(rows: seq<Row>, e: Event)
    requires Unique(rows)
    ensures Unique(After(rows, e))
  {}

  /** What an event answers when there is no cache at all. */
  function Answer(rows: seq<Row>, e: Event): seq<Outcome> {
    if e.Validate? then [Decision(e.config, Fresh(rows, Key(e.sector, e.moment.date)), e.moment)] else []
  }

  function Answers(rows: seq<Row>, events: seq<Event>): seq<Outcome>
    decreases |events|
  {
    if events == [] then [] else Answer(rows, events[0]) + Answers(After(rows, events[0]), events[1..])
  }

  /** Ranges are never reversed, and updates keep the range covered. */
  ghost predicate Tame(rows: seq<Row>, e: Event) {
    match e
    case Create(r) => !r.Reversed()
    case Update(i, r) => i < |rows| ==> KeepsCovered(rows[i], r)
    case Delete(i) => i < |rows| ==> !rows[i].Reversed()
    case _ => true
  }

  ghost predicate AllTame(rows: seq<Row>, events: seq<Event>)
    decreases |events|
  {
    events != [] ==> Tame(rows, events[0]) && AllTame(After(rows, events[0]), events[1..])
  }

  class WorkingHoursValidator {
    var rows: seq<Row>
    var cache: Cache

    constructor ()
      ensures rows == [] && cache == map[]
    {
      rows, cache := [], map[];
    }

    method GetCachedHoliday(k: Key) returns (holiday: Option<Entry>)
      modifies `cache
      ensures k in old(cache) ==> holiday == old(cache)[k] && cache == old(cache)
      ensures k !in old(cache) ==> holiday == Fresh(rows, k) && cache == old(cache)[k := holiday]
      ensures Coherent(rows, old(cache)) ==> holiday == Fresh(rows, k) && Coherent(rows, cache)
    {
      if k in cache {
        return cache[k];
      }
      holiday := Fresh(rows, k);
      cache := cache[k := holiday];
    }

    /** Drops the key of each date from the first to the last, one by one. */
    method InvalidateCache(r: Row)
      modifies `cache
      ensures cache == Without(old(cache), r)
    {
      var cur := r.date;
      while cur <= r.Last()
        invariant r.date <= cur <= (if r.Reversed() then r.date else r.Last() + 1)
        invariant cache == map k | k in old(cache) && !(k.sector == r.sector && r.date <= k.date < cur) :: old(cache)[k]
        decreases r.Last() - cur
      {
        cache := cache - {Key(r.sector, cur)};
        cur := cur + 1;
      }
    }

    /** Saves a new row, or row `i`; false when the unique constraint refuses it. */
    method Save(i: nat, r: Row) returns (ok: bool)
      requires i <= |rows|
      modifies this
      ensures ok <==> !Conflicts(old(rows), r, i)
      ensures rows == if ok then Saved(old(rows), i, r) else old(rows)
      ensures cache == if ok then Without(old(cache), r) else old(cache)
    {
      ok := !Conflicts(rows, r, i);
      if ok {
        rows := Saved(rows, i, r);
        InvalidateCache(r);
      }
    }

    method SoftDelete(i: nat)
      requires i < |rows|
      modifies this
      ensures rows == old(rows)[i := old(rows)[i].(deleted := true)]
      ensures cache == Without(old(cache), old(rows)[i])
    {
      rows := rows[i := rows[i].(deleted := true)];
      InvalidateCache(rows[i]);
    }

    /** Working days take a fast path, weekends a full one; both decide the same rule. */
    method ValidateWorkingHours(sector: Sector, config: Option<Config>, m: Moment) returns (outcome: Outcome)
      requires Coherent(rows, cache)
      modifies `cache
      ensures outcome == Decision(config, Fresh(rows, Key(sector, m.date)), m)
      ensures Coherent(rows, cache)
    {
      if config.None? {
        return Open;
      }
      if m.weekday in config.value.closedWeekdays {
        return OutsideHours;
      }
      var holiday := GetCachedHoliday(Key(sector, m.date));
      if 1 <= m.weekday <= 5 {
        outcome := ValidateWorkingDay(config.value, holiday, m);
      } else {
        outcome := FullValidation(config.value, holiday, m);
      }
    }

    /** One event: it answers and changes the table as if there were no cache. */
    method Handle(e: Event) returns (answer: seq<Outcome>)
      requires Coherent(rows, cache) && Tame(rows, e)
      modifies this
      ensures Coherent(rows, cache)
      ensures rows == After(old(rows), e) && answer == Answer(old(rows), e)
      ensures Unique(old(rows)) ==> Unique(rows)
    {
      if Unique(rows) {
        AfterKeepsUnique(rows, e);
      }
      hide Fresh, Query, Decision, Conflicts;
      answer := [];
      match e {
        case Validate(sector, config, m) =>
          var outcome := ValidateWorkingHours(sector, config, m);
          answer := [outcome];
        case Create(r) =>
          SaveKeepsCoherent(rows, |rows|, r, cache);
          var ok := Save(|rows|, r);
        case Update(i, r) =>
          if i < |rows| {
            SaveKeepsCoherent(rows, i, r, cache);
            var ok := Save(i, r);
          }
        case Delete(i) =>
          if i < |rows| {
            SaveKeepsCoherent(rows, i, rows[i].(deleted := true), cache);
            SoftDelete(i);
          }
        case Evict(k) =>
          cache := cache - {k};
      }
    }

    /** Over any tame run from an empty table, the cached validator answers as if there
        were no cache. */
    method Serve(events: seq<Event>) returns (answers: seq<Outcome>)
      requires rows == [] && cache == map[] && AllTame([], events)
      modifies this
      ensures answers == Answers([], events)
      ensures Coherent(rows, cache) && Unique(rows)
    {
      hide Answer, After, Tame;
      answers := [];
      for n := 0 to |events|
        invariant Coherent(rows, cache) && Unique(rows) && AllTame(rows, events[n..])
        invariant answers + Answers(rows, events[n..]) == Answers([], events)
      {
        var rest := events[n..];
        assert rest[0] == events[n] && rest[1..] == events[n + 1..];
        var answer := Handle(events[n]);
        answers := answers + answer;
      }
    }
  }
}
