/** Read and delivered reports on messages: queued, grouped by the fields they change,
    and written in bulk. */
module MessageStatuses {
  import opened Options

  type MessageId = nat

  datatype Field = IsRead | IsDelivered

  datatype Row = Row(isRead: bool, isDelivered: bool)
  {
    predicate Has(f: Field) {
      match f case IsRead => isRead case IsDelivered => isDelivered
    }

    function With(f: Field, value: bool): Row {
      match f case IsRead => Row(value, isDelivered) case IsDelivered => Row(isRead, value)
    }
  }

  type Rows = map<MessageId, Row>

  /** A report names a message by its external id. */
  datatype Report = Report(externalId: string, status: string)

  datatype Flag = Flag(message: MessageId, field: Field)

  function Upper(s: string): string {
    seq(|s|, i requires 0 <= i < |s| => if 'a' <= s[i] <= 'z' then (s[i] as int - 32) as char else s[i])
  }

  const READ_ALIASES := {"READ", "V"}
  const DELIVERED_ALIASES := {"DELIVERED", "D"}

  /** The flag a report raises, given the external ids of the messages in rooms of a project. */
  function Effect(index: map<string, MessageId>, r: Report): Option<Flag> {
    if r.externalId == "" || r.externalId !in index then None
    else if Upper(r.status) in READ_ALIASES then Some(Flag(index[r.externalId], IsRead))
    else if Upper(r.status) in DELIVERED_ALIASES then Some(Flag(index[r.externalId], IsDelivered))
    else None
  }

  /** The flags that some report raises: a function of the set of reports alone. */
  function Raised(index: map<string, MessageId>, reports: set<Report>): set<Flag> {
    set r | r in reports && Effect(index, r).Some? :: Effect(index, r).value
  }

  function Reports(q: seq<Report>): set<Report> {
    set r | r in q
  }

  function Flags(rows: Rows): set<Flag> {
    set m, f: Field | m in rows && rows[m].Has(f) :: Flag(m, f)
  }

  /** Writing a flag straight to the database, for one report. */
  function UpdateOne(index: map<string, MessageId>, rows: Rows, r: Report): Rows {
    match Effect(index, r)
    case None => rows
    case Some(flag) =>
      if flag.message in rows then rows[flag.message := rows[flag.message].With(flag.field, true)] else rows
  }

  function OneByOne(index: map<string, MessageId>, rows: Rows, q: seq<Report>): Rows {
    if q == [] then rows else UpdateOne(index, OneByOne(index, rows, q[..|q| - 1]), q[|q| - 1])
  }

  lemma ReportsSnoc(q: seq<Report>, r: Report)
    ensures Reports(q + [r]) == Reports(q) + {r}
  {}

  lemma ReportsUnion(p: seq<Report>, q: seq<Report>)
    ensures Reports(p + q) == Reports(p) + Reports(q)
  {}

  lemma RaisedOneMore(index: map<string, MessageId>, reports: set<Report>, r: Report)
    ensures Raised(index, reports + {r}) ==
      match Effect(index, r) case None => Raised(index, reports) case Some(flag) => Raised(index, reports) + {flag}
  {}

  lemma RaisedUnion(index: map<string, MessageId>, a: set<Report>, b: set<Report>)
    ensures Raised(index, a + b) == Raised(index, a) + Raised(index, b)
  {}

  lemma WriteFlag(rows: Rows, m: MessageId, f: Field)
    requires m in rows
    ensures Flags(rows[m := rows[m].With(f, true)]) == Flags(rows) + {Flag(m, f)}
  {
    var after := rows[m := rows[m].With(f, true)];
    forall g: Field ensures after[m].Has(g) <==> g == f || rows[m].Has(g) {}
    assert forall flag :: flag in Flags(after) <==> flag in Flags(rows) || flag == Flag(m, f);
  }

  predicate Indexed(index: map<string, MessageId>, rows: Rows) {
    forall x | x in index :: index[x] in rows
  }

  /** Updating one by one raises exactly the flags of the set of reports. */
  lemma {:induction false} OneByOneRaises(index: map<string, MessageId>, rows: Rows, q: seq<Report>)
    requires Indexed(index, rows)
    ensures OneByOne(index, rows, q).Keys == rows.Keys
    ensures Flags(OneByOne(index, rows, q)) == Flags(rows) + Raised(index, Reports(q))
  {
    hide Flags, Raised, Effect, Reports;
    if q == [] {
      NoReports(index);
    } else {
      var n := |q| - 1;
      OneByOneRaises(index, rows, q[..n]);
      ReportsSnoc(q[..n], q[n]);
      assert q == q[..n] + [q[n]];
      RaisedOneMore(index, Reports(q[..n]), q[n]);
      var before := OneByOne(index, rows, q[..n]);
      match Effect(index, q[n]) {
        case None =>
        case Some(flag) =>
          EffectIsIndexed(index, rows, q[n]);
          WriteFlag(before, flag.message, flag.field);
      }
    }
  }

  lemma NoReports(index: map<string, MessageId>)
    ensures Raised(index, Reports([])) == {}
  {}

  lemma EffectIsIndexed(index: map<string, MessageId>, rows: Rows, r: Report)
    requires Indexed(index, rows) && Effect(index, r).Some?
    ensures Effect(index, r).value.message in rows
  {}

  /** The table is known by its messages and their flags. */
  lemma SameFlagsSameRows(a: Rows, b: Rows)
    requires a.Keys == b.Keys && Flags(a) == Flags(b)
    ensures a == b
  {
    forall m | m in a ensures a[m] == b[m] {
      forall f: Field ensures a[m].Has(f) == b[m].Has(f) {
        assert a[m].Has(f) <==> Flag(m, f) in Flags(a);
        assert b[m].Has(f) <==> Flag(m, f) in Flags(b);
      }
      assert a[m].Has(IsRead) == b[m].Has(IsRead) && a[m].Has(IsDelivered) == b[m].Has(IsDelivered);
    }
  }

  /** Order and duplication do not matter. */
  lemma OnlyTheSetMatters(index: map<string, MessageId>, rows: Rows, p: seq<Report>, q: seq<Report>)
    requires Indexed(index, rows) && Reports(p) == Reports(q)
    ensures OneByOne(index, rows, p) == OneByOne(index, rows, q)
  {
    OneByOneRaises(index, rows, p);
    OneByOneRaises(index, rows, q);
    SameFlagsSameRows(OneByOne(index, rows, p), OneByOne(index, rows, q));
  }

  // ---- Batches ----

  /** A message as read from the database, with the changes of one report. */
  datatype Snapshot = Snapshot(message: MessageId, row: Row)

  type Groups = map<set<Field>, seq<Snapshot>>

  /** The flags that the groups are about to write. */
  function Pending(groups: Groups): set<Flag> {
    set fields, s, f | fields in groups && s in groups[fields] && f in fields :: Flag(s.message, f)
  }

  /** Every snapshot is of a known message and has the flags of its group up. */
  predicate Raising(groups: Groups, rows: Rows) {
    forall fields, s | fields in groups && s in groups[fields] ::
      s.message in rows && forall f | f in fields :: s.row.Has(f)
  }

  function Joined(groups: Groups, fields: set<Field>, s: Snapshot): Groups {
    groups[fields := (if fields in groups then groups[fields] else []) + [s]]
  }

  lemma JoinGroup(groups: Groups, rows: Rows, f: Field, s: Snapshot)
    requires Raising(groups, rows) && s.message in rows && s.row.Has(f)
    ensures Raising(Joined(groups, {f}, s), rows)
    ensures Pending(Joined(groups, {f}, s)) == Pending(groups) + {Flag(s.message, f)}
  {
    var after := Joined(groups, {f}, s);
    forall flag ensures flag in Pending(after) <==> flag in Pending(groups) + {Flag(s.message, f)} {
      if flag in Pending(groups) {
        var fields, t :| fields in groups && t in groups[fields] && flag.field in fields && t.message == flag.message;
        assert fields in after && t in after[fields];
      }
      if flag == Flag(s.message, f) {
        assert {f} in after && s in after[{f}];
      }
    }
  }

  function Targets(snapshots: seq<Snapshot>, f: Field): set<Flag> {
    set s | s in snapshots :: Flag(s.message, f)
  }

  class UpdateStatusMessage {
    const index: map<string, MessageId>
    const bulkSize: nat
    var queue: seq<Report>
    var rows: Rows

    constructor (index: map<string, MessageId>, bulkSize: nat, rows: Rows)
      ensures this.index == index && this.bulkSize == bulkSize && this.rows == rows && queue == []
    {
      this.index, this.bulkSize, this.rows, queue := index, bulkSize, rows, [];
    }

    method DrainQueue() returns (reports: seq<Report>)
      modifies `queue
      ensures reports == old(queue) && queue == []
    {
      reports := queue;
      queue := [];
    }

    /** Reads the message and changes the copy; nothing when its flag is already up. */
    method ProcessMessage(r: Report) returns (changed: Option<Snapshot>, fields: set<Field>)
      requires Indexed(index, rows)
      ensures match Effect(index, r)
              case None => changed.None?
              case Some(flag) =>
                if flag in Flags(rows) then changed.None?
                else
                  && changed.Some? && fields == {flag.field} && changed.value.message == flag.message && flag.message in rows
                  && changed.value.row == rows[flag.message].With(flag.field, true)
    {
      changed, fields := None, {};
      if r.externalId == "" || r.externalId !in index {
        return;
      }
      var message := index[r.externalId];
      var row := rows[message];
      var status := Upper(r.status);
      if status in READ_ALIASES && !row.isRead {
        row := row.(isRead := true);
        fields := fields + {IsRead};
      }
      if status in DELIVERED_ALIASES && !row.isDelivered {
        row := row.(isDelivered := true);
        fields := fields + {IsDelivered};
      }
      if fields != {} {
        changed := Some(Snapshot(message, row));
      }
    }

    /** Writes the given fields of the snapshots, and no other field. */
    method BulkUpdate(snapshots: seq<Snapshot>, f: Field)
      requires forall s | s in snapshots :: s.message in rows && s.row.Has(f)
      modifies `rows
      ensures rows.Keys == old(rows).Keys
      ensures Flags(rows) == Flags(old(rows)) + Targets(snapshots, f)
    {
      hide Flags;
      for k := 0 to |snapshots|
        invariant rows.Keys == old(rows).Keys
        invariant Flags(rows) == Flags(old(rows)) + Targets(snapshots[..k], f)
      {
        var s := snapshots[k];
        WriteFlag(rows, s.message, f);
        assert snapshots[..k + 1] == snapshots[..k] + [s];
        rows := rows[s.message := rows[s.message].With(f, s.row.Has(f))];
      }
      assert snapshots[..|snapshots|] == snapshots;
    }

    /** Groups the changes of the reports by the fields they change. */
    method Group(reports: seq<Report>) returns (groups: Groups)
      requires Indexed(index, rows)
      ensures Raising(groups, rows) && forall fields | fields in groups :: exists f :: fields == {f}
      ensures Pending(groups) + Flags(rows) == Raised(index, Reports(reports)) + Flags(rows)
    {
      hide Flags, Raised, Effect, Reports, Pending, Raising, Joined;
      groups := map[];
      NoReports(index);
      NothingPending(rows);
      for k := 0 to |reports|
        invariant Raising(groups, rows) && forall fields | fields in groups :: exists f :: fields == {f}
        invariant Pending(groups) + Flags(rows) == Raised(index, Reports(reports[..k])) + Flags(rows)
      {
        ReportsSnoc(reports[..k], reports[k]);
        assert reports[..k + 1] == reports[..k] + [reports[k]];
        RaisedOneMore(index, Reports(reports[..k]), reports[k]);
        var changed, fields := ProcessMessage(reports[k]);
        if changed.Some? {
          var flag := Effect(index, reports[k]).value;
          JoinGroup(groups, rows, flag.field, changed.value);
          JoinedKeys(groups, fields, changed.value);
          groups := Joined(groups, fields, changed.value);
        }
      }
      assert reports[..|reports|] == reports;
    }

    /** One batch raises exactly the flags of its reports. */
    method BulkCreate()
      requires Indexed(index, rows)
      modifies this
      ensures queue == [] && rows.Keys == old(rows).Keys
      ensures Flags(rows) == Flags(old(rows)) + Raised(index, Reports(old(queue)))
    {
      hide Flags, Raised, Reports, Pending;
      var reports := DrainQueue();
      var groups := Group(reports);
      var left := groups.Keys;
      NothingPending(rows);
      assert (map fields | fields in groups && fields !in left :: groups[fields]) == map[];
      while left != {}
        invariant left <= groups.Keys && queue == []
        invariant rows.Keys == old(rows).Keys
        invariant Flags(rows) == Flags(old(rows)) + Pending(map fields | fields in groups && fields !in left :: groups[fields])
      {
        var fields :| fields in left;
        ghost var f :| fields == {f};
        WrittenGroup(groups, left, fields, f);
        var field :| field in fields;
        BulkUpdate(groups[fields], field);
        left := left - {fields};
      }
      assert groups == map fields | fields in groups && fields !in left :: groups[fields];
    }

    /** A batch runs when the queue has reached its size. */
    method Update(r: Report)
      requires Indexed(index, rows)
      modifies this
      ensures rows.Keys == old(rows).Keys
      ensures if |old(queue)| + 1 < bulkSize then queue == old(queue) + [r] && rows == old(rows)
              else queue == [] && Flags(rows) == Flags(old(rows)) + Raised(index, Reports(old(queue) + [r]))
    {
      queue := queue + [r];
      if |queue| >= bulkSize {
        BulkCreate();
      }
    }

    /** After any run of reports, the database is as if all but the last few, which are
        still queued, had been written to it one by one. */
    method Receive(reports: seq<Report>) returns (written: nat)
      requires Indexed(index, rows) && queue == []
      modifies this
      ensures written <= |reports| && queue == reports[written..]
      ensures 0 < bulkSize ==> |queue| < bulkSize
      ensures rows == OneByOne(index, old(rows), reports[..written])
    {
      hide Flags, Raised, Effect, Reports, OneByOne;
      written := 0;
      NoReports(index);
      for k := 0 to |reports|
        invariant written <= k && queue == reports[written..k]
        invariant 0 < bulkSize ==> |queue| < bulkSize
        invariant rows.Keys == old(rows).Keys
        invariant Flags(rows) == Flags(old(rows)) + Raised(index, Reports(reports[..written]))
      {
        assert reports[written..k] + [reports[k]] == reports[written..k + 1];
        Update(reports[k]);
        if queue == [] {
          ReportsUnion(reports[..written], reports[written..k + 1]);
          RaisedUnion(index, Reports(reports[..written]), Reports(reports[written..k + 1]));
          assert reports[..written] + reports[written..k + 1] == reports[..k + 1];
          written := k + 1;
        }
      }
      assert reports[written..|reports|] == reports[written..];
      OneByOneRaises(index, old(rows), reports[..written]);
      SameFlagsSameRows(rows, OneByOne(index, old(rows), reports[..written]));
    }
  }

  lemma NothingPending(rows: Rows)
    ensures Raising(map[], rows) && Pending(map[]) == {}
  {}

  lemma JoinedKeys(groups: Groups, fields: set<Field>, s: Snapshot)
    ensures Joined(groups, fields, s).Keys == groups.Keys + {fields}
  {}

  lemma WrittenGroup(groups: Groups, left: set<set<Field>>, fields: set<Field>, f: Field)
    requires fields in left && left <= groups.Keys && fields == {f}
    ensures Pending(map g | g in groups && g !in left - {fields} :: groups[g]) ==
            Pending(map g | g in groups && g !in left :: groups[g]) + Targets(groups[fields], f)
  {
    var before := map g | g in groups && g !in left :: groups[g];
    var after := map g | g in groups && g !in left - {fields} :: groups[g];
    forall flag ensures flag in Pending(after) <==> flag in Pending(before) + Targets(groups[fields], f) {
      if flag in Pending(before) {
        var g: set<Field>, s: Snapshot :| g in before && s in before[g] && flag.field in g && s.message == flag.message;
        assert g in after && s in after[g];
      }
      if flag in Targets(groups[fields], f) {
        var s :| s in groups[fields] && flag == Flag(s.message, f);
        assert fields in after && s in after[fields];
      }
      if flag in Pending(after) {
        var g: set<Field>, s: Snapshot :| g in after && s in after[g] && flag.field in g && s.message == flag.message;
        assert g == fields || g in before;
      }
    }
  }
}
