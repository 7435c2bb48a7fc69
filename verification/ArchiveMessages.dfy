/** Keyset pagination and batched deletion over the messages of one closed room. */
module ArchiveMessages {
  import opened Listings

  /** A message row, as far as the archive reads it. `pk` is unique in the table. */
  datatype Message = Message(createdOn: int, pk: int, body: string)

  type Table = set<Message>

  /** The (created_on, pk) position after which the next page starts. */
  datatype Cursor = Start | After(createdOn: int, pk: int)

  ghost predicate UniqueKeys(t: Table) {
    forall x, y | x in t && y in t && x.pk == y.pk :: x == y
  }

  predicate Less(x: Message, y: Message) {
    x.createdOn < y.createdOn || (x.createdOn == y.createdOn && x.pk < y.pk)
  }

  predicate Beyond(c: Cursor, m: Message) {
    c.Start? || c.createdOn < m.createdOn || (c.createdOn == m.createdOn && c.pk < m.pk)
  }

  function CursorAt(m: Message): Cursor {
    After(m.createdOn, m.pk)
  }

  lemma KeysOrder(t: Table)
    requires UniqueKeys(t)
    ensures TotalOn(Less, t)
  {
    forall x, y | x in t && y in t && x != y ensures Less(x, y) || Less(y, x) {
      assert x.pk != y.pk;
    }
  }

  /** The table in (created_on, pk) order: what an uninterrupted export writes. */
  function InOrder(t: Table): (q: seq<Message>)
    requires UniqueKeys(t)
  {
    KeysOrder(t);
    Listing(Less, t)
  }

  lemma InOrderLists(t: Table)
    requires UniqueKeys(t)
    ensures IsListing(Less, InOrder(t), t)
  {
    KeysOrder(t);
    ListingLists(Less, t);
  }

  function Remaining(t: Table, c: Cursor): (r: Table)
    ensures r <= t
  {
    set m | m in t && Beyond(c, m)
  }

  /** The query of one page: filter beyond the cursor, order, slice. */
  function QueryPage(t: Table, c: Cursor, size: nat): (page: seq<Message>)
    requires UniqueKeys(t)
  {
    var ordered := InOrder(Remaining(t, c));
    if size < |ordered| then ordered[..size] else ordered
  }

  lemma SuffixIsBeyond(q: seq<Message>, t: Table, k: nat)
    requires IsListing(Less, q, t) && 0 < k <= |q|
    ensures Elements(q[k..]) <= Remaining(t, CursorAt(q[k - 1]))
  {
    forall m | m in q[k..] ensures m in Remaining(t, CursorAt(q[k - 1])) {
      var i :| 0 <= i < |q[k..]| && q[k..][i] == m;
      assert q[k + i] == m && Less(q[k - 1], q[k + i]) && m in Elements(q);
    }
  }

  lemma BeyondIsSuffix(q: seq<Message>, t: Table, k: nat)
    requires IsListing(Less, q, t) && 0 < k <= |q|
    ensures Remaining(t, CursorAt(q[k - 1])) <= Elements(q[k..])
  {
    forall m | m in Remaining(t, CursorAt(q[k - 1])) ensures m in q[k..] {
      assert m in Elements(q);
      var i :| 0 <= i < |q| && q[i] == m;
      assert k <= i;
      assert q[k..][i - k] == m;
    }
  }

  /** Filtering by the key of the k-th message leaves exactly what follows it,
      also when its timestamp is shared across the page border. */
  lemma CursorSplitsListing(t: Table, k: nat)
    requires UniqueKeys(t) && 0 < k <= |InOrder(t)|
    ensures InOrder(Remaining(t, CursorAt(InOrder(t)[k - 1]))) == InOrder(t)[k..]
  {
    var q := InOrder(t);
    var r := Remaining(t, CursorAt(q[k - 1]));
    KeysOrder(t);
    KeysOrder(r);
    ListingLists(Less, t);
    SuffixIsBeyond(q, t, k);
    BeyondIsSuffix(q, t, k);
    ListingIs(Less, q[k..], r);
  }

  lemma StartSeesAll(t: Table)
    ensures Remaining(t, Start) == t
  {}

  ghost predicate Exported(t: Table, lines: seq<Message>, cursor: Cursor)
    requires UniqueKeys(t)
  {
    && lines <= InOrder(t)
    && cursor == (if lines == [] then Start else CursorAt(lines[|lines| - 1]))
  }

  lemma NextPageContinues(t: Table, lines: seq<Message>, cursor: Cursor, size: nat)
    requires UniqueKeys(t) && Exported(t, lines, cursor)
    ensures var rest := InOrder(t)[|lines|..];
            QueryPage(t, cursor, size) == if size < |rest| then rest[..size] else rest
  {
    if lines == [] {
      StartSeesAll(t);
    } else {
      CursorSplitsListing(t, |lines|);
    }
  }

  /** Page through the room's messages until a page comes back empty. */
  method IterMessages(t: Table, pageSize: nat) returns (lines: seq<Message>)
    requires UniqueKeys(t)
    requires 1 <= pageSize
    ensures lines == InOrder(t)
    ensures IsListing(Less, lines, t)
  {
    hide InOrder, QueryPage;
    lines := [];
    var cursor := Start;
    while true
      invariant Exported(t, lines, cursor)
      decreases |InOrder(t)| - |lines|
    {
      NextPageContinues(t, lines, cursor, pageSize);
      var page := QueryPage(t, cursor, pageSize);
      if page == [] {
        break;
      }
      lines := lines + page;
      cursor := CursorAt(page[|page| - 1]);
    }
    InOrderLists(t);
  }

  /** The primary keys of one deletion batch: any `size` messages, or all that are left. */
  method PickBatch(t: Table, size: nat) returns (batch: Table)
    ensures batch <= t
    ensures |batch| == if size < |t| then size else |t|
  {
    batch := {};
    var rest := t;
    while rest != {} && |batch| < size
      invariant batch !! rest && batch + rest == t
      invariant |batch| <= size
      decreases rest
    {
      var m :| m in rest;
      batch, rest := batch + {m}, rest - {m};
    }
  }
}
