/** The listing of a finite set in a strict total order: what ORDER BY and sorted() return. */
module Listings {

  ghost predicate TotalOn<T(!new)>(less: (T, T) -> bool, t: set<T>) {
    && (forall x, y | x in t && y in t && less(x, y) :: x != y && !less(y, x))
    && (forall x, y | x in t && y in t && x != y :: less(x, y) || less(y, x))
    && (forall x, y, z | x in t && y in t && z in t && less(x, y) && less(y, z) :: less(x, z))
  }

  ghost predicate Sorted<T>(less: (T, T) -> bool, q: seq<T>) {
    forall i, j | 0 <= i < j < |q| :: less(q[i], q[j])
  }

  ghost function Elements<T>(q: seq<T>): set<T> {
    set m | m in q
  }

  /** `q` lists `t` in order, each element once. */
  ghost predicate IsListing<T>(less: (T, T) -> bool, q: seq<T>, t: set<T>) {
    Sorted(less, q) && Elements(q) == t
  }

  predicate IsLeast<T(==)>(less: (T, T) -> bool, m: T, t: set<T>) {
    m in t && forall x | x in t && x != m :: less(m, x)
  }

  lemma {:induction false} LeastExists<T(!new)>(less: (T, T) -> bool, t: set<T>)
    requires t != {} && TotalOn(less, t)
    ensures exists m :: IsLeast(less, m, t)
  {
    var a :| a in t;
    if t == {a} {
      assert IsLeast(less, a, t);
    } else {
      LeastExists(less, t - {a});
      var b :| IsLeast(less, b, t - {a});
      assert forall x | x in t && x != a && x != b :: x in t - {a} && less(b, x);
      if less(a, b) {
        assert IsLeast(less, a, t);
      } else {
        assert IsLeast(less, b, t);
      }
    }
  }

  function Listing<T(!new,==)>(less: (T, T) -> bool, t: set<T>): (q: seq<T>)
    requires TotalOn(less, t)
  {
    if t == {} then []
    else
      LeastExists(less, t);
      var m :| IsLeast(less, m, t);
      [m] + Listing(less, t - {m})
  }

  lemma ConsIsListing<T>(less: (T, T) -> bool, m: T, q: seq<T>, t: set<T>)
    requires IsLeast(less, m, t) && IsListing(less, q, t - {m})
    ensures IsListing(less, [m] + q, t)
  {
    forall j | 0 <= j < |q| ensures less(m, q[j]) {
      assert q[j] in Elements(q);
    }
    assert Elements([m] + q) == {m} + Elements(q);
  }

  lemma {:induction false} ListingLists<T(!new)>(less: (T, T) -> bool, t: set<T>)
    requires TotalOn(less, t)
    ensures IsListing(less, Listing(less, t), t)
    ensures |Listing(less, t)| == |t|
  {
    if t != {} {
      LeastExists(less, t);
      var m :| IsLeast(less, m, t) && Listing(less, t) == [m] + Listing(less, t - {m});
      ListingLists(less, t - {m});
      ConsIsListing(less, m, Listing(less, t - {m}), t);
    }
  }

  lemma EmptyListing<T>(less: (T, T) -> bool, q: seq<T>, t: set<T>)
    requires IsListing(less, q, t)
    ensures q == [] <==> t == {}
  {
    if q != [] {
      assert q[0] in Elements(q);
    }
  }

  lemma HeadIsLeast<T>(less: (T, T) -> bool, q: seq<T>, t: set<T>)
    requires IsListing(less, q, t) && q != []
    ensures IsLeast(less, q[0], t)
  {
    assert q[0] in Elements(q);
    forall x | x in t && x != q[0] ensures less(q[0], x) {
      var i :| 0 <= i < |q| && q[i] == x;
    }
  }

  lemma TailIsListing<T(!new)>(less: (T, T) -> bool, q: seq<T>, t: set<T>)
    requires TotalOn(less, t) && IsListing(less, q, t) && q != []
    ensures IsListing(less, q[1..], t - {q[0]})
  {
    forall m | m in t && m != q[0] ensures m in q[1..] {
      var i :| 0 <= i < |q| && q[i] == m;
      assert q[1..][i - 1] == m;
    }
    forall m | m in q[1..] ensures m in t && m != q[0] {
      var i :| 0 <= i < |q[1..]| && q[1..][i] == m;
      assert q[i + 1] == m && less(q[0], q[i + 1]);
      assert q[0] in Elements(q) && q[i + 1] in Elements(q);
    }
  }

  /** A set has one listing only. */
  lemma {:induction false} ListingIsUnique<T(!new)>(less: (T, T) -> bool, p: seq<T>, q: seq<T>, t: set<T>)
    requires TotalOn(less, t) && IsListing(less, p, t) && IsListing(less, q, t)
    ensures p == q
  {
    EmptyListing(less, p, t);
    EmptyListing(less, q, t);
    if p != [] {
      HeadIsLeast(less, p, t);
      HeadIsLeast(less, q, t);
      TailIsListing(less, p, t);
      TailIsListing(less, q, t);
      ListingIsUnique(less, p[1..], q[1..], t - {p[0]});
    }
  }

  /** Any sequence that lists the set is its listing. */
  lemma ListingIs<T(!new)>(less: (T, T) -> bool, q: seq<T>, t: set<T>)
    requires TotalOn(less, t) && IsListing(less, q, t)
    ensures Listing(less, t) == q
  {
    ListingLists(less, t);
    ListingIsUnique(less, Listing(less, t), q, t);
  }

  lemma SortedWithout<T>(less: (T, T) -> bool, q: seq<T>, p: nat)
    requires p < |q| && Sorted(less, q)
    ensures Sorted(less, q[..p] + q[p + 1..])
  {
    var r := q[..p] + q[p + 1..];
    forall i, j | 0 <= i < j < |r| ensures less(r[i], r[j]) {
      assert r[i] == q[if i < p then i else i + 1] && r[j] == q[if j < p then j else j + 1];
    }
  }

  lemma ElementsWithout<T(!new)>(less: (T, T) -> bool, q: seq<T>, t: set<T>, p: nat)
    requires TotalOn(less, t) && IsListing(less, q, t) && p < |q|
    ensures Elements(q[..p] + q[p + 1..]) == t - {q[p]}
  {
    var r := q[..p] + q[p + 1..];
    assert forall m :: m in q <==> m in Elements(q);
    forall m | m in t && m != q[p] ensures m in r {
      var i :| 0 <= i < |q| && q[i] == m;
      assert r[if i < p then i else i - 1] == m;
    }
    forall m | m in r ensures m in t && m != q[p] {
      var i :| 0 <= i < |r| && r[i] == m;
      var j := if i < p then i else i + 1;
      assert q[j] == m;
      assert if j < p then less(q[j], q[p]) else less(q[p], q[j]);
    }
  }

  /** Taking an element away leaves a gap in its place. */
  lemma ListingWithout<T(!new)>(less: (T, T) -> bool, t: set<T>, p: nat)
    requires TotalOn(less, t) && p < |Listing(less, t)|
    ensures var q := Listing(less, t);
            && TotalOn(less, t - {q[p]})
            && Listing(less, t - {q[p]}) == q[..p] + q[p + 1..]
  {
    var q := Listing(less, t);
    ListingLists(less, t);
    SortedWithout(less, q, p);
    ElementsWithout(less, q, t, p);
    ListingIs(less, q[..p] + q[p + 1..], t - {q[p]});
  }

  lemma ListingHas<T(!new)>(less: (T, T) -> bool, t: set<T>, x: T)
    requires TotalOn(less, t) && x in t
    ensures x in Listing(less, t)
  {
    ListingLists(less, t);
    assert x in Elements(Listing(less, t));
  }

  /** A new element takes one place and shifts the rest. */
  lemma ListingWith<T(!new)>(less: (T, T) -> bool, t: set<T>, x: T) returns (p: nat)
    requires TotalOn(less, t + {x}) && x !in t
    ensures TotalOn(less, t) && p <= |Listing(less, t)|
    ensures Listing(less, t + {x}) == Listing(less, t)[..p] + [x] + Listing(less, t)[p..]
  {
    hide Listing, TotalOn;
    var q := Listing(less, t + {x});
    ListingHas(less, t + {x}, x);
    p :| 0 <= p < |q| && q[p] == x;
    ListingWithout(less, t + {x}, p);
    assert t + {x} - {x} == t;
    var r := Listing(less, t);
    assert r[..p] == q[..p] && r[p..] == q[p + 1..];
    assert q == q[..p] + [x] + q[p + 1..];
  }
}
