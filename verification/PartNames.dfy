/** Part file names: decimal indexes padded with zeros to six digits, compared as text. */
module PartNames {
  import opened Listings

  type Name = string

  const WIDTH: nat := 6

  /** How many indexes fit the padding. */
  const CAPACITY: nat := 1000000

  function Digit(d: nat): char
    requires d < 10
  {
    '0' + d as char
  }

  function Decimal(n: nat): (s: Name)
    ensures s != []
  {
    if n < 10 then [Digit(n)] else Decimal(n / 10) + [Digit(n % 10)]
  }

  function Zeros(k: nat): (s: Name)
    ensures |s| == k
  {
    if k == 0 then [] else Zeros(k - 1) + ['0']
  }

  /** `f"{n:06d}"` */
  function Padded(n: nat): Name {
    var d := Decimal(n);
    if |d| < WIDTH then Zeros(WIDTH - |d|) + d else d
  }

  /** The name of part `n`. A storage that does not overwrite puts a suffix before the
      extension when the name is taken. */
  function PartName(prefix: Name, n: nat, suffix: Name): Name {
    prefix + ".part" + Padded(n) + suffix + ".csv"
  }

  /** The order of sorted() on strings. */
  predicate Before(a: Name, b: Name) {
    b != [] && (a == [] || a[0] < b[0] || (a[0] == b[0] && Before(a[1..], b[1..])))
  }

  lemma {:induction false} BeforeIsStrict(a: Name, b: Name)
    requires Before(a, b)
    ensures a != b && !Before(b, a)
  {
    if a != [] && a[0] == b[0] {
      BeforeIsStrict(a[1..], b[1..]);
    }
  }

  lemma {:induction false} BeforeIsTotal(a: Name, b: Name)
    requires a != b
    ensures Before(a, b) || Before(b, a)
  {
    if a != [] && b != [] && a[0] == b[0] {
      assert a == [a[0]] + a[1..] && b == [b[0]] + b[1..];
      BeforeIsTotal(a[1..], b[1..]);
    }
  }

  lemma {:induction false} BeforeIsTransitive(a: Name, b: Name, c: Name)
    requires Before(a, b) && Before(b, c)
    ensures Before(a, c)
  {
    if a != [] && a[0] == b[0] == c[0] {
      BeforeIsTransitive(a[1..], b[1..], c[1..]);
    }
  }

  lemma {:induction false} SharedPrefix(p: Name, a: Name, b: Name)
    ensures Before(p + a, p + b) <==> Before(a, b)
  {
    if p == [] {
      assert p + a == a && p + b == b;
    } else {
      assert (p + a)[1..] == p[1..] + a && (p + b)[1..] == p[1..] + b;
      SharedPrefix(p[1..], a, b);
    }
  }

  /** Names of one length that differ keep their order whatever follows them. */
  lemma {:induction false} Extended(a: Name, b: Name, x: Name, y: Name)
    requires |a| == |b| && Before(a, b)
    ensures Before(a + x, b + y)
  {
    if a[0] == b[0] {
      assert (a + x)[1..] == a[1..] + x && (b + y)[1..] == b[1..] + y;
      Extended(a[1..], b[1..], x, y);
    }
  }

  /** The last `w` decimal digits of `n`. */
  function Fixed(n: nat, w: nat): (s: Name)
    ensures |s| == w
  {
    if w == 0 then [] else Fixed(n / 10, w - 1) + [Digit(n % 10)]
  }

  function Power10(w: nat): nat {
    if w == 0 then 1 else 10 * Power10(w - 1)
  }

  lemma {:induction false} FixedZero(w: nat)
    ensures Fixed(0, w) == Zeros(w)
  {
    if w > 0 { FixedZero(w - 1); }
  }

  lemma {:induction false} PaddingIsFixedWidth(n: nat, w: nat)
    requires n < Power10(w) && 0 < w
    ensures |Decimal(n)| <= w && Zeros(w - |Decimal(n)|) + Decimal(n) == Fixed(n, w)
  {
    if n < 10 {
      assert n / 10 == 0 && n % 10 == n;
      FixedZero(w - 1);
    } else {
      PaddingIsFixedWidth(n / 10, w - 1);
      var z := Zeros(w - |Decimal(n)|);
      assert z + Decimal(n) == (z + Decimal(n / 10)) + [Digit(n % 10)];
    }
  }

  lemma {:induction false} FixedKeepsOrder(m: nat, n: nat, w: nat)
    requires m < n < Power10(w)
    ensures Before(Fixed(m, w), Fixed(n, w))
  {
    if m / 10 == n / 10 {
      SharedPrefix(Fixed(m / 10, w - 1), [Digit(m % 10)], [Digit(n % 10)]);
    } else {
      FixedKeepsOrder(m / 10, n / 10, w - 1);
      Extended(Fixed(m / 10, w - 1), Fixed(n / 10, w - 1), [Digit(m % 10)], [Digit(n % 10)]);
    }
  }

  lemma CapacityIsPower()
    ensures CAPACITY == Power10(WIDTH)
  {
    assert Power10(6) == 10 * Power10(5) && Power10(5) == 10 * Power10(4) && Power10(4) == 10 * Power10(3);
    assert Power10(3) == 10 * Power10(2) && Power10(2) == 10 * Power10(1) && Power10(1) == 10 * Power10(0);
  }

  lemma PaddedIsFixed(n: nat)
    requires n < CAPACITY
    ensures Padded(n) == Fixed(n, WIDTH)
  {
    CapacityIsPower();
    PaddingIsFixedWidth(n, WIDTH);
    assert Zeros(0) + Decimal(n) == Decimal(n);
  }

  /** Below the capacity of the padding, text order is numeric order, whatever suffixes
      the names carry. */
  lemma NamesSortNumerically(prefix: Name, m: nat, x: Name, n: nat, y: Name)
    requires m < n < CAPACITY
    ensures Before(PartName(prefix, m, x), PartName(prefix, n, y))
  {
    hide Padded, Fixed, Before, Power10;
    CapacityIsPower();
    PaddedIsFixed(m);
    PaddedIsFixed(n);
    FixedKeepsOrder(m, n, WIDTH);
    Extended(Padded(m), Padded(n), x + ".csv", y + ".csv");
    SharedPrefix(prefix + ".part", Padded(m) + (x + ".csv"), Padded(n) + (y + ".csv"));
    assert PartName(prefix, m, x) == prefix + ".part" + (Padded(m) + (x + ".csv"));
    assert PartName(prefix, n, y) == prefix + ".part" + (Padded(n) + (y + ".csv"));
  }

  lemma {:induction false} PowerLeadsWithOne(w: nat)
    ensures Power10(w) >= 1 && |Decimal(Power10(w))| == w + 1 && Decimal(Power10(w))[0] == '1'
  {
    if w > 0 {
      PowerLeadsWithOne(w - 1);
      assert Power10(w) / 10 == Power10(w - 1);
    }
  }

  lemma {:induction false} NinesLeadWithNine(w: nat)
    requires 1 <= w
    ensures Power10(w) >= 1 && Fixed(Power10(w) - 1, w)[0] == '9'
  {
    PowerLeadsWithOne(w - 1);
    if w > 1 {
      NinesLeadWithNine(w - 1);
      assert (Power10(w) - 1) / 10 == Power10(w - 1) - 1;
    }
  }

  /** The first name with seven digits sorts before the last one with six. */
  lemma NamesPastCapacityMisplaced(prefix: Name)
    ensures Before(PartName(prefix, CAPACITY, ""), PartName(prefix, CAPACITY - 1, ""))
  {
    CapacityIsPower();
    PowerLeadsWithOne(WIDTH);
    NinesLeadWithNine(WIDTH);
    PaddedIsFixed(CAPACITY - 1);
    var early, late := Padded(CAPACITY) + ".csv", Padded(CAPACITY - 1) + ".csv";
    assert early[0] == '1' && late[0] == '9';
    SharedPrefix(prefix + ".part", early, late);
    assert PartName(prefix, CAPACITY, "") == prefix + ".part" + early;
    assert PartName(prefix, CAPACITY - 1, "") == prefix + ".part" + late;
  }

  /** The number a padded name spells. */
  function Value(s: Name): int {
    if s == [] then 0 else 10 * Value(s[..|s| - 1]) + (s[|s| - 1] as int - '0' as int)
  }

  lemma {:induction false} ValueOfDecimal(n: nat)
    ensures Value(Decimal(n)) == n
  {
    if n < 10 {
      assert Decimal(n)[..0] == [];
    } else {
      ValueOfDecimal(n / 10);
      assert Decimal(n)[..|Decimal(n)| - 1] == Decimal(n / 10);
    }
  }

  lemma {:induction false} ValueOfPadding(k: nat, s: Name)
    ensures Value(Zeros(k) + s) == Value(s)
  {
    if s == [] {
      if k > 0 {
        ValueOfPadding(k - 1, []);
        assert Zeros(k) + [] == Zeros(k) && Zeros(k - 1) + [] == Zeros(k - 1);
        assert Zeros(k)[..k - 1] == Zeros(k - 1);
      } else {
        assert Zeros(0) + s == s;
      }
    } else {
      ValueOfPadding(k, s[..|s| - 1]);
      assert (Zeros(k) + s)[..k + |s| - 1] == Zeros(k) + s[..|s| - 1];
    }
  }

  lemma ValueOfPadded(n: nat)
    ensures Value(Padded(n)) == n
  {
    ValueOfDecimal(n);
    if |Decimal(n)| < WIDTH {
      ValueOfPadding(WIDTH - |Decimal(n)|, Decimal(n));
    }
  }

  lemma NamesAreDistinct(prefix: Name, m: nat, n: nat)
    requires m != n
    ensures PartName(prefix, m, "") != PartName(prefix, n, "")
  {
    ValueOfPadded(m);
    ValueOfPadded(n);
    hide Padded, Value;
    var p := prefix + ".part";
    assert PartName(prefix, m, "")[|p|..|PartName(prefix, m, "")| - 4] == Padded(m);
    assert PartName(prefix, n, "")[|p|..|PartName(prefix, n, "")| - 4] == Padded(n);
  }

  lemma NamesAreOrdered(t: set<Name>)
    ensures TotalOn(Before, t)
  {
    forall x, y | x in t && y in t && Before(x, y) ensures x != y && !Before(y, x) { BeforeIsStrict(x, y); }
    forall x, y | x in t && y in t && x != y ensures Before(x, y) || Before(y, x) { BeforeIsTotal(x, y); }
    forall x, y, z | x in t && y in t && z in t && Before(x, y) && Before(y, z) ensures Before(x, z) {
      BeforeIsTransitive(x, y, z);
    }
  }

  /** The names of the parts from 0 to `k`, by number. */
  function Names(prefix: Name, k: nat): (q: seq<Name>)
    ensures |q| == k
  {
    seq(k, i requires 0 <= i < k => PartName(prefix, i, ""))
  }

  /** Numbered names are sorted exactly as long as the numbers fit the padding. */
  lemma NamesAreSortedIff(prefix: Name, k: nat)
    ensures Sorted(Before, Names(prefix, k)) <==> k <= CAPACITY
  {
    hide PartName, Before;
    var q := Names(prefix, k);
    if k <= CAPACITY {
      forall i, j | 0 <= i < j < |q| ensures Before(q[i], q[j]) {
        NamesSortNumerically(prefix, i, "", j, "");
      }
    } else {
      NamesPastCapacityMisplaced(prefix);
      BeforeIsStrict(q[CAPACITY], q[CAPACITY - 1]);
    }
  }

  /** So sorted() lists consecutive parts by number. */
  lemma SortedNamesAreInOrder(prefix: Name, k: nat)
    requires k <= CAPACITY
    ensures TotalOn(Before, Elements(Names(prefix, k)))
    ensures Listing(Before, Elements(Names(prefix, k))) == Names(prefix, k)
  {
    NamesAreOrdered(Elements(Names(prefix, k)));
    NamesAreSortedIff(prefix, k);
    ListingIs(Before, Names(prefix, k), Elements(Names(prefix, k)));
  }
}
