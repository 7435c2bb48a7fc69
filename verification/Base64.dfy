/** Base64 as section 4 of RFC 4648 writes it and as a lenient decoder reads it. */
module Base64 {
  import opened Options

  type Byte = b: int | 0 <= b < 256
  type Sextet = v: int | 0 <= v < 64

  function Letter(v: Sextet): char {
    if v < 26 then (65 + v) as char
    else if v < 52 then (97 + v - 26) as char
    else if v < 62 then (48 + v - 52) as char
    else if v == 62 then '+' else '/'
  }

  function Value(c: char): Option<Sextet> {
    if 'A' <= c <= 'Z' then Some(c as int - 65)
    else if 'a' <= c <= 'z' then Some(c as int - 97 + 26)
    else if '0' <= c <= '9' then Some(c as int - 48 + 52)
    else if c == '+' then Some(62)
    else if c == '/' then Some(63)
    else None
  }

  lemma LettersHaveTheirValue(v: Sextet)
    ensures Value(Letter(v)) == Some(v) && Letter(v) != '=' && Letter(v) as int < 128
  {}

  // ---- Encoding ----

  /** The encoding without its padding. */
  function Letters(p: seq<Byte>): string {
    if p == [] then ""
    else if |p| == 1 then [Letter(p[0] / 4), Letter(p[0] % 4 * 16)]
    else if |p| == 2 then [Letter(p[0] / 4), Letter(p[0] % 4 * 16 + p[1] / 16), Letter(p[1] % 16 * 4)]
    else
      [Letter(p[0] / 4), Letter(p[0] % 4 * 16 + p[1] / 16), Letter(p[1] % 16 * 4 + p[2] / 64), Letter(p[2] % 64)]
      + Letters(p[3..])
  }

  function Pads(k: nat): (s: string)
    ensures |s| == k && forall i | 0 <= i < k :: s[i] == '='
  {
    if k == 0 then "" else "=" + Pads(k - 1)
  }

  /** How many '=' fill the last group of four characters. */
  function Missing(length: nat): nat {
    (4 - length % 4) % 4
  }

  function Encode(p: seq<Byte>): string {
    Letters(p) + Pads(Missing(|Letters(p)|))
  }

  // ---- Decoding ----

  /** How much of a group has been read: the bits not yet put out, and the '=' seen so
      far where they count. */
  datatype Group =
    | Fresh
    | One(six: Sextet)
    | Two(four: Byte, pads: nat)
    | Three(two: Byte)
  {
    predicate Valid() {
      (Two? ==> four < 16) && (Three? ==> two < 4)
    }
  }

  /** Reads on in group `g` after `out`. Characters outside the alphabet are skipped; a
      '=' counts from the third place of a group on, and completing the group that way
      ends the input. An incomplete group at the end is an error. */
  function Scan(s: string, g: Group, out: seq<Byte>): Option<seq<Byte>>
    requires g.Valid()
    decreases |s|
  {
    if s == "" then
      if g.Fresh? then Some(out) else None
    else if s[0] == '=' then
      if g.Three? || (g.Two? && g.pads >= 1) then Some(out)
      else if g.Two? then Scan(s[1..], Two(g.four, g.pads + 1), out)
      else Scan(s[1..], g, out)
    else
      match Value(s[0])
      case None => Scan(s[1..], g, out)
      case Some(v) =>
        match g
        case Fresh => Scan(s[1..], One(v), out)
        case One(six) => Scan(s[1..], Two(v % 16, 0), out + [six * 4 + v / 16])
        case Two(four, _) => Scan(s[1..], Three(v % 4), out + [four * 16 + v / 4])
        case Three(two) => Scan(s[1..], Fresh, out + [two * 64 + v])
  }

  /** None for a character outside ASCII or an incomplete group. */
  function Decode(s: string): Option<seq<Byte>> {
    if exists c | c in s :: c as int >= 128 then None else Scan(s, Fresh, [])
  }

  // ---- Round trip ----

  /** The group the last letters of `p` leave open. */
  function Left(p: seq<Byte>): Group {
    match |p| % 3
    case 0 => Fresh
    case 1 => Two(0, 0)
    case _ => Three(0)
  }

  lemma ScanLetter(v: Sextet, rest: string, g: Group, out: seq<Byte>)
    requires g.Valid()
    ensures Scan([Letter(v)] + rest, g, out) ==
      match g
      case Fresh => Scan(rest, One(v), out)
      case One(six) => Scan(rest, Two(v % 16, 0), out + [six * 4 + v / 16])
      case Two(four, _) => Scan(rest, Three(v % 4), out + [four * 16 + v / 4])
      case Three(two) => Scan(rest, Fresh, out + [two * 64 + v])
  {
    LettersHaveTheirValue(v);
    assert ([Letter(v)] + rest)[1..] == rest;
  }

  lemma ScanPair(a: Byte, b: Byte, rest: string, out: seq<Byte>)
    ensures Scan([Letter(a / 4), Letter(a % 4 * 16 + b / 16)] + rest, Fresh, out) == Scan(rest, Two(b / 16, 0), out + [a])
  {
    hide Scan, Letter;
    var v, w := a / 4, a % 4 * 16 + b / 16;
    assert [Letter(v), Letter(w)] + rest == [Letter(v)] + ([Letter(w)] + rest);
    ScanLetter(v, [Letter(w)] + rest, Fresh, out);
    ScanLetter(w, rest, One(v), out);
  }

  lemma ScanThird(b: Byte, c: Byte, rest: string, out: seq<Byte>)
    ensures Scan([Letter(b % 16 * 4 + c / 64)] + rest, Two(b / 16, 0), out) == Scan(rest, Three(c / 64), out + [b])
  {
    hide Scan, Letter;
    ScanLetter(b % 16 * 4 + c / 64, rest, Two(b / 16, 0), out);
  }

  lemma ScanTwo(p: seq<Byte>, rest: string, out: seq<Byte>)
    requires |p| == 2
    ensures Scan(Letters(p) + rest, Fresh, out) == Scan(rest, Three(0), out + p)
  {
    hide Scan, Letter;
    assert out + p == out + [p[0]] + [p[1]];
    assert Letters(p) + rest == [Letter(p[0] / 4), Letter(p[0] % 4 * 16 + p[1] / 16)] + ([Letter(p[1] % 16 * 4)] + rest);
    ScanPair(p[0], p[1], [Letter(p[1] % 16 * 4)] + rest, out);
    ScanThird(p[1], 0, rest, out + [p[0]]);
  }

  /** The letters of `p` put out `p`, whatever follows. */
  lemma {:induction false} ScanLetters(p: seq<Byte>, rest: string, out: seq<Byte>)
    ensures Scan(Letters(p) + rest, Fresh, out) == Scan(rest, Left(p), out + p)
    decreases |p|
  {
    hide Scan, Letter;
    if p == [] {
      assert Letters(p) + rest == rest && out + p == out;
    } else if |p| == 1 {
      assert p == [p[0]];
      ScanPair(p[0], 0, rest, out);
    } else if |p| == 2 {
      ScanTwo(p, rest, out);
    } else {
      hide Letters;
      ScanTriple(p, rest, out);
      ScanLetters(p[3..], rest, out + p[..3]);
      assert out + p[..3] + p[3..] == out + p;
    }
  }

  lemma ScanTriple(p: seq<Byte>, rest: string, out: seq<Byte>)
    requires |p| >= 3
    ensures Scan(Letters(p) + rest, Fresh, out) == Scan(Letters(p[3..]) + rest, Fresh, out + p[..3])
  {
    hide Scan, Letter;
    var more := Letters(p[3..]) + rest;
    var third, fourth := [Letter(p[1] % 16 * 4 + p[2] / 64)], [Letter(p[2] % 64)];
    assert Letters(p) + rest == [Letter(p[0] / 4), Letter(p[0] % 4 * 16 + p[1] / 16)] + (third + (fourth + more));
    ScanPair(p[0], p[1], third + (fourth + more), out);
    ScanThird(p[1], p[2], fourth + more, out + [p[0]]);
    ScanLetter(p[2] % 64, more, Three(p[2] / 64), out + [p[0]] + [p[1]]);
    assert out + [p[0]] + [p[1]] + [p[2]] == out + p[..3];
  }

  lemma {:induction false} LettersLength(p: seq<Byte>)
    ensures |Letters(p)| % 4 == match |p| % 3 case 0 => 0 case 1 => 2 case _ => 3
    decreases |p|
  {
    hide Letter;
    if |p| >= 3 {
      LettersLength(p[3..]);
    }
  }

  lemma {:induction false} LettersAreAscii(p: seq<Byte>)
    ensures forall c | c in Letters(p) :: c as int < 128 && c != '='
    decreases |p|
  {
    hide Letter;
    forall v: Sextet ensures Letter(v) as int < 128 && Letter(v) != '=' {
      LettersHaveTheirValue(v);
    }
    if |p| >= 3 {
      LettersAreAscii(p[3..]);
    }
  }

  lemma {:induction false} FreshIgnoresPads(k: nat, out: seq<Byte>)
    ensures Scan(Pads(k), Fresh, out) == Some(out)
  {
    if k > 0 {
      assert Pads(k)[1..] == Pads(k - 1);
      FreshIgnoresPads(k - 1, out);
    }
  }

  lemma PadsAppend(k: nat, j: nat)
    ensures Pads(k) + Pads(j) == Pads(k + j)
  {}

  lemma PadsCloseGroup(p: seq<Byte>, k: nat, out: seq<Byte>)
    requires (|Letters(p)| + k) % 4 == 0
    ensures Scan(Pads(k), Left(p), out) == Some(out)
  {
    LettersLength(p);
    if |p| % 3 == 0 {
      FreshIgnoresPads(k, out);
    } else {
      assert Pads(k)[1..] == Pads(k - 1);
    }
  }

  /** However many '=' follow the letters, filling up the last group of four makes the
      decoder return the encoded bytes. */
  lemma DecodeRepadded(p: seq<Byte>, k: nat)
    ensures var s := Letters(p) + Pads(k);
            Decode(s + Pads(Missing(|s|))) == Some(p)
  {
    hide Scan, Letters, Pads, Value;
    var s := Letters(p) + Pads(k);
    var more := k + Missing(|s|);
    PadsAppend(k, Missing(|s|));
    assert s + Pads(Missing(|s|)) == Letters(p) + Pads(more);
    LettersAreAscii(p);
    assert forall c | c in s + Pads(Missing(|s|)) :: c in Letters(p) || c in Pads(more);
    ScanLetters(p, Pads(more), []);
    assert [] + p == p;
    PadsCloseGroup(p, more, p);
  }

  lemma DecodeEncode(p: seq<Byte>)
    ensures Decode(Encode(p)) == Some(p)
  {
    DecodeRepadded(p, 0);
    assert Letters(p) + Pads(0) == Letters(p);
  }
}
