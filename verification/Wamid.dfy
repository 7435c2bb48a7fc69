/** The stable core of a WhatsApp message id: the bytes behind a known marker in the
    decoded payload, whatever envelope precedes it. */
module Wamid {
  import opened Base64
  import opened Options

  const PREFIX := "wamid."

  /** Tried in this order. */
  const MARKERS: seq<seq<Byte>> := [[0x12, 0x18, 0x16], [0x11, 0x18, 0x12], [0x12, 0x18, 0x20]]

  predicate OccursAt(raw: seq<Byte>, marker: seq<Byte>, i: nat) {
    i + |marker| <= |raw| && raw[i..i + |marker|] == marker
  }

  /** The last occurrence of `marker` that starts before `n`. */
  function FindLast(raw: seq<Byte>, marker: seq<Byte>, n: nat): (found: Option<nat>)
    ensures found.Some? ==> found.value < n && OccursAt(raw, marker, found.value)
    ensures forall i | (if found.Some? then found.value + 1 else 0) <= i < n :: !OccursAt(raw, marker, i)
  {
    if n == 0 then None
    else if OccursAt(raw, marker, n - 1) then Some(n - 1)
    else FindLast(raw, marker, n - 1)
  }

  /** What follows the last occurrence of `marker`, unless that is nothing. */
  function Behind(raw: seq<Byte>, marker: seq<Byte>): Option<seq<Byte>> {
    match FindLast(raw, marker, |raw| + 1)
    case None => None
    case Some(i) => if i + |marker| == |raw| then None else Some(raw[i + |marker|..])
  }

  function CoreFrom(raw: seq<Byte>, k: nat): Option<seq<Byte>>
    decreases |MARKERS| - k
  {
    if k >= |MARKERS| then None
    else
      match Behind(raw, MARKERS[k])
      case Some(core) => Some(core)
      case None => CoreFrom(raw, k + 1)
  }

  function HexDigit(v: nat): char
    requires v < 16
  {
    if v < 10 then (48 + v) as char else (65 + v - 10) as char
  }

  function UpperHex(p: seq<Byte>): string {
    if p == [] then "" else [HexDigit(p[0] / 16), HexDigit(p[0] % 16)] + UpperHex(p[1..])
  }

  function ExtractWamidCore(wamid: Option<string>): Option<string> {
    if wamid.None? || !(PREFIX <= wamid.value) then None
    else
      var encoded := wamid.value[|PREFIX|..];
      match Decode(encoded + Pads(Missing(|encoded|)))
      case None => None
      case Some(raw) =>
        match CoreFrom(raw, 0)
        case None => None
        case Some(core) => Some(UpperHex(core))
  }

  // ---- Properties ----

  /** The id a payload is sent under, with any number of trailing '='. */
  function Id(raw: seq<Byte>, pads: nat): Option<string> {
    Some(PREFIX + Letters(raw) + Pads(pads))
  }

  function Payload(envelope: seq<Byte>, k: nat, core: seq<Byte>): seq<Byte>
    requires k < |MARKERS|
  {
    envelope + MARKERS[k] + core
  }

  /** Marker `k` does not occur again behind the envelope. */
  ghost predicate LastMarker(envelope: seq<Byte>, k: nat, core: seq<Byte>)
    requires k < |MARKERS|
  {
    forall i | |envelope| < i :: !OccursAt(Payload(envelope, k, core), MARKERS[k], i)
  }

  /** No marker of higher priority has anything behind its last occurrence. */
  predicate NoneBefore(raw: seq<Byte>, k: nat)
    requires k <= |MARKERS|
  {
    forall j | 0 <= j < k :: Behind(raw, MARKERS[j]).None?
  }

  lemma {:induction false} SkipsUnusable(raw: seq<Byte>, j: nat, k: nat)
    requires j <= k <= |MARKERS| && NoneBefore(raw, k)
    ensures CoreFrom(raw, j) == CoreFrom(raw, k)
    decreases k - j
  {
    if j < k {
      SkipsUnusable(raw, j + 1, k);
    }
  }

  lemma BehindLastMarker(envelope: seq<Byte>, k: nat, core: seq<Byte>)
    requires k < |MARKERS| && core != [] && LastMarker(envelope, k, core)
    ensures Behind(Payload(envelope, k, core), MARKERS[k]) == Some(core)
  {
    var raw := Payload(envelope, k, core);
    var n := |envelope|;
    assert |MARKERS[k]| == 3;
    assert raw[n..n + 3] == MARKERS[k];
    assert OccursAt(raw, MARKERS[k], n);
    assert raw[n + 3..] == core;
  }

  /** A marker of higher priority never leaves the same core. */
  lemma OtherMarkerOtherCore(envelope: seq<Byte>, k: nat, core: seq<Byte>, j: nat)
    requires j < k < |MARKERS|
    ensures Behind(Payload(envelope, k, core), MARKERS[j]) != Some(core)
  {
    var raw := Payload(envelope, k, core);
    var n := |envelope|;
    assert raw[n..n + 3] == MARKERS[k];
    assert MARKERS[j] != MARKERS[k] by {
      assert MARKERS[j][2] != MARKERS[k][2];
    }
    match FindLast(raw, MARKERS[j], |raw| + 1) {
      case None =>
      case Some(i) => assert raw[i..i + 3] == MARKERS[j];
    }
  }

  lemma {:induction false} FirstUsable(raw: seq<Byte>, j: nat, k: nat) returns (first: nat)
    requires j <= k <= |MARKERS| && exists m | j <= m < k :: Behind(raw, MARKERS[m]).Some?
    ensures j <= first < k && CoreFrom(raw, j) == Behind(raw, MARKERS[first])
    decreases k - j
  {
    if Behind(raw, MARKERS[j]).Some? {
      first := j;
    } else {
      first := FirstUsable(raw, j + 1, k);
    }
  }

  /** Behind the last occurrence of its marker, a core is found exactly when no marker of
      higher priority occurs with something behind it. */
  lemma CoreIsFoundIff(envelope: seq<Byte>, k: nat, core: seq<Byte>)
    requires k < |MARKERS| && core != [] && LastMarker(envelope, k, core)
    ensures CoreFrom(Payload(envelope, k, core), 0) == Some(core) <==> NoneBefore(Payload(envelope, k, core), k)
  {
    var raw := Payload(envelope, k, core);
    if NoneBefore(raw, k) {
      SkipsUnusable(raw, 0, k);
      BehindLastMarker(envelope, k, core);
    } else {
      var first := FirstUsable(raw, 0, k);
      OtherMarkerOtherCore(envelope, k, core, first);
    }
  }

  lemma {:induction false} HexIsInjective(a: seq<Byte>, b: seq<Byte>)
    requires UpperHex(a) == UpperHex(b)
    ensures a == b
  {
    if a != [] && b != [] {
      assert UpperHex(a)[0] == UpperHex(b)[0] && UpperHex(a)[1] == UpperHex(b)[1];
      assert UpperHex(a)[2..] == UpperHex(a[1..]) && UpperHex(b)[2..] == UpperHex(b[1..]);
      HexIsInjective(a[1..], b[1..]);
    }
  }

  lemma IdDecodes(raw: seq<Byte>, pads: nat)
    ensures ExtractWamidCore(Id(raw, pads)) ==
      match CoreFrom(raw, 0)
      case None => None
      case Some(core) => Some(UpperHex(core))
  {
    hide Letters, Decode, CoreFrom, UpperHex;
    DecodeRepadded(raw, pads);
    var id := Id(raw, pads).value;
    assert id == PREFIX + (Letters(raw) + Pads(pads));
    assert id[|PREFIX|..] == Letters(raw) + Pads(pads);
  }

  /** The envelope, and how many '=' end the id, do not matter. */
  lemma CoreIsExtracted(envelope: seq<Byte>, k: nat, core: seq<Byte>, pads: nat)
    requires k < |MARKERS| && core != []
    requires LastMarker(envelope, k, core) && NoneBefore(Payload(envelope, k, core), k)
    ensures ExtractWamidCore(Id(Payload(envelope, k, core), pads)) == Some(UpperHex(core))
  {
    CoreIsFoundIff(envelope, k, core);
    IdDecodes(Payload(envelope, k, core), pads);
  }

  /** Two ids of different envelopes, markers and padding agree exactly when they carry
      the same core. */
  lemma EnvelopesAgreeIff(envelope1: seq<Byte>, k1: nat, core1: seq<Byte>, pads1: nat,
                          envelope2: seq<Byte>, k2: nat, core2: seq<Byte>, pads2: nat)
    requires k1 < |MARKERS| && core1 != [] && k2 < |MARKERS| && core2 != []
    requires LastMarker(envelope1, k1, core1) && NoneBefore(Payload(envelope1, k1, core1), k1)
    requires LastMarker(envelope2, k2, core2) && NoneBefore(Payload(envelope2, k2, core2), k2)
    ensures ExtractWamidCore(Id(Payload(envelope1, k1, core1), pads1)) == ExtractWamidCore(Id(Payload(envelope2, k2, core2), pads2))
            <==> core1 == core2
  {
    CoreIsExtracted(envelope1, k1, core1, pads1);
    CoreIsExtracted(envelope2, k2, core2, pads2);
    if UpperHex(core1) == UpperHex(core2) {
      HexIsInjective(core1, core2);
    }
  }
}
