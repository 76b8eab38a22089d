/** Normalising what wsl.exe prints: UTF-8, or UTF-16 with or without a byte-order mark. */
module WslOutput {
  import opened GoStrings
  import opened Unicode

  /** string(b) */
  function AsString(b: seq<Byte>): (s: string)
    ensures |s| == |b|
  {
    seq(|b|, i requires 0 <= i < |b| => b[i] as char)
  }

  function AsBytes(s: string): (b: seq<Byte>)
    requires forall i :: 0 <= i < |s| ==> s[i] as int < 0x100
    ensures |b| == |s| && AsString(b) == s
  {
    seq(|s|, i requires 0 <= i < |s| => s[i] as int)
  }

  function FromUtf16(b: seq<Byte>, order: Order): string {
    TrimSpace(Text(DecodeUnits(ReadUnits(b, order))))
  }

  predicate StartsWith(b: seq<Byte>, first: int, second: int) {
    |b| >= 2 && b[0] == first && b[1] == second
  }

  predicate HasEarlyNul(b: seq<Byte>) {
    0 in b[..if |b| > 256 then 256 else |b|]
  }

  datatype Form = MarkedUtf16(order: Order) | UnmarkedUtf16 | PlainUtf8

  /** What the leading bytes are taken for. */
  function Detect(b: seq<Byte>): (form: Form)
    ensures form.MarkedUtf16? ==> |b| >= 2
  {
    if StartsWith(b, 0xFF, 0xFE) then MarkedUtf16(LittleEndian)
    else if StartsWith(b, 0xFE, 0xFF) then MarkedUtf16(BigEndian)
    else if HasEarlyNul(b) then UnmarkedUtf16
    else PlainUtf8
  }

  /** What decodeOutput answers. */
  function Decoded(b: seq<Byte>): string {
    match Detect(b)
    case MarkedUtf16(order) => FromUtf16(b[2..], order)
    case UnmarkedUtf16 => FromUtf16(b, LittleEndian)
    case PlainUtf8 => TrimSpace(AsString(b))
  }

  method DecodeUtf16(b: seq<Byte>, order: Order) returns (s: string)
    ensures s == FromUtf16(b, order)
  {
    var u: seq<Unit> := [];
    var i := 0;
    while i + 1 < |b|
      invariant 0 <= i <= |b|
      invariant u + ReadUnits(b[i..], order) == ReadUnits(b, order)
    {
      var unit: Unit := if order.LittleEndian? then FromPair(b[i], b[i + 1]) else FromPair(b[i + 1], b[i]);
      assert b[i..][2..] == b[i + 2..];
      assert u + ([unit] + ReadUnits(b[i + 2..], order)) == u + [unit] + ReadUnits(b[i + 2..], order);
      u := u + [unit];
      i := i + 2;
    }
    assert u == ReadUnits(b, order);
    s := TrimSpace(Text(DecodeUnits(u)));
  }

  method DecodeOutput(b: seq<Byte>) returns (s: string)
    ensures s == Decoded(b)
  {
    if |b| >= 2 {
      if b[0] == 0xFF && b[1] == 0xFE {
        s := DecodeUtf16(b[2..], LittleEndian);
        return;
      } else if b[0] == 0xFE && b[1] == 0xFF {
        s := DecodeUtf16(b[2..], BigEndian);
        return;
      }
    }
    var n := if |b| > 256 then 256 else |b|;
    if 0 in b[..n] {
      s := DecodeUtf16(b, LittleEndian);
    } else {
      s := TrimSpace(AsString(b));
    }
  }

  // ------------------------------------------------------------------
  // Round trips

  lemma Utf16RoundTrip(vs: seq<Rune>, order: Order, stray: seq<Byte>)
    requires |stray| <= 1
    ensures FromUtf16(Serialize(Units(vs), order) + stray, order) == TrimSpace(Text(vs))
  {
    BytesRoundTrip(Units(vs), order, stray);
    UnitsRoundTrip(vs);
  }

  lemma DetectMarked(order: Order, body: seq<Byte>)
    ensures Mark(LittleEndian) == [0xFF, 0xFE] && Mark(BigEndian) == [0xFE, 0xFF]
    ensures Detect(Mark(order) + body) == MarkedUtf16(order) && (Mark(order) + body)[2..] == body
  {
  }

  /** Marked UTF-16 of either order decodes to the trimmed text, for every text
      including surrogate pairs; a stray odd byte at the end changes nothing. */
  lemma MarkedRoundTrip(vs: seq<Rune>, order: Order, stray: seq<Byte>)
    requires |stray| <= 1
    ensures Decoded(Mark(order) + (Serialize(Units(vs), order) + stray)) == TrimSpace(Text(vs))
  {
    DetectMarked(order, Serialize(Units(vs), order) + stray);
    Utf16RoundTrip(vs, order, stray);
  }

  lemma MarkedText(vs: seq<Rune>, order: Order)
    ensures Decoded(Mark(order) + Serialize(Units(vs), order)) == TrimSpace(Text(vs))
  {
    MarkedRoundTrip(vs, order, []);
    assert Serialize(Units(vs), order) + [] == Serialize(Units(vs), order);
  }

  lemma DetectPlain(vs: seq<Rune>)
    requires 0 !in vs
    ensures forall i :: 0 <= i < |Text(vs)| ==> Text(vs)[i] as int < 0x100
    ensures Detect(AsBytes(Text(vs))) == PlainUtf8
  {
    TextBytes(vs);
    var b := AsBytes(Text(vs));
    assert forall i :: 0 <= i < |b| ==> b[i] == Text(vs)[i] as int && 0 < b[i] < 0xF5;
  }

  /** UTF-8 without NUL decodes to the trimmed text: no byte of it looks like a
      byte-order mark. */
  lemma Utf8RoundTrip(vs: seq<Rune>)
    requires 0 !in vs
    ensures forall i :: 0 <= i < |Text(vs)| ==> Text(vs)[i] as int < 0x100
    ensures Decoded(AsBytes(Text(vs))) == TrimSpace(Text(vs))
  {
    DetectPlain(vs);
  }

  lemma FirstPair(us: seq<Unit>)
    requires us != []
    ensures
      var b := Serialize(us, LittleEndian);
      |b| >= 2 && us[0] == FromPair(b[0], b[1])
  {
    var b := Serialize(us, LittleEndian);
    assert b[..2] == UnitBytes(us[0], LittleEndian);
    assert b[0] == b[..2][0] && b[1] == b[..2][1];
  }

  lemma DetectByPair(b: seq<Byte>)
    requires |b| >= 2 && FromPair(b[0], b[1]) != 0xFEFF && FromPair(b[0], b[1]) != 0xFFFE
    ensures Detect(b) == if HasEarlyNul(b) then UnmarkedUtf16 else PlainUtf8
  {
  }

  lemma {:induction false} SerializedAt(us: seq<Unit>, k: nat)
    requires k < |us|
    ensures
      var b := Serialize(us, LittleEndian);
      |b| == 2 * |us| && b[2 * k] == us[k] % 0x100 && b[2 * k + 1] == us[k] / 0x100
    decreases |us|
  {
    var b, rest := Serialize(us, LittleEndian), Serialize(us[1..], LittleEndian);
    assert b == UnitBytes(us[0], LittleEndian) + rest;
    if k > 0 {
      SerializedAt(us[1..], k - 1);
      assert b[2 * k] == rest[2 * (k - 1)] && b[2 * k + 1] == rest[2 * (k - 1) + 1];
    } else if |us| > 1 {
      SerializedAt(us[1..], 0);
    }
  }

  /** One of the first 128 code units has a zero byte. */
  predicate EarlyZero(us: seq<Unit>) {
    exists k :: 0 <= k < |us| && k < 128 && (us[k] / 0x100 == 0 || us[k] % 0x100 == 0)
  }

  lemma EarlyNulIff(us: seq<Unit>)
    ensures HasEarlyNul(Serialize(us, LittleEndian)) <==> EarlyZero(us)
  {
    var b := Serialize(us, LittleEndian);
    if us != [] {
      SerializedAt(us, 0);
      var early := b[..if |b| > 256 then 256 else |b|];
      if EarlyZero(us) {
        var k :| 0 <= k < |us| && k < 128 && (us[k] / 0x100 == 0 || us[k] % 0x100 == 0);
        SerializedAt(us, k);
        assert early[2 * k] == b[2 * k] && early[2 * k + 1] == b[2 * k + 1];
      }
      if HasEarlyNul(b) {
        var i :| 0 <= i < |early| && early[i] == 0;
        SerializedAt(us, i / 2);
        assert i == 2 * (i / 2) || i == 2 * (i / 2) + 1;
      }
    }
  }

  /** UTF-16 without a mark is recognised exactly by a zero byte in its first 128
      code units, unless the text begins like a mark; else it is taken for UTF-8. */
  lemma UnmarkedDetectedIff(vs: seq<Rune>)
    requires vs != [] && vs[0] != 0xFEFF && vs[0] != 0xFFFE
    ensures Detect(Serialize(Units(vs), LittleEndian)) == if EarlyZero(Units(vs)) then UnmarkedUtf16 else PlainUtf8
  {
    var us := Units(vs);
    assert us[0] == Utf16(vs[0])[0] && us[0] != 0xFEFF && us[0] != 0xFFFE;
    FirstPair(us);
    DetectByPair(Serialize(us, LittleEndian));
    EarlyNulIff(us);
  }

  lemma DetectUnmarked(vs: seq<Rune>)
    requires vs != [] && vs[0] != 0xFEFF && vs[0] != 0xFFFE
    requires HasEarlyNul(Serialize(Units(vs), LittleEndian))
    ensures Detect(Serialize(Units(vs), LittleEndian)) == UnmarkedUtf16
  {
    var us := Units(vs);
    assert us[0] == Utf16(vs[0])[0] && us[0] != 0xFEFF && us[0] != 0xFFFE;
    FirstPair(us);
    DetectByPair(Serialize(us, LittleEndian));
  }

  /** Unmarked little-endian UTF-16 decodes to the trimmed text when a zero byte
      shows up early and the text does not itself start like a byte-order mark. */
  lemma UnmarkedRoundTrip(vs: seq<Rune>)
    requires vs != [] && vs[0] != 0xFEFF && vs[0] != 0xFFFE
    requires HasEarlyNul(Serialize(Units(vs), LittleEndian))
    ensures Decoded(Serialize(Units(vs), LittleEndian)) == TrimSpace(Text(vs))
  {
    DetectUnmarked(vs);
    Utf16RoundTrip(vs, LittleEndian, []);
    assert Serialize(Units(vs), LittleEndian) + [] == Serialize(Units(vs), LittleEndian);
  }

  /** One text, four encodings, one answer. */
  lemma EncodingIndependence(vs: seq<Rune>)
    requires 0 !in vs && vs != [] && vs[0] != 0xFEFF && vs[0] != 0xFFFE
    requires HasEarlyNul(Serialize(Units(vs), LittleEndian))
    ensures forall i :: 0 <= i < |Text(vs)| ==> Text(vs)[i] as int < 0x100
    ensures Decoded(AsBytes(Text(vs))) == Decoded(Serialize(Units(vs), LittleEndian))
    ensures Decoded(AsBytes(Text(vs))) == Decoded(Mark(LittleEndian) + Serialize(Units(vs), LittleEndian))
    ensures Decoded(AsBytes(Text(vs))) == Decoded(Mark(BigEndian) + Serialize(Units(vs), BigEndian))
  {
    Utf8RoundTrip(vs);
    UnmarkedRoundTrip(vs);
    MarkedText(vs, LittleEndian);
    MarkedText(vs, BigEndian);
  }
}
