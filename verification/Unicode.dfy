/** UTF-8 (RFC 3629) and UTF-16 (RFC 2781) as the wsl package meets them: raw
    output is a sequence of byte values, a Go string a sequence of bytes
    written as chars. */
module Unicode {
  import opened GoStrings

  type Byte = b: int | 0 <= b < 0x100
  type Unit = u: int | 0 <= u < 0x1_0000
  /** A Unicode scalar value. */
  type Rune = v: int | 0 <= v < 0xD800 || 0xE000 <= v < 0x11_0000

  datatype Order = LittleEndian | BigEndian

  // ------------------------------------------------------------------
  // Encoding

  /** Section 3 of RFC 3629. */
  function Utf8(v: Rune): (s: string)
    ensures 1 <= |s| <= 4
    ensures forall i :: 0 <= i < |s| ==> s[i] as int < 0xF5
    ensures v < 0x80 ==> s == [v as char]
    ensures v >= 0x80 ==> forall i :: 0 <= i < |s| ==> s[i] as int >= 0x80
  {
    if v < 0x80 then [v as char]
    else if v < 0x800 then [(0xC0 + v / 0x40) as char, (0x80 + v % 0x40) as char]
    else if v < 0x1_0000 then
      [(0xE0 + v / 0x1000) as char, (0x80 + v / 0x40 % 0x40) as char, (0x80 + v % 0x40) as char]
    else
      [(0xF0 + v / 0x4_0000) as char, (0x80 + v / 0x1000 % 0x40) as char,
       (0x80 + v / 0x40 % 0x40) as char, (0x80 + v % 0x40) as char]
  }

  /** How many bytes a first byte announces. */
  function Announced(first: int): nat {
    if first < 0x80 then 1 else if first < 0xE0 then 2 else if first < 0xF0 then 3 else 4
  }

  /** The six bits of a byte after the first. */
  function Six(c: char): int {
    c as int - 0x80
  }

  function RuneIn(s: string): int
    requires 1 <= |s| <= 4
  {
    var first := s[0] as int;
    if |s| == 1 then first
    else if |s| == 2 then (first - 0xC0) * 0x40 + Six(s[1])
    else if |s| == 3 then ((first - 0xE0) * 0x40 + Six(s[1])) * 0x40 + Six(s[2])
    else (((first - 0xF0) * 0x40 + Six(s[1])) * 0x40 + Six(s[2])) * 0x40 + Six(s[3])
  }

  lemma Utf8ReadsBack(v: Rune)
    ensures |Utf8(v)| == Announced(Utf8(v)[0] as int) && RuneIn(Utf8(v)) == v
    ensures forall i :: 1 <= i < |Utf8(v)| ==> 0x80 <= Utf8(v)[i] as int < 0xC0
  {
    assert v / 0x1000 == v / 0x40 / 0x40 && v / 0x4_0000 == v / 0x40 / 0x40 / 0x40;
  }

  /** Section 3 of RFC 3629, read from the bytes. */
  function ReadRunes(s: string): seq<int>
    decreases |s|
  {
    if s == "" then [] else
      var n := Announced(s[0] as int);
      if n > |s| then [] else [RuneIn(s[..n])] + ReadRunes(s[n..])
  }

  /** Section 2.1 of RFC 2781. */
  function Utf16(v: Rune): seq<Unit> {
    if v < 0x1_0000 then [v]
    else [0xD800 + (v - 0x1_0000) / 0x400, 0xDC00 + (v - 0x1_0000) % 0x400]
  }

  function Text(vs: seq<Rune>): string {
    if vs == [] then [] else Utf8(vs[0]) + Text(vs[1..])
  }

  function Units(vs: seq<Rune>): seq<Unit> {
    if vs == [] then [] else Utf16(vs[0]) + Units(vs[1..])
  }

  function UnitBytes(u: Unit, order: Order): seq<Byte> {
    match order
    case LittleEndian => [u % 0x100, u / 0x100]
    case BigEndian => [u / 0x100, u % 0x100]
  }

  function Serialize(us: seq<Unit>, order: Order): seq<Byte> {
    if us == [] then [] else UnitBytes(us[0], order) + Serialize(us[1..], order)
  }

  /** The byte-order mark of section 3.2 of RFC 2781. */
  function Mark(order: Order): seq<Byte> {
    UnitBytes(0xFEFF, order)
  }

  // ------------------------------------------------------------------
  // Decoding

  function FromPair(low: int, high: int): int {
    low + 0x100 * high
  }

  /** order.Uint16 on each pair; an odd last byte is ignored. */
  function ReadUnits(b: seq<Byte>, order: Order): seq<Unit> {
    if |b| < 2 then [] else
      [if order.LittleEndian? then FromPair(b[0], b[1]) else FromPair(b[1], b[0])] + ReadUnits(b[2..], order)
  }

  /** utf16.Decode: a surrogate without its partner becomes U+FFFD. */
  function DecodeUnits(us: seq<Unit>): seq<Rune> {
    if us == [] then []
    else if us[0] < 0xD800 || us[0] >= 0xE000 then [us[0]] + DecodeUnits(us[1..])
    else if us[0] < 0xDC00 && |us| > 1 && 0xDC00 <= us[1] < 0xE000 then
      [0x1_0000 + (us[0] - 0xD800) * 0x400 + (us[1] - 0xDC00)] + DecodeUnits(us[2..])
    else [0xFFFD] + DecodeUnits(us[1..])
  }

  lemma {:induction false} UnitsRoundTrip(vs: seq<Rune>)
    ensures DecodeUnits(Units(vs)) == vs
  {
    if vs != [] {
      var us, rest := Units(vs), Units(vs[1..]);
      UnitsRoundTrip(vs[1..]);
      if vs[0] < 0x1_0000 {
        assert us[1..] == rest;
      } else {
        assert us[2..] == rest;
        assert us[0] == Utf16(vs[0])[0] && us[1] == Utf16(vs[0])[1];
      }
      assert vs == [vs[0]] + vs[1..];
    }
  }

  lemma {:induction false} BytesRoundTrip(us: seq<Unit>, order: Order, stray: seq<Byte>)
    requires |stray| <= 1
    ensures ReadUnits(Serialize(us, order) + stray, order) == us
  {
    var b := Serialize(us, order) + stray;
    if us != [] {
      BytesRoundTrip(us[1..], order, stray);
      assert b[2..] == Serialize(us[1..], order) + stray;
      assert b[0] == UnitBytes(us[0], order)[0] && b[1] == UnitBytes(us[0], order)[1];
      assert us == [us[0]] + us[1..];
    }
  }

  lemma {:induction false} TextReadsBack(vs: seq<Rune>)
    ensures ReadRunes(Text(vs)) == vs
  {
    if vs != [] {
      var first, rest := Utf8(vs[0]), Text(vs[1..]);
      TextReadsBack(vs[1..]);
      Utf8ReadsBack(vs[0]);
      var s := first + rest;
      assert s[0] == first[0] && s[..|first|] == first && s[|first|..] == rest;
      assert vs == [vs[0]] + vs[1..];
    }
  }

  lemma {:induction false} TextBytes(vs: seq<Rune>)
    ensures forall i :: 0 <= i < |Text(vs)| ==> Text(vs)[i] as int < 0xF5
    ensures 0 !in vs ==> forall i :: 0 <= i < |Text(vs)| ==> Text(vs)[i] as int != 0
  {
    if vs != [] {
      TextBytes(vs[1..]);
    }
  }
}
