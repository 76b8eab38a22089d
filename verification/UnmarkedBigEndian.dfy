/** Big-endian UTF-16 without a byte-order mark is read as little-endian, so it
    comes out byte-swapped. */
module UnmarkedBigEndian {
  import opened GoStrings
  import opened Trimming
  import opened Unicode
  import opened WslOutput

  /** The runes with the White_Space property. */
  predicate IsSpace(v: Rune) {
    || 9 <= v <= 13 || v == 0x20 || v == 0x85 || v == 0xA0 || v == 0x1680
    || 0x2000 <= v <= 0x200A || v == 0x2028 || v == 0x2029 || v == 0x202F || v == 0x205F || v == 0x3000
  }

  /** On UTF-8 text TrimSpace works rune by rune, whatever follows. */
  lemma FrontSpaceOfRune(v: Rune, rest: string)
    ensures FrontSpace(Utf8(v) + rest) == if IsSpace(v) then |Utf8(v)| else 0
  {
    var w, s := Utf8(v), Utf8(v) + rest;
    assert forall i :: 0 <= i < |w| ==> s[i] == w[i];
  }

  lemma FrontSpaceOfPrefix(t: string, k: nat)
    requires k <= |t| && FrontSpace(t[..k]) > 0
    ensures FrontSpace(t) > 0
  {
    assert forall i :: 0 <= i < k ==> t[..k][i] == t[i];
  }

  lemma {:induction false} TrimBackEmpty(t: string)
    requires t != [] && TrimBack(t) == []
    ensures FrontSpace(t) > 0
    decreases |t|
  {
    var n := BackSpace(t);
    var front := t[..|t| - n];
    if front != [] {
      TrimBackEmpty(front);
      FrontSpaceOfPrefix(t, |front|);
    }
  }

  lemma {:induction false} TrimFrontEmpty(vs: seq<Rune>)
    ensures TrimFront(Text(vs)) == [] <==> forall i :: 0 <= i < |vs| ==> IsSpace(vs[i])
  {
    if vs != [] {
      var s, n := Text(vs), |Utf8(vs[0])|;
      FrontSpaceOfRune(vs[0], Text(vs[1..]));
      TrimFrontEmpty(vs[1..]);
      assert s[n..] == Text(vs[1..]);
      assert vs == [vs[0]] + vs[1..];
    }
  }

  /** A text trims to nothing exactly when it is white space throughout. */
  lemma TrimsToNothing(vs: seq<Rune>)
    ensures TrimSpace(Text(vs)) == [] <==> forall i :: 0 <= i < |vs| ==> IsSpace(vs[i])
  {
    TrimFrontEmpty(vs);
    if TrimFront(Text(vs)) != [] && TrimBack(TrimFront(Text(vs))) == [] {
      TrimBackEmpty(TrimFront(Text(vs)));
    }
  }

  function Swap(u: Unit): Unit {
    u % 0x100 * 0x100 + u / 0x100
  }

  function SwapAll(us: seq<Unit>): (r: seq<Unit>)
    ensures |r| == |us|
  {
    seq(|us|, i requires 0 <= i < |us| => Swap(us[i]))
  }

  lemma {:induction false} ReadSwapped(us: seq<Unit>)
    ensures ReadUnits(Serialize(us, BigEndian), LittleEndian) == SwapAll(us)
  {
    if us != [] {
      var b := Serialize(us, BigEndian);
      ReadSwapped(us[1..]);
      assert b[2..] == Serialize(us[1..], BigEndian);
      assert b[0] == UnitBytes(us[0], BigEndian)[0] && b[1] == UnitBytes(us[0], BigEndian)[1];
      assert SwapAll(us) == [Swap(us[0])] + SwapAll(us[1..]);
    }
  }

  predicate Ascii(vs: seq<Rune>) {
    forall i :: 0 <= i < |vs| ==> 0 < vs[i] < 0x80
  }

  function Raised(vs: seq<Rune>): (r: seq<Rune>)
    requires Ascii(vs)
    ensures |r| == |vs| && forall i :: 0 <= i < |vs| ==> r[i] == vs[i] * 0x100
  {
    seq(|vs|, i requires 0 <= i < |vs| => vs[i] * 0x100)
  }

  lemma {:induction false} AsciiUnits(vs: seq<Rune>)
    requires Ascii(vs)
    ensures |Units(vs)| == |vs| && forall i :: 0 <= i < |vs| ==> Units(vs)[i] == vs[i]
  {
    if vs != [] {
      AsciiUnits(vs[1..]);
    }
  }

  lemma {:induction false} DecodePlain(us: seq<Unit>, vs: seq<Rune>)
    requires |us| == |vs| && forall i :: 0 <= i < |us| ==> us[i] < 0xD800 && vs[i] == us[i]
    ensures DecodeUnits(us) == vs
  {
    if us != [] {
      DecodePlain(us[1..], vs[1..]);
      assert vs == [vs[0]] + vs[1..];
    }
  }

  lemma SwapAscii(vs: seq<Rune>)
    requires Ascii(vs)
    ensures |SwapAll(Units(vs))| == |vs|
    ensures forall i :: 0 <= i < |vs| ==> SwapAll(Units(vs))[i] == Raised(vs)[i] < 0xD800
  {
    AsciiUnits(vs);
  }

  lemma ReadAscii(vs: seq<Rune>)
    requires Ascii(vs)
    ensures DecodeUnits(ReadUnits(Serialize(Units(vs), BigEndian), LittleEndian)) == Raised(vs)
  {
    SwapAscii(vs);
    ReadSwapped(Units(vs));
    DecodePlain(SwapAll(Units(vs)), Raised(vs));
  }

  lemma DetectAscii(vs: seq<Rune>)
    requires Ascii(vs) && vs != []
    ensures Detect(Serialize(Units(vs), BigEndian)) == UnmarkedUtf16
  {
    AsciiUnits(vs);
    var b := Serialize(Units(vs), BigEndian);
    assert b[0] == UnitBytes(Units(vs)[0], BigEndian)[0] == 0;
    assert |b| >= 2;
  }

  lemma {:induction false} TextRange(vs: seq<Rune>)
    ensures (forall i :: 0 <= i < |vs| ==> vs[i] >= 0x80) ==> forall i :: 0 <= i < |Text(vs)| ==> Text(vs)[i] as int >= 0x80
    ensures (forall i :: 0 <= i < |vs| ==> vs[i] < 0x80) ==> forall i :: 0 <= i < |Text(vs)| ==> Text(vs)[i] as int < 0x80
  {
    if vs != [] {
      TextRange(vs[1..]);
    }
  }

  lemma TrimsLow(s: string)
    requires forall i :: 0 <= i < |s| ==> s[i] as int < 0x80
    ensures forall i :: 0 <= i < |TrimSpace(s)| ==> TrimSpace(s)[i] as int < 0x80
  {
    TrimFrontIsSuffix(s);
  }

  lemma TrimsHigh(s: string)
    requires forall i :: 0 <= i < |s| ==> s[i] as int >= 0x80
    ensures forall i :: 0 <= i < |TrimSpace(s)| ==> TrimSpace(s)[i] as int >= 0x80
  {
    TrimFrontIsSuffix(s);
  }

  lemma AsciiTrims(vs: seq<Rune>)
    requires Ascii(vs)
    ensures forall i :: 0 <= i < |TrimSpace(Text(vs))| ==> TrimSpace(Text(vs))[i] as int < 0x80
  {
    TextRange(vs);
    TrimsLow(Text(vs));
  }

  lemma RaisedTrims(vs: seq<Rune>)
    requires Ascii(vs)
    ensures forall i :: 0 <= i < |TrimSpace(Text(Raised(vs)))| ==> TrimSpace(Text(Raised(vs)))[i] as int >= 0x80
  {
    TextRange(Raised(vs));
    TrimsHigh(Text(Raised(vs)));
  }

  /** ASCII text and its byte-swapped form have only the empty string in common. */
  lemma OnlyEmptyInCommon(low: string, high: string)
    requires forall i :: 0 <= i < |low| ==> low[i] as int < 0x80
    requires forall i :: 0 <= i < |high| ==> high[i] as int >= 0x80
    ensures low == high ==> low == []
  {
    assert low != [] && high != [] ==> low[0] != high[0];
  }

  lemma BothBlankIff(vs: seq<Rune>)
    requires Ascii(vs)
    ensures (forall i :: 0 <= i < |vs| ==> IsSpace(vs[i])) && (forall i :: 0 <= i < |vs| ==> IsSpace(Raised(vs)[i]))
            <==> forall i :: 0 <= i < |vs| ==> vs[i] == 0x20
  {
    assert forall i :: 0 <= i < |vs| ==> Raised(vs)[i] == vs[i] * 0x100;
  }

  /** ASCII text in big-endian UTF-16 without a mark decodes correctly exactly
      when it consists of spaces only: each character c comes out as the rune
      c * 256, and of those only U+2000 and its source U+0020 are both white space. */
  lemma AsciiReadsBackIffBlank(vs: seq<Rune>)
    requires Ascii(vs)
    ensures Decoded(Serialize(Units(vs), BigEndian)) == TrimSpace(Text(vs)) <==>
              forall i :: 0 <= i < |vs| ==> vs[i] == 0x20
  {
    if vs != [] {
      assert Decoded(Serialize(Units(vs), BigEndian)) == TrimSpace(Text(Raised(vs))) by {
        DetectAscii(vs);
        ReadAscii(vs);
      }
      TrimsToNothing(vs);
      TrimsToNothing(Raised(vs));
      BothBlankIff(vs);
      AsciiTrims(vs);
      RaisedTrims(vs);
      OnlyEmptyInCommon(TrimSpace(Text(vs)), TrimSpace(Text(Raised(vs))));
    }
  }

  /** Outside ASCII there is no such condition on single characters: behind an
      ideographic space a zero comes out right, because the two change places. */
  lemma PlacesChange()
    ensures Decoded(Serialize(Units([0x3000, 0x30]), BigEndian)) == "0" == TrimSpace(Text([0x3000, 0x30]))
  {
    var vs: seq<Rune> := [0x3000, 0x30];
    var b := Serialize(Units(vs), BigEndian);
    BytesOfTwo();
    TextOfTwo(0x30, 0x3000);
    TextOfTwo(0x3000, 0x30);
    assert Text([0x3000, 0x30]) == Utf8(0x3000) + "0";
    assert Text([0x30, 0x3000]) == "0" + Utf8(0x3000);
    TrimmedAround(Utf8(0x3000));
  }

  lemma BytesOfTwo()
    ensures Serialize(Units([0x3000, 0x30]), BigEndian) == [0x30, 0, 0, 0x30]
    ensures DecodeUnits(ReadUnits([0x30, 0, 0, 0x30], LittleEndian)) == [0x30, 0x3000]
  {
    var vs: seq<Rune> := [0x3000, 0x30];
    assert vs[1..] == [0x30] && Units([0x30]) == [0x30] && Units(vs) == [0x3000, 0x30];
    var us: seq<Unit> := [0x3000, 0x30];
    assert us[1..] == [0x30] && Serialize([0x30], BigEndian) == [0, 0x30];
    var b: seq<Byte> := [0x30, 0, 0, 0x30];
    assert b[2..] == [0, 0x30] && ReadUnits([0, 0x30], LittleEndian) == [0x3000];
    var swapped: seq<Unit> := [0x30, 0x3000];
    assert ReadUnits(b, LittleEndian) == swapped;
    assert swapped[1..] == [0x3000] && DecodeUnits([0x3000]) == [0x3000];
  }

  lemma TextOfTwo(a: Rune, b: Rune)
    ensures Text([a, b]) == Utf8(a) + Utf8(b)
  {
    assert [a, b][1..] == [b] && Text([b]) == Utf8(b);
  }

  lemma TrimmedAround(w: string)
    requires IsSpaceRune(w)
    ensures TrimSpace("0" + w) == "0" == TrimSpace(w + "0")
  {
    TrimSpaceAppend("0", w);
    FrontSpaceOf(w);
    var s := w + "0";
    assert forall i :: 0 <= i < |w| ==> s[i] == w[i];
    assert s[|w|..] == "0";
  }
}
