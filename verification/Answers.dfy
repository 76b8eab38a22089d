/** What the wsl package answers depends on the text wsl.exe prints, not on how
    that text is encoded; and printed answers read back. */
module Answers {
  import opened GoStrings
  import opened Unicode
  import opened Trimming
  import opened Lines
  import opened WslOutput
  import opened DistroTable
  import opened DistroRoundTrip
  import opened Wsl

  /** The four ways a Windows build may print a text. */
  function Encode(vs: seq<Rune>, form: Form): seq<Byte> {
    match form
    case MarkedUtf16(order) => Mark(order) + Serialize(Units(vs), order)
    case UnmarkedUtf16 => Serialize(Units(vs), LittleEndian)
    case PlainUtf8 => TextBytes(vs); AsBytes(Text(vs))
  }

  lemma FirstCharIsFirstRune(vs: seq<Rune>)
    requires Text(vs) != "" && Text(vs)[0] as int < 0x80
    ensures vs != [] && vs[0] as char == Text(vs)[0]
  {
    assert Text(vs)[0] == Utf8(vs[0])[0];
  }

  lemma {:induction false} NoNulRune(vs: seq<Rune>)
    requires 0 as char !in Text(vs)
    ensures 0 !in vs
  {
    if vs != [] {
      var first, rest := Utf8(vs[0]), Text(vs[1..]);
      assert Text(vs) == first + rest;
      assert first[0] in first + rest;
      assert forall c :: c in rest ==> c in first + rest;
      NoNulRune(vs[1..]);
      assert vs == [vs[0]] + vs[1..];
    }
  }

  lemma AsciiStartShowsNul(vs: seq<Rune>)
    requires vs != [] && vs[0] < 0x80
    ensures HasEarlyNul(Serialize(Units(vs), LittleEndian))
  {
    var us := Units(vs);
    var b := Serialize(us, LittleEndian);
    assert us[0] == vs[0];
    assert b[..2] == UnitBytes(us[0], LittleEndian);
    assert b[1] == b[..2][1] == 0;
    var early := b[..if |b| > 256 then 256 else |b|];
    assert early[1] == 0;
  }

  /** A text without NUL that starts with an ASCII character decodes to itself,
      trimmed, in every one of the encodings. */
  lemma DecodedAnyway(vs: seq<Rune>, form: Form)
    requires Text(vs) != "" && Text(vs)[0] as int < 0x80 && 0 as char !in Text(vs)
    ensures Decoded(Encode(vs, form)) == TrimSpace(Text(vs))
  {
    FirstCharIsFirstRune(vs);
    NoNulRune(vs);
    match form
    case MarkedUtf16(order) => MarkedText(vs, order);
    case UnmarkedUtf16 => AsciiStartShowsNul(vs); UnmarkedRoundTrip(vs);
    case PlainUtf8 => Utf8RoundTrip(vs);
  }

  lemma TableStart(indent: nat, titles: string, lines: seq<TableLine>)
    requires GoodLines(lines)
    ensures
      var text := Table(indent, titles, lines);
      text != "" && text[0] in {' ', 'N'}
  {
    var header := Header(indent, titles);
    var all := [header] + PrintAll(lines);
    assert header[0] in {' ', 'N'};
    assert header <= Join(all, '\n');
  }

  /** List returns exactly the printed distros, and DefaultDistro the first one
      marked as default, whichever way the table is encoded. */
  lemma ListReadsBack(vs: seq<Rune>, form: Form, indent: nat, titles: string, lines: seq<TableLine>)
    requires '\n' !in titles && GoodLines(lines)
    requires Text(vs) == Table(indent, titles, lines) && 0 as char !in Text(vs)
    ensures ListAnswer(Output(Encode(vs, form))) == Ok(Listed(lines))
    ensures DefaultAnswer(Output(Encode(vs, form))) == Ok(FirstDefault(Listed(lines)))
  {
    TableStart(indent, titles, lines);
    DecodedAnyway(vs, form);
    TableReadsBack(indent, titles, lines);
  }

  /** Nor does the mark of UTF-8 (section 6 of RFC 3629) in front of a row or of
      the version's line. */
  lemma MarkedLine(mark: Rune, raw: string)
    requires mark == 0xFEFF && !HasPrefix(raw, Utf8(mark))
    ensures ParseLine(Utf8(mark) + raw) == ParseLine(raw)
    ensures KernelFrom(Utf8(mark) + raw) == KernelFrom(raw)
  {
    assert Utf8(mark) == BOM;
    MarkIgnored(raw);
    SameKernel(Utf8(mark) + raw, raw);
  }

  // ------------------------------------------------------------------
  // wsl --version

  function KernelFrom(raw: string): seq<string> {
    var line := Cleaned(raw);
    if HasPrefix(line, KERNEL) then [TrimSpace(line[|KERNEL|..])] else []
  }

  lemma {:induction false} KernelIsFirst(lines: seq<string>)
    ensures
      var found := Collect(KernelFrom, lines);
      KernelLine(lines) == if found == [] then "" else found[0]
  {
    if lines != [] {
      KernelIsFirst(lines[1..]);
    }
  }

  lemma KernelIgnoresTrailingSpace()
    ensures IgnoresTrailingSpace(KernelFrom)
  {
    assert Cleaned("") == "";
    forall raw: string, w: string | IsSpaceRune(w) ensures KernelFrom(raw + w) == KernelFrom(raw) {
      CleanedAppend(raw, w);
      SameKernel(raw + w, raw);
    }
  }

  lemma SameKernel(a: string, b: string)
    requires Cleaned(a) == Cleaned(b)
    ensures KernelFrom(a) == KernelFrom(b)
  {
  }

  /** White space in front of a line does not matter to it, unless what follows
      is a byte-order mark. */
  lemma KernelIgnoresLeadingSpace(w: string, raw: string)
    requires IsSpaceRune(w) && !HasPrefix(raw, BOM)
    ensures KernelFrom(w + raw) == KernelFrom(raw)
  {
    SpaceRuneShape(w);
    assert (w + raw)[0] == w[0] && w[0] != BOM[0];
    TrimFrontOnce(w, raw);
    SameKernel(w + raw, raw);
  }

  lemma TrimFrontOnce(w: string, rest: string)
    requires IsSpaceRune(w)
    ensures FrontSpace(w + rest) == |w| && TrimFront(w + rest) == TrimFront(rest)
  {
    FrontSpaceOf(w);
    assert forall i :: 0 <= i < |w| ==> (w + rest)[i] == w[i];
    assert (w + rest)[|w|..] == rest;
  }

  lemma OneLeadingSpace(w: string, rest: string)
    requires IsSpaceRune(w) && !HasPrefix(rest, BOM)
    ensures FromLines(KernelFrom, w + rest) == FromLines(KernelFrom, rest)
  {
    if w == "\n" {
      SplitFirst("", rest, '\n');
      assert "" + ['\n'] + rest == w + rest;
      assert Cleaned("") == "";
    } else {
      NoNewlineInside(w);
      SplitPrepend(w, rest, '\n');
      FirstLineStarts(rest);
      KernelIgnoresLeadingSpace(w, Split(rest, '\n')[0]);
    }
  }

  lemma FirstLineStarts(text: string)
    ensures Split(text, '\n')[0] <= text
  {
  }

  /** Nor does trimming the front of the whole output, by the same exception. */
  lemma {:induction false} KernelOfFrontTrimmed(text: string)
    requires !HasPrefix(TrimFront(text), BOM)
    ensures FromLines(KernelFrom, TrimFront(text)) == FromLines(KernelFrom, text)
    decreases |text|
  {
    var n := FrontSpace(text);
    if n > 0 {
      var w, rest := text[..n], text[n..];
      assert text == w + rest;
      KernelOfFrontTrimmed(rest);
      if HasPrefix(rest, BOM) {
        MarkIsVisible(rest);
      }
      OneLeadingSpace(w, rest);
    }
  }

  lemma MarkIsVisible(rest: string)
    requires HasPrefix(rest, BOM)
    ensures TrimFront(rest) == rest
  {
    assert rest[0] == BOM[0];
  }

  /** Trimming the whole output does not hide the version. */
  lemma KernelOfTrimmed(text: string)
    requires !HasPrefix(TrimFront(text), BOM)
    ensures KernelLine(Split(TrimSpace(text), '\n')) == KernelLine(Split(text, '\n'))
  {
    KernelIsFirst(Split(TrimSpace(text), '\n'));
    KernelIsFirst(Split(text, '\n'));
    KernelOfFrontTrimmed(text);
    KernelIgnoresTrailingSpace();
    TrimBackInvisible(KernelFrom, TrimFront(text));
  }

  function VersionLine(pad: nat, version: string, cr: bool): string {
    var s := KERNEL + Spaces(pad) + version;
    if cr then s + "\r" else s
  }

  lemma CleanedVersion(pad: nat, version: string)
    requires version != "" && FrontSpace(version) == 0 && BackSpace(version) == 0
    ensures KernelFrom(KERNEL + Spaces(pad) + version) == [version]
  {
    var front := KERNEL + Spaces(pad);
    StartsWithK(front + version);
    BackSpaceBehind(front, version);
    assert (front + version)[|KERNEL|..] == Spaces(pad) + version;
    TrimFrontSpaces(pad, version);
    KernelOfVisible(front + version);
  }

  lemma KernelOfVisible(s: string)
    requires HasPrefix(s, KERNEL) && FrontSpace(s) == 0 && BackSpace(s) == 0
    ensures KernelFrom(s) == [TrimSpace(s[|KERNEL|..])]
  {
    assert s[0] == 'K';
    assert Cleaned(s) == s;
  }

  lemma StartsWithK(s: string)
    requires s != "" && s[0] == 'K'
    ensures FrontSpace(s) == 0
  {
  }

  /** A text in lines, one of which shows the version. It starts with an ASCII
      character, and its first visible character is no byte-order mark. */
  ghost predicate PrintsVersion(vs: seq<Rune>, before: seq<string>, pad: nat, version: string, cr: bool, after: seq<string>) {
    && (forall i :: 0 <= i < |before| ==> '\n' !in before[i] && KernelFrom(before[i]) == [])
    && (forall i :: 0 <= i < |after| ==> '\n' !in after[i])
    && version != "" && FrontSpace(version) == 0 && BackSpace(version) == 0 && '\n' !in version
    && Text(vs) == Join(before + [VersionLine(pad, version, cr)] + after, '\n')
    && Text(vs) != "" && Text(vs)[0] as int < 0x80 && !HasPrefix(TrimFront(Text(vs)), BOM)
    && 0 as char !in Text(vs)
  }

  /** The version is found among any other lines, trimmed, in every encoding. */
  lemma KernelReadsBack(vs: seq<Rune>, form: Form, before: seq<string>, pad: nat, version: string, cr: bool,
                        after: seq<string>)
    requires PrintsVersion(vs, before, pad, version, cr, after)
    ensures KernelAnswer(Output(Encode(vs, form))) == Ok(version)
  {
    KernelOfText(before, pad, version, cr, after);
    KernelOfAnswer(vs, form);
  }

  lemma KernelOfAnswer(vs: seq<Rune>, form: Form)
    requires Text(vs) != "" && Text(vs)[0] as int < 0x80 && !HasPrefix(TrimFront(Text(vs)), BOM)
    requires 0 as char !in Text(vs)
    ensures KernelAnswer(Output(Encode(vs, form))) == Ok(KernelLine(Split(Text(vs), '\n')))
  {
    DecodedAnyway(vs, form);
    KernelOfTrimmed(Text(vs));
  }

  lemma KernelOfText(before: seq<string>, pad: nat, version: string, cr: bool, after: seq<string>)
    requires forall i :: 0 <= i < |before| ==> '\n' !in before[i] && KernelFrom(before[i]) == []
    requires forall i :: 0 <= i < |after| ==> '\n' !in after[i]
    requires version != "" && FrontSpace(version) == 0 && BackSpace(version) == 0 && '\n' !in version
    ensures KernelLine(Split(Join(before + [VersionLine(pad, version, cr)] + after, '\n'), '\n')) == version
  {
    var line := VersionLine(pad, version, cr);
    SplitLines(before, line, after);
    ParseVersion(pad, version, cr);
    KernelAmong(before, line, after);
  }

  lemma NoneInside(before: seq<string>, line: string, after: seq<string>)
    requires forall i :: 0 <= i < |before| ==> '\n' !in before[i]
    requires forall i :: 0 <= i < |after| ==> '\n' !in after[i]
    requires '\n' !in line
    ensures forall l :: l in before + [line] + after ==> '\n' !in l
  {
  }

  lemma SplitLines(before: seq<string>, line: string, after: seq<string>)
    requires forall i :: 0 <= i < |before| ==> '\n' !in before[i]
    requires forall i :: 0 <= i < |after| ==> '\n' !in after[i]
    requires '\n' !in line
    ensures Split(Join(before + [line] + after, '\n'), '\n') == before + [line] + after
  {
    NoneInside(before, line, after);
    SplitAll(before + [line] + after);
  }

  lemma SplitAll(lines: seq<string>)
    requires lines != [] && forall l :: l in lines ==> '\n' !in l
    ensures Split(Join(lines, '\n'), '\n') == lines
  {
    SplitJoin(lines, '\n');
  }

  lemma SameWithReturn(s: string)
    ensures KernelFrom(s + "\r") == KernelFrom(s)
  {
    CleanedAppend(s, "\r");
    SameKernel(s + "\r", s);
  }

  lemma ParseVersion(pad: nat, version: string, cr: bool)
    requires version != "" && FrontSpace(version) == 0 && BackSpace(version) == 0
    ensures KernelFrom(VersionLine(pad, version, cr)) == [version]
  {
    CleanedVersion(pad, version);
    if cr {
      SameWithReturn(KERNEL + Spaces(pad) + version);
    }
  }

  lemma {:induction false} KernelAmong(before: seq<string>, line: string, after: seq<string>)
    requires forall i :: 0 <= i < |before| ==> KernelFrom(before[i]) == []
    ensures KernelFrom(line) != [] ==> KernelLine(before + [line] + after) == KernelFrom(line)[0]
  {
    var all := before + [line] + after;
    if before != [] {
      assert all[1..] == before[1..] + [line] + after;
      KernelAmong(before[1..], line, after);
    }
  }
}
