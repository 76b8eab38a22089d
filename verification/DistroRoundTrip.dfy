/** A printed distro table reads back exactly, whatever its padding and line
    ends, and even when a name itself looks like a row. */
module DistroRoundTrip {
  import opened GoStrings
  import opened Trimming
  import opened Lines
  import opened RowPattern
  import opened DistroTable

  datatype TableLine =
    | Row(distro: Distro, state: string, lead: nat, pad: nat, sep: nat, cr: bool)
    | Blank(cr: bool)

  function CarriageReturn(cr: bool): string {
    if cr then "\r" else ""
  }

  function NamePart(l: TableLine): string
    requires l.Row?
  {
    (if l.distro.isDefault then "*" + Spaces(l.lead) else "") + l.distro.name + Spaces(l.pad)
  }

  function VersionDigit(version: int): (s: string)
    ensures |s| == 1 && s[0] == if version == 2 then '2' else '1'
  {
    if version == 2 then "2" else "1"
  }

  /** The visible part of a row. */
  function Core(l: TableLine): string
    requires l.Row?
  {
    NamePart(l) + l.state + Spaces(l.sep) + VersionDigit(l.distro.version)
  }

  function Print(l: TableLine): string {
    match l
    case Blank(cr) => CarriageReturn(cr)
    case Row(d, _, lead, _, _, cr) =>
      (if d.isDefault then Core(l) else Spaces(lead) + Core(l)) + CarriageReturn(cr)
  }

  /** Trimmed, non-empty, on one line; a name that is not marked as default must
      not pass for a mark or a header. */
  predicate GoodName(d: Distro) {
    && d.name != "" && '\n' !in d.name
    && FrontSpace(d.name) == 0 && BackSpace(d.name) == 0
    && (!d.isDefault ==> d.name[0] != '*' && !HasPrefix(d.name, "NAME"))
  }

  /** What the STATE column may say. */
  predicate StateText(s: string) {
    s in {"Stopped", "Running", "Installing", "Uninstalling", "Converting"}
  }

  predicate GoodLine(l: TableLine) {
    l.Row? ==>
      && GoodName(l.distro)
      && StateText(l.state) && (l.distro.running <==> l.state == "Running")
      && l.distro.version in {1, 2}
      && l.pad >= 2 && l.sep >= 1
      && (!l.distro.isDefault && l.lead == 0 ==> !HasPrefix(l.distro.name, BOM))
  }

  predicate GoodLines(lines: seq<TableLine>) {
    forall i :: 0 <= i < |lines| ==> GoodLine(lines[i])
  }

  function Listed(lines: seq<TableLine>): seq<Distro> {
    if lines == [] then []
    else (if lines[0].Row? then [lines[0].distro] else []) + Listed(lines[1..])
  }

  // ------------------------------------------------------------------
  // One row

  lemma VisibleEnds(name: string)
    requires name != "" && FrontSpace(name) == 0 && BackSpace(name) == 0
    ensures !Ws(name[0]) && !Ws(name[|name| - 1])
  {
  }

  lemma WsStartUnique(s: string, k: nat)
    requires k < |s| && !Ws(s[k]) && AllWs(s[..k])
    ensures WsStart(s) == k
  {
    WsStartMost(s, k);
    assert forall i :: 0 <= i < WsStart(s) ==> s[i] == s[..WsStart(s)][i];
  }

  /** The parser's answer when the name runs from `start` to `end`. */
  lemma FindNameAt(p: string, from: nat, start: nat, end: nat)
    requires p != [] && from == if p[0] == '*' then 1 else 0
    requires from <= start < end && end + 2 <= |p|
    requires AllWs(p[from..start]) && AllWs(p[end..]) && !Ws(p[start]) && !Ws(p[end - 1])
    ensures FindName(p) == Some((from == 1, start - from, end))
  {
    WsEndUnique(p, end);
    assert p[from..][..start - from] == p[from..start];
    WsStartUnique(p[from..], start - from);
  }

  lemma FindNameIn(p: string, from: nat, start: nat, name: string, pad: nat)
    requires p != [] && from == if p[0] == '*' then 1 else 0
    requires name != "" && FrontSpace(name) == 0 && BackSpace(name) == 0
    requires from <= start && |p| == start + |name| + pad && pad >= 2
    requires p[from..start] == Spaces(start - from)
    requires p[start..start + |name|] == name && p[start + |name|..] == Spaces(pad)
    ensures FindName(p) == Some((from == 1, start - from, start + |name|))
  {
    VisibleEnds(name);
    var end := start + |name|;
    assert p[start] == p[start..end][0] && p[end - 1] == p[start..end][|name| - 1];
    FindNameAt(p, from, start, end);
  }

  lemma Middle(a: string, b: string, c: string)
    ensures (a + b + c)[|a|..|a| + |b|] == b && (a + b + c)[|a| + |b|..] == c
  {
  }

  lemma FindDefaultName(lead: nat, name: string, pad: nat)
    requires name != "" && FrontSpace(name) == 0 && BackSpace(name) == 0 && pad >= 2
    ensures FindName("*" + Spaces(lead) + name + Spaces(pad)) == Some((true, lead, 1 + lead + |name|))
  {
    var mark := "*" + Spaces(lead);
    var p := mark + name + Spaces(pad);
    assert p[0] == mark[0];
    assert p[1..1 + lead] == mark[1..] == Spaces(lead);
    Middle(mark, name, Spaces(pad));
    FindNameIn(p, 1, 1 + lead, name, pad);
  }

  lemma FindOtherName(name: string, pad: nat)
    requires name != "" && FrontSpace(name) == 0 && BackSpace(name) == 0 && pad >= 2 && name[0] != '*'
    ensures FindName(name + Spaces(pad)) == Some((false, 0, |name|))
  {
    var p := name + Spaces(pad);
    assert p[0] == name[0] && p[0..0] == Spaces(0);
    assert p[0..|name|] == name && p[|name|..] == Spaces(pad);
    FindNameIn(p, 0, 0, name, pad);
  }

  /** Where the name starts in a row. */
  function NameAt(l: TableLine): nat
    requires l.Row?
  {
    if l.distro.isDefault then 1 + l.lead else 0
  }

  /** Which alternative of the pattern takes a state. */
  function WordOf(state: string): (word: nat)
    requires StateText(state)
    ensures word < |WORDS| && WORDS[word] == state
  {
    if state == "Stopped" then 0
    else if state == "Running" then 1
    else if state == "Installing" then 2
    else if state == "Uninstalling" then 3
    else 4
  }

  /** The match in a printed row. */
  function Expected(l: TableLine): Match
    requires l.Row? && StateText(l.state)
  {
    Match(l.distro.isDefault, if l.distro.isDefault then l.lead else 0, NameAt(l) + |l.distro.name|,
          |NamePart(l)|, WordOf(l.state), |Core(l)| - 1)
  }

  predicate NameIs(name: string, m: Match) {
    FindName(name) == Some((m.star, m.gap, m.nameEnd))
  }

  predicate StateIs(line: string, m: Match) {
    FindState(line) == Some((m.stateStart, m.word, m.digit))
  }

  lemma FindPrintedName(l: TableLine)
    requires l.Row? && GoodLine(l)
    ensures NameIs(NamePart(l), Expected(l))
  {
    var d := l.distro;
    if d.isDefault {
      assert NamePart(l) == "*" + Spaces(l.lead) + d.name + Spaces(l.pad);
      FindDefaultName(l.lead, d.name, l.pad);
    } else {
      assert NamePart(l) == d.name + Spaces(l.pad);
      FindOtherName(d.name, l.pad);
    }
  }

  lemma StateAfter(name: string, state: string, gap: string, digit: string)
    requires StateText(state) && gap != "" && AllWs(gap) && |digit| == 1 && digit[0] in {'2', '1'}
    ensures
      var line := name + state + gap + digit;
      FindState(line) == Some((|name|, WordOf(state), |line| - 1))
  {
    var line, q, n := name + state + gap + digit, |name|, |state|;
    assert line[q..q + n] == state;
    assert line[q + n..|line| - 1] == gap;
    StateIsUnique(line, q, WordOf(state), |line| - 1);
  }

  lemma FindPrintedState(l: TableLine)
    requires l.Row? && StateText(l.state) && l.sep >= 1
    ensures StateIs(Core(l), Expected(l))
  {
    SpacesAreWs(l.sep);
    StateAfter(NamePart(l), l.state, Spaces(l.sep), VersionDigit(l.distro.version));
  }

  lemma SpacesAreWs(n: nat)
    ensures AllWs(Spaces(n))
  {
  }

  lemma NotAHeader(name: string, rest: string)
    requires rest != "" && rest[0] == ' ' && !HasPrefix(name, "NAME")
    ensures !HasPrefix(name + rest, "NAME")
  {
    assert (name + rest)[|name|] == ' ';
    assert |name| >= 4 ==> (name + rest)[..4] == name[..4];
  }

  lemma CoreSplits(l: TableLine) returns (rest: string)
    requires l.Row? && GoodLine(l) && !l.distro.isDefault
    ensures Core(l) == l.distro.name + rest && rest != "" && rest[0] == ' '
  {
    var pad, sep := Spaces(l.pad), Spaces(l.sep);
    var digit := VersionDigit(l.distro.version);
    rest := pad + l.state + sep + digit;
    assert NamePart(l) == l.distro.name + pad;
    Reassociate(l.distro.name, pad, l.state, sep, digit);
    assert rest[0] == pad[0];
  }

  lemma Reassociate(a: string, b: string, c: string, d: string, e: string)
    ensures a + b + c + d + e == a + (b + c + d + e)
  {
  }

  lemma CoreIsNoHeader(l: TableLine)
    requires l.Row? && GoodLine(l)
    ensures Core(l) != "" && !HasPrefix(Core(l), "NAME")
  {
    var line, name := Core(l), l.distro.name;
    if l.distro.isDefault {
      assert line[0] == '*';
    } else {
      var rest := CoreSplits(l);
      NotAHeader(name, rest);
    }
  }

  lemma FindRowOf(line: string, name: string, m: Match)
    requires StateIs(line, m) && m.stateStart == |name|
    requires name <= line && NameIs(name, m)
    ensures FindRow(line) == Some(m)
  {
    assert line[..|name|] == name;
  }

  lemma NamePartFirst(l: TableLine)
    requires l.Row?
    ensures NamePart(l) <= Core(l)
  {
  }

  lemma FindPrintedRow(l: TableLine)
    requires l.Row? && GoodLine(l)
    ensures FindRow(Core(l)) == Some(Expected(l))
  {
    var m := Expected(l);
    FindPrintedState(l);
    FindPrintedName(l);
    NamePartFirst(l);
    FindRowOf(Core(l), NamePart(l), m);
  }

  lemma NameInCore(l: TableLine)
    requires l.Row?
    ensures NameAt(l) + |l.distro.name| <= |Core(l)|
    ensures Core(l)[NameAt(l)..NameAt(l) + |l.distro.name|] == l.distro.name
  {
    var from, to := NameAt(l), NameAt(l) + |l.distro.name|;
    assert NamePart(l)[from..to] == l.distro.name;
    assert Core(l)[from..to] == NamePart(l)[from..to];
  }

  lemma ParseFound(line: string, m: Match, d: Distro)
    requires line != "" && !HasPrefix(line, "NAME") && FindRow(line) == Some(m)
    requires m.NameStart() <= m.nameEnd <= |line| && line[m.NameStart()..m.nameEnd] == d.name
    requires TrimSpace(d.name) == d.name && d.isDefault == m.star && m.word < |WORDS| && d.running == (WORDS[m.word] == "Running")
    requires m.digit < |line| && d.version == if line[m.digit] == '2' then 2 else 1
    ensures ParseCleaned(line) == [d]
  {
  }

  /** What the match yields is the printed distro. */
  lemma ExpectedReads(l: TableLine)
    requires l.Row? && GoodLine(l)
    ensures
      var line, m, d := Core(l), Expected(l), l.distro;
      && m.NameStart() <= m.nameEnd <= |line| && line[m.NameStart()..m.nameEnd] == d.name
      && TrimSpace(d.name) == d.name && d.isDefault == m.star && m.word < |WORDS| && d.running == (WORDS[m.word] == "Running")
      && m.digit < |line| && d.version == if line[m.digit] == '2' then 2 else 1
  {
    NameInCore(l);
  }

  lemma ParsePrintedCore(l: TableLine)
    requires l.Row? && GoodLine(l)
    ensures ParseCleaned(Core(l)) == [l.distro]
  {
    CoreIsNoHeader(l);
    FindPrintedRow(l);
    ExpectedReads(l);
    ParseFound(Core(l), Expected(l), l.distro);
  }

  lemma CutInFive(s: string, i: nat, j: nat, k: nat)
    requires i <= j <= k < |s|
    ensures s == s[..i] + s[i..j] + s[j..k] + s[k..k + 1] + s[k + 1..]
  {
  }

  lemma WordIsState(word: nat)
    requires word < |WORDS|
    ensures StateText(WORDS[word])
  {
  }

  /** A line whose end shows a state and a version. */
  predicate Shows(line: string, front: string, state: string, gap: string, digit: char, rest: string) {
    && line == front + state + gap + [digit] + rest
    && StateText(state) && gap != "" && AllWs(gap) && digit in {'1', '2'} && AllWs(rest)
  }

  lemma MatchShows(line: string, q: nat, word: nat, digit: nat)
    requires MatchesState(line, q, word, digit)
    ensures Shows(line, line[..q], WORDS[word], line[q + |WORDS[word]|..digit], line[digit], line[digit + 1..])
  {
    CutInFive(line, q, q + |WORDS[word]|, digit);
    WordIsState(word);
  }

  lemma MatchOf(line: string, d: Distro) returns (m: Match)
    requires ParseCleaned(line) == [d]
    ensures MatchesState(line, m.stateStart, m.word, m.digit) && (m.star ==> line[0] == '*')
    ensures d.isDefault == m.star && d.running == (WORDS[m.word] == "Running")
    ensures d.version == if line[m.digit] == '2' then 2 else 1
  {
    FindRowMatches(line);
    m := FindRow(line).value;
  }

  /** Conversely, a line that yields a distro shows a state and a version, in
      this order and behind everything else, and those are the distro's. */
  lemma ParsedShows(line: string, d: Distro) returns (front: string, state: string, gap: string, digit: char, rest: string)
    requires ParseCleaned(line) == [d]
    ensures Shows(line, front, state, gap, digit, rest)
    ensures d.running <==> state == "Running"
    ensures d.version == if digit == '2' then 2 else 1
    ensures d.isDefault ==> line[0] == '*'
  {
    var m := MatchOf(line, d);
    MatchShows(line, m.stateStart, m.word, m.digit);
    front, state, gap := line[..m.stateStart], WORDS[m.word], line[m.stateStart + |WORDS[m.word]|..m.digit];
    digit, rest := line[m.digit], line[m.digit + 1..];
  }

  // ------------------------------------------------------------------
  // A default mark without a name

  lemma FindNoName(pad: nat)
    requires pad >= 2
    ensures FindName("*" + Spaces(pad)) == if pad >= 3 then Some((true, pad - 3, pad - 1)) else Some((false, 0, 1))
  {
    var p := "*" + Spaces(pad);
    assert p[1..] == Spaces(pad);
    WsEndUnique(p, 1);
  }

  lemma ParseAs(line: string, m: Match, name: string)
    requires line != "" && line[0] == '*' && FindRow(line) == Some(m) && m.digit < |line| && m.word < |WORDS|
    requires m.NameStart() <= m.nameEnd <= |line| && TrimSpace(line[m.NameStart()..m.nameEnd]) == name
    ensures ParseCleaned(line) == [Distro(name, m.star, WORDS[m.word] == "Running", if line[m.digit] == '2' then 2 else 1)]
  {
    assert !HasPrefix(line, "NAME");
  }

  /** A row behind a part that starts with a mark. */
  lemma ParseBehind(p: string, state: string, gap: string, digit: string, m: Match, name: string)
    requires p != "" && p[0] == '*' && NameIs(p, m) && m.stateStart == |p|
    requires m.NameStart() <= m.nameEnd <= |p| && TrimSpace(p[m.NameStart()..m.nameEnd]) == name
    requires StateText(state) && gap != "" && AllWs(gap) && |digit| == 1 && digit[0] in {'2', '1'}
    requires m.word == WordOf(state) && m.digit == |p| + |state| + |gap|
    ensures ParseCleaned(p + state + gap + digit) ==
              [Distro(name, m.star, state == "Running", if digit[0] == '2' then 2 else 1)]
  {
    var line := p + state + gap + digit;
    StateAfter(p, state, gap, digit);
    FindRowOf(line, p, m);
    SameSlice(p, line, m.NameStart(), m.nameEnd);
    ParseAs(line, m, name);
  }

  lemma SameSlice(p: string, line: string, i: nat, j: nat)
    requires p <= line && i <= j <= |p|
    ensures line[i..j] == p[i..j]
  {
  }

  /** One space between others trims to nothing. */
  lemma BlankName(p: string, pad: nat)
    requires p == "*" + Spaces(pad) && pad >= 3
    ensures TrimSpace(p[pad - 2..pad - 1]) == ""
  {
    assert p[pad - 2..pad - 1] == " " && " "[1..] == "";
  }

  /** Behind the mark the pattern takes white space for a name when there is
      enough of it, and so yields a default distro with an empty name. */
  lemma MarkWithoutName(pad: nat, state: string, gap: string, digit: string)
    requires pad >= 3 && StateText(state) && gap != "" && AllWs(gap) && |digit| == 1 && digit[0] in {'2', '1'}
    ensures
      ParseCleaned("*" + Spaces(pad) + state + gap + digit) ==
        [Distro("", true, state == "Running", if digit[0] == '2' then 2 else 1)]
  {
    var p := "*" + Spaces(pad);
    FindNoName(pad);
    BlankName(p, pad);
    ParseBehind(p, state, gap, digit, Match(true, pad - 3, pad - 1, |p|, WordOf(state), |p| + |state| + |gap|), "");
  }

  lemma MarkName(p: string)
    requires p == "*" + Spaces(2)
    ensures TrimSpace(p[0..1]) == "*"
  {
    assert p[0..1] == "*";
  }

  /** With two spaces the mark itself is the name of a distro that is no default. */
  lemma MarkAsName(state: string, gap: string, digit: string)
    requires StateText(state) && gap != "" && AllWs(gap) && |digit| == 1 && digit[0] in {'2', '1'}
    ensures
      ParseCleaned("*" + Spaces(2) + state + gap + digit) ==
        [Distro("*", false, state == "Running", if digit[0] == '2' then 2 else 1)]
  {
    var p := "*" + Spaces(2);
    FindNoName(2);
    MarkName(p);
    ParseBehind(p, state, gap, digit, Match(false, 0, 1, |p|, WordOf(state), |p| + |state| + |gap|), "*");
  }

  // ------------------------------------------------------------------
  // One printed line

  lemma CoreEndsVisibly(l: TableLine)
    requires l.Row? && GoodLine(l)
    ensures EndsVisibly(Core(l)) && BackSpace(Core(l)) == 0
  {
    NoBackSpace(Core(l));
  }

  lemma NameThenSpace(name: string, rest: string)
    requires name != "" && FrontSpace(name) == 0 && rest != "" && rest[0] == ' '
    ensures FrontSpace(name + rest) == 0
  {
    FrontSpaceStable(name, rest);
  }

  lemma CoreStartsVisibly(l: TableLine)
    requires l.Row? && GoodLine(l)
    ensures FrontSpace(Core(l)) == 0
  {
    if l.distro.isDefault {
      VisibleStart(Core(l));
    } else {
      var rest := CoreSplits(l);
      NameThenSpace(l.distro.name, rest);
    }
  }

  /** A star is no white space and begins no longer rune. */
  lemma VisibleStart(s: string)
    requires s != "" && s[0] == '*'
    ensures FrontSpace(s) == 0
  {
  }

  lemma CleanedWithReturn(s: string, cr: bool)
    ensures Cleaned(s + CarriageReturn(cr)) == Cleaned(s)
  {
    if cr {
      ReturnIsSpace("\r");
      CleanedAppend(s, "\r");
    } else {
      assert s + CarriageReturn(cr) == s;
    }
  }

  lemma ReturnIsSpace(w: string)
    requires |w| == 1 && w[0] == '\r'
    ensures IsSpaceRune(w)
  {
  }

  /** Visible at both ends, perhaps indented: trimming leaves the visible part. */
  lemma CleanedIndented(lead: nat, core: string)
    requires core != "" && FrontSpace(core) == 0 && BackSpace(core) == 0
    requires lead > 0 || !HasPrefix(core, BOM)
    ensures Cleaned(Spaces(lead) + core) == core
  {
    var s := Spaces(lead) + core;
    if lead == 0 {
      assert s == core;
    } else {
      assert s[0] == ' ';
    }
    TrimFrontSpaces(lead, core);
  }

  lemma NotABom(name: string, rest: string)
    requires rest != "" && rest[0] == ' ' && !HasPrefix(name, BOM)
    ensures !HasPrefix(name + rest, BOM)
  {
    var s := name + rest;
    assert s[|name|] == ' ';
    assert |name| >= 3 ==> s[..3] == name[..3];
  }

  lemma CoreIsNoBom(l: TableLine)
    requires l.Row? && GoodLine(l)
    ensures l.distro.isDefault || l.lead == 0 ==> !HasPrefix(Core(l), BOM)
  {
    if l.distro.isDefault {
      assert Core(l)[0] == '*';
    } else if l.lead == 0 {
      var rest := CoreSplits(l);
      NotABom(l.distro.name, rest);
    }
  }

  lemma CleanedRow(l: TableLine)
    requires l.Row? && GoodLine(l)
    ensures Cleaned(Print(l)) == Core(l)
  {
    var core := Core(l);
    var lead := if l.distro.isDefault then 0 else l.lead;
    CoreStartsVisibly(l);
    CoreEndsVisibly(l);
    CoreIsNoBom(l);
    CleanedIndented(lead, core);
    CleanedWithReturn(Spaces(lead) + core, l.cr);
    PrintIs(l, lead);
  }

  lemma PrintIs(l: TableLine, lead: nat)
    requires l.Row? && lead == if l.distro.isDefault then 0 else l.lead
    ensures Print(l) == Spaces(lead) + Core(l) + CarriageReturn(l.cr)
  {
    NoLead(Core(l));
  }

  lemma NoLead(core: string)
    ensures Spaces(0) + core == core
  {
  }

  lemma ParsePrintedLine(l: TableLine)
    requires GoodLine(l)
    ensures ParseLine(Print(l)) == if l.Row? then [l.distro] else []
  {
    if l.Row? {
      CleanedRow(l);
      ParsePrintedCore(l);
    } else {
      assert Cleaned("") == "";
      CleanedWithReturn("", l.cr);
      assert "" + CarriageReturn(l.cr) == CarriageReturn(l.cr);
    }
  }

  function PrintAll(lines: seq<TableLine>): (printed: seq<string>)
    requires GoodLines(lines)
    ensures |printed| == |lines|
  {
    if lines == [] then [] else
      assert GoodLine(lines[0]);
      [Print(lines[0])] + PrintAll(lines[1..])
  }

  lemma {:induction false} ParsePrintedLines(lines: seq<TableLine>)
    requires GoodLines(lines)
    ensures Collect(ParseLine, PrintAll(lines)) == Listed(lines)
  {
    if lines != [] {
      ParsePrintedLine(lines[0]);
      ParsePrintedLines(lines[1..]);
      assert PrintAll(lines)[1..] == PrintAll(lines[1..]);
    }
  }

  // ------------------------------------------------------------------
  // The whole table

  /** The column titles: some indentation, NAME, and more on the same line. */
  function Header(indent: nat, titles: string): string {
    Spaces(indent) + "NAME" + titles
  }

  function Table(indent: nat, titles: string, lines: seq<TableLine>): string
    requires GoodLines(lines)
  {
    Join([Header(indent, titles)] + PrintAll(lines), '\n')
  }

  lemma HeaderGivesNothing(titles: string)
    ensures ParseLine("NAME" + titles) == []
  {
    var s := "NAME" + titles;
    assert s[0] == 'N';
    assert FrontSpace(s) == 0 by { VisibleN(s); }
    TrimBackKeeps("NAME", titles);
    assert Cleaned(s) == TrimBack(s);
  }

  lemma VisibleN(s: string)
    requires s != "" && s[0] == 'N'
    ensures FrontSpace(s) == 0
  {
  }

  /** Only the header's indentation is trimmed from the front of the output. */
  lemma TrimFrontOfTable(indent: nat, titles: string, rest: seq<string>)
    ensures TrimFront(Join([Header(indent, titles)] + rest, '\n')) == Join(["NAME" + titles] + rest, '\n')
  {
    var tail := if rest == [] then "" else "\n" + Join(rest, '\n');
    var body := "NAME" + titles + tail;
    assert ([Header(indent, titles)] + rest)[1..] == rest && (["NAME" + titles] + rest)[1..] == rest;
    assert Join([Header(indent, titles)] + rest, '\n') == Spaces(indent) + body;
    assert Join(["NAME" + titles] + rest, '\n') == body;
    TrimFrontSpaces(indent, body);
    VisibleN(body);
  }

  lemma {:induction false} NoNewlines(lines: seq<TableLine>)
    requires GoodLines(lines)
    ensures forall i :: 0 <= i < |lines| ==> '\n' !in PrintAll(lines)[i]
  {
    if lines != [] {
      assert GoodLine(lines[0]);
      OnOneLine(lines[0]);
      NoNewlines(lines[1..]);
    }
  }

  lemma OnOneLine(l: TableLine)
    requires GoodLine(l)
    ensures '\n' !in Print(l)
  {
    if l.Row? {
      assert '\n' !in NamePart(l);
      assert '\n' !in l.state;
      assert '\n' !in Core(l);
    }
  }

  /** Reading a printed table, trimmed as decodeOutput leaves it, gives exactly
      the printed distros in order: for any indentation, column padding, blank
      lines and mixture of LF and CRLF, and names with any characters in them. */
  lemma TableReadsBack(indent: nat, titles: string, lines: seq<TableLine>)
    requires '\n' !in titles && GoodLines(lines)
    ensures ParseTable(TrimSpace(Table(indent, titles, lines))) == Listed(lines)
  {
    TrimFrontOfTable(indent, titles, PrintAll(lines));
    NoNewlines(lines);
    assert '\n' !in "NAME" + titles;
    HeaderGivesNothing(titles);
    ParsePrintedLines(lines);
    ParseLineIgnoresTrailingSpace();
    SilentFirstLine(ParseLine, Table(indent, titles, lines), "NAME" + titles, PrintAll(lines));
  }
}
