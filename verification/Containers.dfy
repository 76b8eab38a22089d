/** `docker ps` through a tab-separated template: parsing it, and the proof that
    a printed listing reads back. */
module Containers {
  import opened GoStrings
  import opened Trimming
  import opened Lines

  datatype Container = Container(id: string, name: string, image: string, state: string, status: string)

  function Field(fields: seq<string>, k: nat): string {
    if k < |fields| then fields[k] else ""
  }

  /** One line; missing fields stay empty. */
  function ParseContainer(line: string): seq<Container> {
    if line == "" then [] else
      var fields := Split(line, '\t');
      [Container(Field(fields, 0), Field(fields, 1), Field(fields, 2), Field(fields, 3), Field(fields, 4))]
  }

  /** What ListContainers makes of docker's output. */
  function ParseContainers(out: string): seq<Container> {
    FromLines(ParseContainer, TrimSpace(out))
  }

  method ListContainers(out: string) returns (containers: seq<Container>)
    ensures containers == ParseContainers(out)
  {
    containers := CollectLines(ParseContainer, TrimSpace(out));
  }

  /** containerProbe's count. */
  method CountRunning(containers: seq<Container>) returns (running: nat)
    ensures running == |Running(containers)|
  {
    running := 0;
    for i := 0 to |containers|
      invariant running == |Running(containers[..i])|
    {
      OneMore(containers, i);
      if containers[i].state == "running" {
        running := running + 1;
      }
    }
    assert containers[..|containers|] == containers;
  }

  /** Which of the containers run. */
  function Running(containers: seq<Container>): set<nat> {
    set i: nat | i < |containers| && containers[i].state == "running"
  }

  lemma OneMore(containers: seq<Container>, i: nat)
    requires i < |containers|
    ensures |Running(containers[..i + 1])| == |Running(containers[..i])| + if containers[i].state == "running" then 1 else 0
  {
    var here: set<nat> := if containers[i].state == "running" then {i} else {};
    assert Running(containers[..i + 1]) == Running(containers[..i]) + here;
  }

  // ------------------------------------------------------------------
  // Printing

  function Fields(c: Container): (fs: seq<string>)
    ensures |fs| == 5
  {
    [c.id, c.name, c.image, c.state, c.status]
  }

  function PrintContainer(c: Container): string {
    Join(Fields(c), '\t')
  }

  lemma JoinCons(first: string, rest: seq<string>)
    requires rest != []
    ensures Join([first] + rest, '\t') == first + "\t" + Join(rest, '\t')
  {
    assert ([first] + rest)[1..] == rest;
  }

  lemma PrintsInOrder(c: Container)
    ensures PrintContainer(c) ==
              c.id + "\t" + (c.name + "\t" + (c.image + "\t" + (c.state + "\t" + c.status)))
  {
    assert Fields(c) == [c.id] + ([c.name] + ([c.image] + ([c.state] + [c.status])));
    JoinCons(c.id, [c.name] + ([c.image] + ([c.state] + [c.status])));
    JoinCons(c.name, [c.image] + ([c.state] + [c.status]));
    JoinCons(c.image, [c.state] + [c.status]);
    JoinCons(c.state, [c.status]);
  }

  predicate PlainFields(c: Container) {
    forall i :: 0 <= i < 5 ==> '\t' !in Fields(c)[i] && '\n' !in Fields(c)[i]
  }

  /** How many fields there are up to the last non-empty one. */
  function Filled(fs: seq<string>): (n: nat)
    ensures n <= |fs|
    ensures forall i :: n <= i < |fs| ==> fs[i] == ""
    ensures n > 0 ==> fs[n - 1] != ""
  {
    if fs == [] || fs[|fs| - 1] != "" then |fs| else Filled(fs[..|fs| - 1])
  }

  function Tabs(n: nat): string {
    if n == 0 then "" else "\t" + Tabs(n - 1)
  }

  lemma {:induction false} JoinTrailing(fs: seq<string>, n: nat)
    requires 0 < n <= |fs| && forall i :: n <= i < |fs| ==> fs[i] == ""
    ensures Join(fs, '\t') == Join(fs[..n], '\t') + Tabs(|fs| - n)
    decreases |fs|
  {
    if n == |fs| {
      assert fs[..n] == fs;
    } else if n > 1 {
      JoinTrailing(fs[1..], n - 1);
      assert fs[..n][1..] == fs[1..][..n - 1];
      Associate(fs[0] + "\t", Join(fs[1..][..n - 1], '\t'), Tabs(|fs| - n));
    } else {
      JoinEmpties(fs[1..]);
      assert fs[..1] == [fs[0]];
      Associate(fs[0], "\t", Join(fs[1..], '\t'));
    }
  }

  lemma {:induction false} JoinEmpties(fs: seq<string>)
    requires fs != [] && forall i :: 0 <= i < |fs| ==> fs[i] == ""
    ensures "\t" + Join(fs, '\t') == Tabs(|fs|)
  {
    if |fs| > 1 {
      JoinEmpties(fs[1..]);
      assert fs[0] + ['\t'] == "\t";
    } else {
      assert Join(fs, '\t') == "";
    }
  }

  /** Missing trailing fields and empty ones parse alike. */
  lemma ParseFilled(c: Container)
    requires PlainFields(c) && Filled(Fields(c)) > 0
    ensures ParseContainer(Join(Fields(c)[..Filled(Fields(c))], '\t')) == [c]
  {
    var kept := Fields(c)[..Filled(Fields(c))];
    assert forall i :: 0 <= i < |kept| ==> '\t' !in kept[i];
    SplitJoin(kept, '\t');
    LastNonEmpty(kept);
    assert forall i :: 0 <= i < 5 ==> Field(kept, i) == Fields(c)[i];
    assert c == Container(Fields(c)[0], Fields(c)[1], Fields(c)[2], Fields(c)[3], Fields(c)[4]);
  }

  lemma {:induction false} LastNonEmpty(fs: seq<string>)
    requires fs != [] && fs[|fs| - 1] != ""
    ensures Join(fs, '\t') != ""
  {
  }

  lemma ParsePrinted(c: Container)
    requires PlainFields(c)
    ensures ParseContainer(PrintContainer(c)) == [c]
  {
    SplitJoin(Fields(c), '\t');
    assert PrintContainer(c) != "";
  }

  // ------------------------------------------------------------------
  // What trimming the whole output takes away

  lemma {:induction false} TrimTabs(s: string, n: nat)
    ensures TrimBack(s + Tabs(n)) == TrimBack(s)
    decreases n
  {
    if n == 0 {
      assert s + Tabs(0) == s;
    } else {
      assert s + Tabs(n) == s + "\t" + Tabs(n - 1);
      TrimTabs(s + "\t", n - 1);
      TrimOne(s, "\t");
    }
  }

  lemma TrimOne(s: string, w: string)
    requires |w| == 1 && w[0] in {'\t', '\n'}
    ensures TrimBack(s + w) == TrimBack(s)
  {
    BackSpaceAppended(s, w);
    assert (s + w)[..|s|] == s;
  }

  // ------------------------------------------------------------------
  // The whole listing

  /** The first id and the last non-empty field of the last container show no
      white space at the ends of the output. */
  predicate GoodListing(cs: seq<Container>) {
    && (forall i :: 0 <= i < |cs| ==> PlainFields(cs[i]))
    && (cs != [] ==>
          var last := Fields(cs[|cs| - 1]);
          && cs[0].id != "" && FrontSpace(cs[0].id) == 0
          && Filled(last) > 0 && BackSpace(last[Filled(last) - 1]) == 0)
  }

  function PrintAll(cs: seq<Container>): (lines: seq<string>)
    ensures |lines| == |cs| && forall i :: 0 <= i < |cs| ==> lines[i] == PrintContainer(cs[i])
  {
    seq(|cs|, i requires 0 <= i < |cs| => PrintContainer(cs[i]))
  }

  /** docker's output: one line a container, perhaps with a final newline. */
  function Listing(cs: seq<Container>, newline: bool): string {
    Join(PrintAll(cs), '\n') + (if newline then "\n" else "")
  }

  /** The last line as trimming leaves it. */
  function Shortened(c: Container): string {
    Join(Fields(c)[..Filled(Fields(c))], '\t')
  }

  lemma {:induction false} JoinLast(parts: seq<string>, last: string, sep: char)
    requires parts != []
    ensures Join(parts + [last], sep) == Join(parts, sep) + [sep] + last
  {
    var all := parts + [last];
    assert all[1..] == parts[1..] + [last];
    if |parts| > 1 {
      JoinLast(parts[1..], last, sep);
    } else {
      assert all[1..] == [last];
    }
  }

  /** What stands before the last part of a joined text. */
  function Before(parts: seq<string>, sep: char): (p: string)
    ensures p != "" ==> p[|p| - 1] == sep
  {
    if parts == [] then "" else Join(parts, sep) + [sep]
  }

  lemma JoinBefore(parts: seq<string>, last: string, sep: char)
    ensures Join(parts + [last], sep) == Before(parts, sep) + last
  {
    if parts == [] {
      assert parts + [last] == [last];
    } else {
      JoinLast(parts, last, sep);
    }
  }

  /** A visible last field, behind earlier lines and behind earlier fields. */
  lemma VisibleEnd(p: string, front: string, f: string)
    requires p != "" ==> p[|p| - 1] == '\n'
    requires front != "" ==> front[|front| - 1] == '\t'
    requires f != "" && BackSpace(f) == 0
    ensures BackSpace(p + (front + f)) == 0
  {
    Associate(p, front, f);
    BackSpaceBehind(p + front, f);
  }

  lemma TrimTabsBehind(p: string, kept: string, n: nat)
    requires BackSpace(p + kept) == 0
    ensures TrimBack(p + (kept + Tabs(n))) == p + kept
  {
    Associate(p, kept, Tabs(n));
    TrimTabs(p + kept, n);
  }

  lemma TrimJoined(p: string, front: string, f: string, n: nat, kept: string, whole: string)
    requires p != "" ==> p[|p| - 1] == '\n'
    requires front != "" ==> front[|front| - 1] == '\t'
    requires f != "" && BackSpace(f) == 0
    requires kept == front + f && whole == kept + Tabs(n)
    ensures TrimBack(p + whole) == p + kept
  {
    VisibleEnd(p, front, f);
    TrimTabsBehind(p, kept, n);
  }

  lemma KeptFields(fs: seq<string>, n: nat)
    requires 0 < n <= |fs| && forall i :: n <= i < |fs| ==> fs[i] == ""
    ensures Join(fs[..n], '\t') == Before(fs[..n - 1], '\t') + fs[n - 1]
    ensures Join(fs, '\t') == Before(fs[..n - 1], '\t') + fs[n - 1] + Tabs(|fs| - n)
  {
    JoinTrailing(fs, n);
    assert fs[..n] == fs[..n - 1] + [fs[n - 1]];
    JoinBefore(fs[..n - 1], fs[n - 1], '\t');
  }

  lemma TrimBackOfFields(p: string, fs: seq<string>, n: nat)
    requires p != "" ==> p[|p| - 1] == '\n'
    requires 0 < n <= |fs| && fs[n - 1] != "" && BackSpace(fs[n - 1]) == 0
    requires forall i :: n <= i < |fs| ==> fs[i] == ""
    ensures TrimBack(p + Join(fs, '\t')) == p + Join(fs[..n], '\t')
  {
    KeptFields(fs, n);
    TrimJoined(p, Before(fs[..n - 1], '\t'), fs[n - 1], |fs| - n, Join(fs[..n], '\t'), Join(fs, '\t'));
  }

  lemma TrimBackOfListing(p: string, c: Container, newline: bool)
    requires p != "" ==> p[|p| - 1] == '\n'
    requires Filled(Fields(c)) > 0 && BackSpace(Fields(c)[Filled(Fields(c)) - 1]) == 0
    ensures TrimBack(p + PrintContainer(c) + (if newline then "\n" else "")) == p + Shortened(c)
  {
    TrimBackOfFields(p, Fields(c), Filled(Fields(c)));
    if newline {
      TrimOne(p + PrintContainer(c), "\n");
    } else {
      assert p + PrintContainer(c) + "" == p + PrintContainer(c);
    }
  }

  lemma {:induction false} NoNewline(fs: seq<string>)
    requires forall i :: 0 <= i < |fs| ==> '\n' !in fs[i]
    ensures '\n' !in Join(fs, '\t')
  {
    if |fs| > 1 {
      NoNewline(fs[1..]);
    }
  }

  /** The whole output after trimming: every line as printed, but the last one shortened. */
  lemma TrimmedListing(cs: seq<Container>, newline: bool)
    requires cs != [] && GoodListing(cs)
    ensures TrimSpace(Listing(cs, newline)) ==
              Join(PrintAll(cs[..|cs| - 1]) + [Shortened(cs[|cs| - 1])], '\n')
  {
    var n := |cs| - 1;
    var p := Before(PrintAll(cs[..n]), '\n');
    assert PrintAll(cs) == PrintAll(cs[..n]) + [PrintContainer(cs[n])];
    JoinBefore(PrintAll(cs[..n]), PrintContainer(cs[n]), '\n');
    JoinBefore(PrintAll(cs[..n]), Shortened(cs[n]), '\n');
    TrimBackOfListing(p, cs[n], newline);
    ListingStartsVisibly(cs, newline);
  }

  lemma ListingStartsVisibly(cs: seq<Container>, newline: bool)
    requires cs != [] && cs[0].id != "" && FrontSpace(cs[0].id) == 0
    ensures TrimFront(Listing(cs, newline)) == Listing(cs, newline)
  {
    var id, text := cs[0].id, Listing(cs, newline);
    var line := PrintContainer(cs[0]);
    assert line == id + ['\t'] + Join(Fields(cs[0])[1..], '\t');
    assert PrintAll(cs)[0] == line;
    assert text[..|id| + 1] == id + ['\t'];
    assert text == id + text[|id|..] && text[|id|] == '\t';
    FrontSpaceStable(id, text[|id|..]);
  }

  lemma {:induction false} ParsePrintedAll(cs: seq<Container>)
    requires forall i :: 0 <= i < |cs| ==> PlainFields(cs[i])
    ensures Collect(ParseContainer, PrintAll(cs)) == cs
  {
    if cs != [] {
      ParsePrinted(cs[0]);
      ParsePrintedAll(cs[1..]);
      assert PrintAll(cs)[1..] == PrintAll(cs[1..]);
    }
  }

  predicate OneLine(lines: seq<string>) {
    forall i :: 0 <= i < |lines| ==> '\n' !in lines[i]
  }

  lemma LinesOfListing(cs: seq<Container>, last: Container)
    requires PlainFields(last) && forall i :: 0 <= i < |cs| ==> PlainFields(cs[i])
    ensures OneLine(PrintAll(cs) + [Shortened(last)])
  {
    forall i | 0 <= i < |cs| ensures '\n' !in PrintAll(cs)[i] {
      NoNewline(Fields(cs[i]));
    }
    NoNewline(Fields(last)[..Filled(Fields(last))]);
  }

  lemma CollectListing(cs: seq<Container>, last: Container)
    requires PlainFields(last) && forall i :: 0 <= i < |cs| ==> PlainFields(cs[i])
    requires Filled(Fields(last)) > 0
    ensures Collect(ParseContainer, PrintAll(cs) + [Shortened(last)]) == cs + [last]
  {
    CollectLast(ParseContainer, PrintAll(cs), Shortened(last));
    ParsePrintedAll(cs);
    ParseFilled(last);
  }

  /** Parsing a printed listing returns the same containers in the same order,
      empty fields included, and the running count is the number printed as running. */
  lemma ListingReadsBack(cs: seq<Container>, newline: bool)
    requires GoodListing(cs)
    ensures ParseContainers(Listing(cs, newline)) == cs
    ensures |Running(ParseContainers(Listing(cs, newline)))| == |Running(cs)|
  {
    if cs == [] {
      EmptyListing(newline);
    } else {
      var front, last := cs[..|cs| - 1], cs[|cs| - 1];
      TrimmedListing(cs, newline);
      LinesOfListing(front, last);
      ParseTrimmed(Listing(cs, newline), PrintAll(front) + [Shortened(last)]);
      CollectListing(front, last);
      FrontAndLast(cs);
    }
  }

  lemma FrontAndLast(cs: seq<Container>)
    requires cs != []
    ensures cs == cs[..|cs| - 1] + [cs[|cs| - 1]]
  {
  }

  lemma ParseTrimmed(out: string, lines: seq<string>)
    requires lines != [] && OneLine(lines) && TrimSpace(out) == Join(lines, '\n')
    ensures ParseContainers(out) == Collect(ParseContainer, lines)
  {
    SplitJoin(lines, '\n');
  }

  lemma EmptyListing(newline: bool)
    ensures ParseContainers(Listing([], newline)) == []
  {
    assert PrintAll([]) == [];
    if newline {
      assert Listing([], true) == "" + "\n";
      TrimFrontAppend("", "\n");
    }
    assert TrimSpace(Listing([], newline)) == "";
    assert Split("", '\n') == [""];
    CollectLast(ParseContainer, [], "");
    assert [] + [""] == [""];
  }
}
