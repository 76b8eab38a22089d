/** Text read line by line, with any function from a line to what it yields. */
module Lines {
  import opened GoStrings
  import opened Trimming

  function Collect<T>(f: string -> seq<T>, lines: seq<string>): seq<T> {
    if lines == [] then [] else f(lines[0]) + Collect(f, lines[1..])
  }

  function FromLines<T>(f: string -> seq<T>, text: string): seq<T> {
    Collect(f, Split(text, '\n'))
  }

  lemma {:induction false} CollectAppend<T>(f: string -> seq<T>, a: seq<string>, b: seq<string>)
    ensures Collect(f, a + b) == Collect(f, a) + Collect(f, b)
  {
    if a == [] {
      assert a + b == b;
    } else {
      assert (a + b)[1..] == a[1..] + b;
      CollectAppend(f, a[1..], b);
    }
  }

  lemma CollectLast<T>(f: string -> seq<T>, lines: seq<string>, last: string)
    ensures Collect(f, lines + [last]) == Collect(f, lines) + f(last)
  {
    CollectAppend(f, lines, [last]);
    assert [last][1..] == [];
  }

  lemma CollectNext<T>(f: string -> seq<T>, lines: seq<string>, i: nat)
    requires i < |lines|
    ensures Collect(f, lines[..i + 1]) == Collect(f, lines[..i]) + f(lines[i])
  {
    assert lines[..i + 1] == lines[..i] + [lines[i]];
    CollectLast(f, lines[..i], lines[i]);
  }

  method CollectLines<T>(f: string -> seq<T>, text: string) returns (out: seq<T>)
    ensures out == FromLines(f, text)
  {
    var lines := Split(text, '\n');
    out := [];
    for i := 0 to |lines|
      invariant out == Collect(f, lines[..i])
    {
      CollectNext(f, lines, i);
      out := out + f(lines[i]);
    }
    assert lines[..|lines|] == lines;
  }

  lemma SplitWhole(s: string, sep: char)
    requires sep !in s
    ensures Split(s, sep) == [s]
  {
  }

  lemma SplitLater(first: string, rest: string, w: string, sep: char)
    requires sep !in first
    requires
      var parts := Split(rest, sep);
      Split(rest + w, sep) == parts[..|parts| - 1] + [parts[|parts| - 1] + w]
    ensures
      var s := first + [sep] + rest;
      var parts := Split(s, sep);
      Split(s + w, sep) == parts[..|parts| - 1] + [parts[|parts| - 1] + w]
  {
    Associate(first + [sep], rest, w);
    SplitFirst(first, rest, sep);
    SplitFirst(first, rest + w, sep);
    AppendLater(first, Split(rest, sep), w);
  }

  lemma AppendLater(first: string, parts: seq<string>, w: string)
    requires parts != []
    ensures
      var all := [first] + parts;
      all[..|all| - 1] + [all[|all| - 1] + w] == [first] + (parts[..|parts| - 1] + [parts[|parts| - 1] + w])
  {
  }

  /** What is appended without a separator goes to the last part. */
  lemma {:induction false} SplitAppend(s: string, w: string, sep: char)
    requires sep !in w
    ensures
      var parts := Split(s, sep);
      Split(s + w, sep) == parts[..|parts| - 1] + [parts[|parts| - 1] + w]
    decreases |s|
  {
    if sep !in s {
      SplitWhole(s, sep);
      SplitWhole(s + w, sep);
    } else {
      var first, rest := s[..IndexOf(s, sep)], s[IndexOf(s, sep) + 1..];
      assert s == first + [sep] + rest;
      SplitAppend(rest, w, sep);
      SplitLater(first, rest, w, sep);
    }
  }

  /** What is put in front without a separator goes to the first part. */
  lemma SplitPrepend(w: string, s: string, sep: char)
    requires sep !in w
    ensures
      var parts := Split(s, sep);
      Split(w + s, sep) == [w + parts[0]] + parts[1..]
  {
    if sep !in s {
      SplitWhole(s, sep);
      SplitWhole(w + s, sep);
    } else {
      var first, rest := s[..IndexOf(s, sep)], s[IndexOf(s, sep) + 1..];
      assert s == first + [sep] + rest;
      assert w + s == (w + first) + [sep] + rest;
      SplitFirst(first, rest, sep);
      SplitFirst(w + first, rest, sep);
    }
  }

  lemma SplitEndsSep(s: string, sep: char)
    requires sep !in s
    ensures Split(s + [sep], sep) == [s, ""]
  {
    var t := s + [sep];
    assert forall j :: 0 <= j < |s| ==> t[j] == s[j];
    FirstIndex(t, sep, |s|);
    assert t[..|s|] == s && t[|s| + 1..] == "";
    SplitWhole("", sep);
  }

  lemma GrowRest(a: seq<string>, first: string, rest: seq<string>, b: seq<string>)
    requires a == [first] + rest && b == [first] + (rest + [""])
    ensures b == a + [""]
  {
  }

  lemma {:induction false} SplitAppendSep(s: string, sep: char)
    ensures Split(s + [sep], sep) == Split(s, sep) + [""]
    decreases |s|
  {
    if sep !in s {
      SplitEndsSep(s, sep);
    } else {
      var first, rest := s[..IndexOf(s, sep)], s[IndexOf(s, sep) + 1..];
      assert s == first + [sep] + rest;
      assert s + [sep] == first + [sep] + (rest + [sep]);
      var whole, longer := Split(s, sep), Split(s + [sep], sep);
      assert whole == [first] + Split(rest, sep) by {
        SplitFirst(first, rest, sep);
      }
      assert longer == [first] + Split(rest + [sep], sep) by {
        SplitFirst(first, rest + [sep], sep);
      }
      SplitAppendSep(rest, sep);
      GrowRest(whole, first, Split(rest, sep), longer);
    }
  }

  /** f yields nothing for an empty line and does not look at trailing white space. */
  ghost predicate IgnoresTrailingSpace<T(!new)>(f: string -> seq<T>) {
    && f("") == []
    && forall raw, w | IsSpaceRune(w) :: f(raw + w) == f(raw)
  }

  lemma NewlineInvisible<T>(f: string -> seq<T>, s: string)
    requires f("") == []
    ensures FromLines(f, s + "\n") == FromLines(f, s)
  {
    SplitAppendSep(s, '\n');
    CollectLast(f, Split(s, '\n'), "");
  }

  lemma CollectGrown<T>(f: string -> seq<T>, lines: seq<string>, w: string)
    requires lines != [] && f(lines[|lines| - 1] + w) == f(lines[|lines| - 1])
    ensures Collect(f, lines[..|lines| - 1] + [lines[|lines| - 1] + w]) == Collect(f, lines)
  {
    var n := |lines| - 1;
    assert lines == lines[..n] + [lines[n]];
    CollectLast(f, lines[..n], lines[n]);
    CollectLast(f, lines[..n], lines[n] + w);
  }

  lemma OneSpaceInvisible<T(!new)>(f: string -> seq<T>, s: string, w: string)
    requires IgnoresTrailingSpace(f) && IsSpaceRune(w)
    ensures FromLines(f, s + w) == FromLines(f, s)
  {
    if w == "\n" {
      NewlineInvisible(f, s);
    } else {
      NoNewlineInside(w);
      SplitAppend(s, w, '\n');
      CollectGrown(f, Split(s, '\n'), w);
    }
  }

  lemma NoNewlineInside(w: string)
    requires IsSpaceRune(w) && w != "\n"
    ensures '\n' !in w
  {
    SpaceRuneShape(w);
    assert |w| == 1 ==> w == [w[0]];
  }

  /** So trimming the end of the whole output changes nothing. */
  lemma {:induction false} TrimBackInvisible<T(!new)>(f: string -> seq<T>, text: string)
    requires IgnoresTrailingSpace(f)
    ensures FromLines(f, TrimBack(text)) == FromLines(f, text)
    decreases |text|
  {
    var n := BackSpace(text);
    if n > 0 {
      var shorter, w := text[..|text| - n], text[|text| - n..];
      assert text == shorter + w;
      OneSpaceInvisible(f, shorter, w);
      TrimBackInvisible(f, shorter);
    }
  }

  /** A text whose first line yields nothing, trimmed all round: what its other
      lines yield. */
  lemma SilentFirstLine<T(!new)>(f: string -> seq<T>, text: string, first: string, rest: seq<string>)
    requires IgnoresTrailingSpace(f) && f(first) == []
    requires TrimFront(text) == Join([first] + rest, '\n')
    requires '\n' !in first && forall i :: 0 <= i < |rest| ==> '\n' !in rest[i]
    ensures FromLines(f, TrimSpace(text)) == Collect(f, rest)
  {
    var lines := [first] + rest;
    TrimBackInvisible(f, Join(lines, '\n'));
    SplitJoin(lines, '\n');
    assert lines[1..] == rest;
  }
}
