/** What kernelProbe makes of a printed kernel version. */
module KernelAge {
  import opened GoStrings
  import opened Unicode
  import opened Trimming
  import opened Lines
  import opened WslOutput
  import opened Wsl
  import opened Health
  import opened Recovery
  import opened Diagnosis
  import opened Answers

  predicate Breaks(c: char) {
    c in {'-', '+', '_'}
  }

  predicate Plain(s: string) {
    forall i :: 0 <= i < |s| ==> !Breaks(s[i])
  }

  lemma {:induction false} CoreBehind(p: string, tail: string)
    requires Plain(p)
    ensures Core(p + tail) == p + Core(tail)
  {
    if p == "" {
      assert p + tail == tail;
    } else {
      assert (p + tail)[1..] == p[1..] + tail;
      CoreBehind(p[1..], tail);
    }
  }

  lemma AtoiOfDigits(n: nat)
    requires n < 0x8000_0000_0000_0000
    ensures Atoi(Digits(n)) == Some(n)
  {
    DigitsRead(n);
    assert IsDigit(Digits(n)[0]);
  }

  /** What may follow the two numbers: nothing, another part, or a suffix. */
  predicate EndsNumber(tail: string) {
    tail == "" || tail[0] == '.' || Breaks(tail[0])
  }

  lemma FirstPart(digits: string, tail: string)
    requires AllDigits(digits) && (tail == "" || tail[0] == '.')
    ensures Split(digits + tail, '.')[0] == digits
  {
    assert '.' !in digits;
    if tail == "" {
      assert digits + tail == digits;
      SplitWhole(digits, '.');
    } else {
      assert digits + tail == digits + ['.'] + tail[1..];
      SplitFirst(digits, tail[1..], '.');
    }
  }

  lemma TwoParts(a: string, b: string, tail: string)
    requires AllDigits(a) && AllDigits(b) && (tail == "" || tail[0] == '.')
    ensures
      var parts := Split(a + "." + (b + tail), '.');
      |parts| >= 2 && parts[0] == a && parts[1] == b
  {
    assert '.' !in a;
    SplitFirst(a, b + tail, '.');
    FirstPart(b, tail);
  }

  lemma CoreOfVersion(a: string, b: string, tail: string)
    requires AllDigits(a) && AllDigits(b) && EndsNumber(tail)
    ensures Core(a + "." + (b + tail)) == a + "." + (b + Core(tail))
    ensures Core(tail) == "" || Core(tail)[0] == '.'
  {
    var p := a + "." + b;
    assert Plain(p);
    CoreBehind(p, tail);
    Associate(a + ".", b, tail);
    Associate(a + ".", b, Core(tail));
  }

  function PrintedVersion(major: nat, minor: nat, tail: string): string {
    Digits(major) + "." + (Digits(minor) + tail)
  }

  /** The two leading numbers of a printed version are read back. */
  lemma VersionReadsBack(major: nat, minor: nat, tail: string)
    requires major < 0x8000_0000_0000_0000 && minor < 0x8000_0000_0000_0000 && EndsNumber(tail)
    ensures ParseKernelVersion(PrintedVersion(major, minor, tail)) == Some((major, minor))
  {
    DigitsRead(major);
    DigitsRead(minor);
    CoreOfVersion(Digits(major), Digits(minor), tail);
    TwoParts(Digits(major), Digits(minor), Core(tail));
    AtoiOfDigits(major);
    AtoiOfDigits(minor);
  }

  /** Older than 5.10, compared number by number and not as text. */
  predicate Older(major: nat, minor: nat) {
    major < 5 || (major == 5 && minor < 10)
  }

  function OldText(version: string): string {
    "kernel " + version + " is older than the required 5.10"
  }

  lemma JudgedByAnswer(o: Oracle, t: seq<Call>, major: nat, minor: nat, tail: string)
    requires major < 0x8000_0000_0000_0000 && minor < 0x8000_0000_0000_0000 && EndsNumber(tail)
    requires KernelAnswer(o(t + [VERSION])) == Ok(PrintedVersion(major, minor, tail))
    ensures
      var c := KernelRun(true, o, t).value;
      && !c.safeToFix
      && (Older(major, minor) ==> c.status == Warning && c.summary == OldText(PrintedVersion(major, minor, tail)))
      && (!Older(major, minor) ==> c.status == Healthy && c.summary == PrintedVersion(major, minor, tail))
  {
    DigitsRead(major);
    VersionReadsBack(major, minor, tail);
    assert PrintedVersion(major, minor, tail) != "";
  }

  /** Among any other lines, in any of the four encodings: the probe warns exactly
      when the printed version is older than 5.10, and otherwise shows it. */
  lemma WarnsIffOlder(o: Oracle, t: seq<Call>, vs: seq<Rune>, form: Form, before: seq<string>, pad: nat,
                      major: nat, minor: nat, tail: string, cr: bool, after: seq<string>)
    requires major < 0x8000_0000_0000_0000 && minor < 0x8000_0000_0000_0000 && EndsNumber(tail)
    requires o(t + [VERSION]) == Output(Encode(vs, form))
    requires PrintsVersion(vs, before, pad, PrintedVersion(major, minor, tail), cr, after)
    ensures
      var c := KernelRun(true, o, t).value;
      && !c.safeToFix
      && (c.status == Warning <==> Older(major, minor))
      && (Older(major, minor) ==> c.summary == OldText(PrintedVersion(major, minor, tail)))
      && (!Older(major, minor) ==> c.status == Healthy && c.summary == PrintedVersion(major, minor, tail))
  {
    KernelReadsBack(vs, form, before, pad, PrintedVersion(major, minor, tail), cr, after);
    JudgedByAnswer(o, t, major, minor, tail);
  }
}
