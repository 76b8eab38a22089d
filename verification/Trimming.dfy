/** Byte-level facts about TrimSpace: what it leaves alone and what never matters to it. */
module Trimming {
  import opened GoStrings

  /** No UTF-8 sequence continues with this byte. */
  predicate Starts(c: char) {
    c as int < 0x80 || c as int > 0xBF
  }

  lemma SpaceRuneShape(w: string)
    requires IsSpaceRune(w)
    ensures w != [] && Starts(w[0])
    ensures forall i :: 0 < i < |w| ==> !Starts(w[i])
    ensures |w| > 1 ==> w[0] as int >= 0x80
  {
  }

  /** What a string begins with decides whether it begins with white space,
      provided what follows starts a new rune. */
  lemma FrontSpaceStable(s: string, t: string)
    requires s != [] && (t == [] || Starts(t[0]))
    ensures FrontSpace(s + t) == FrontSpace(s)
  {
    var st := s + t;
    assert forall i :: 0 <= i < |s| ==> st[i] == s[i];
    assert t != [] ==> st[|s|] == t[0];
    forall k | 1 <= k <= |st| ensures k <= |s| ==> st[..k] == s[..k]
                              ensures IsSpaceRune(st[..k]) ==> k <= |s| {
      assert forall i :: 0 <= i < k ==> st[..k][i] == st[i];
      if IsSpaceRune(st[..k]) {
        SpaceRuneShape(st[..k]);
      }
    }
  }

  lemma FrontSpaceOf(w: string)
    requires IsSpaceRune(w)
    ensures FrontSpace(w) == |w|
  {
    SpaceRuneShape(w);
    assert w[..|w|] == w;
    assert |w| >= 2 ==> w[..1] == [w[0]];
    assert |w| >= 3 ==> w[..2] == [w[0], w[1]];
  }

  lemma NoShorterTail(s: string, n: nat, k: nat)
    requires 0 < k < n <= |s| && IsSpaceRune(s[|s| - n..])
    ensures !IsSpaceRune(s[|s| - k..])
  {
    var rune, tail := s[|s| - n..], s[|s| - k..];
    SpaceRuneShape(rune);
    assert tail[0] == rune[n - k];
    if IsSpaceRune(tail) {
      SpaceRuneShape(tail);
    }
  }

  lemma BackSpaceIs(s: string, n: nat)
    requires 0 < n <= |s| && IsSpaceRune(s[|s| - n..])
    ensures BackSpace(s) == n
  {
    if n > 1 {
      NoShorterTail(s, n, 1);
    }
    if n > 2 {
      NoShorterTail(s, n, 2);
    }
  }

  /** A trailing space rune is found whatever precedes it. */
  lemma BackSpaceAppended(s: string, w: string)
    requires IsSpaceRune(w)
    ensures BackSpace(s + w) == |w|
  {
    SpaceRuneShape(w);
    assert (s + w)[|s + w| - |w|..] == w;
    BackSpaceIs(s + w, |w|);
  }

  /** A visible end stays visible behind an ASCII character. */
  lemma BackSpaceBehind(p: string, f: string)
    requires p != "" ==> p[|p| - 1] as int < 0x80
    requires f != "" && BackSpace(f) == 0
    ensures BackSpace(p + f) == 0
  {
  }

  lemma {:induction false} TrimFrontAppend(s: string, w: string)
    requires IsSpaceRune(w)
    ensures TrimFront(s + w) == if TrimFront(s) == [] then [] else TrimFront(s) + w
    decreases |s|
  {
    SpaceRuneShape(w);
    if s == [] {
      FrontSpaceOf(w);
      assert s + w == w && w[|w|..] == [];
    } else {
      FrontSpaceStable(s, w);
      var n := FrontSpace(s);
      if n > 0 {
        assert (s + w)[n..] == s[n..] + w;
        TrimFrontAppend(s[n..], w);
      }
    }
  }

  lemma SuffixOfTail(s: string, n: nat, t: string)
    requires n <= |s| && HasSuffix(s[n..], t)
    ensures HasSuffix(s, t)
  {
    assert s[n..][|s[n..]| - |t|..] == s[|s| - |t|..];
  }

  lemma {:induction false} TrimFrontIsSuffix(s: string)
    ensures HasSuffix(s, TrimFront(s))
    decreases |s|
  {
    var n := FrontSpace(s);
    if n > 0 {
      TrimFrontIsSuffix(s[n..]);
      SuffixOfTail(s, n, TrimFront(s[n..]));
    }
  }

  /** White space at the end never matters. */
  lemma TrimSpaceAppend(s: string, w: string)
    requires IsSpaceRune(w)
    ensures TrimSpace(s + w) == TrimSpace(s)
  {
    TrimFrontAppend(s, w);
    var t := TrimFront(s);
    BackSpaceAppended(t, w);
    assert (t + w)[..|t|] == t;
  }

  function Spaces(n: nat): (s: string)
    ensures |s| == n && forall i :: 0 <= i < n ==> s[i] == ' '
  {
    seq(n, _ => ' ')
  }

  lemma {:induction false} TrimFrontSpaces(n: nat, s: string)
    ensures TrimFront(Spaces(n) + s) == TrimFront(s)
  {
    if n == 0 {
      assert Spaces(0) + s == s;
    } else {
      var all := Spaces(n) + s;
      assert all[..1] == [' '];
      assert all[1..] == Spaces(n - 1) + s;
      TrimFrontSpaces(n - 1, s);
    }
  }

  /** The last character is ASCII and no white space. */
  predicate EndsVisibly(s: string) {
    s != [] && s[|s| - 1] as int < 0x80 && !IsSpaceRune([s[|s| - 1]])
  }

  lemma SpaceStaysInTail(s: string, t: string, n: nat)
    requires EndsVisibly(s)
    requires n <= |s + t| && IsSpaceRune((s + t)[|s + t| - n..])
    ensures n <= |t|
  {
    var st := s + t;
    var w := st[|st| - n..];
    SpaceRuneShape(w);
    assert forall i :: |st| - n <= i < |st| ==> st[i] == w[i - (|st| - n)];
    assert st[|s| - 1] == s[|s| - 1];
    assert |w| == 1 ==> w == [w[0]];
  }

  /** A string that ends in an ASCII character other than a space ends in no white space. */
  lemma NoBackSpace(s: string)
    requires EndsVisibly(s)
    ensures BackSpace(s) == 0
  {
    assert s + [] == s;
    if BackSpace(s) > 0 {
      SpaceStaysInTail(s, [], BackSpace(s));
    }
  }

  /** Trimming the back never reaches into a part that ends in a visible ASCII character. */
  lemma {:induction false} TrimBackKeeps(s: string, t: string)
    requires EndsVisibly(s)
    ensures s <= TrimBack(s + t)
    decreases |t|
  {
    var st := s + t;
    var n := BackSpace(st);
    if n > 0 {
      SpaceStaysInTail(s, t, n);
      var shorter := t[..|t| - n];
      assert st[..|st| - n] == s + shorter;
      TrimBackKeeps(s, shorter);
    }
  }
}
