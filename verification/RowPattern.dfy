/** The regular expression for one line of `wsl --list --verbose`:

      ^(\*?)\s*(.+?)\s{2,}(Stopped|Running|Installing|Uninstalling|Converting)\s+(2|1)(?:\s*)$

    Matches says what a match is, Preferred which of two matches Go's
    leftmost-first search takes, and FindRow is a parser without search that
    returns the match Go returns. Every group boundary lies next to an ASCII
    byte, so working on bytes instead of runes makes no difference. */
module RowPattern {
  import opened GoStrings

  /** \s in a Go regular expression. */
  predicate Ws(c: char) {
    c in {'\t', '\n', 12 as char, '\r', ' '}
  }

  predicate AllWs(s: string) {
    forall i :: 0 <= i < |s| ==> Ws(s[i])
  }

  const WORDS: seq<string> := ["Stopped", "Running", "Installing", "Uninstalling", "Converting"]

  /** Where the groups of a match lie. */
  datatype Match = Match(
    star: bool,       // (\*?) took a star
    gap: nat,         // how much \s* took
    nameEnd: nat,     // end of (.+?)
    stateStart: nat,  // end of \s{2,}
    word: nat,        // which alternative
    digit: nat)       // where (2|1) is
  {
    function NameStart(): nat {
      (if star then 1 else 0) + gap
    }
  }

  ghost predicate MatchesName(p: string, star: bool, gap: nat, nameEnd: nat) {
    var from := if star then 1 else 0;
    && (star ==> p != [] && p[0] == '*')
    && from + gap < nameEnd && nameEnd + 2 <= |p|
    && AllWs(p[from..from + gap])
    && AllWs(p[nameEnd..])
  }

  ghost predicate MatchesState(line: string, stateStart: nat, word: nat, digit: nat) {
    && word < |WORDS|
    && stateStart + |WORDS[word]| < digit < |line|
    && line[stateStart..stateStart + |WORDS[word]|] == WORDS[word]
    && AllWs(line[stateStart + |WORDS[word]|..digit])
    && line[digit] in {'2', '1'}
    && AllWs(line[digit + 1..])
  }

  /** On a line without a newline, which is what splitting gives, `.` matches anything. */
  ghost predicate Matches(line: string, m: Match) {
    && MatchesState(line, m.stateStart, m.word, m.digit)
    && MatchesName(line[..m.stateStart], m.star, m.gap, m.nameEnd)
  }

  /** The search tries a star before none, more \s* before less, a shorter name
      before a longer one, more \s{2,} before less, the alternatives in turn,
      more \s+ before less. */
  ghost predicate Preferred(m: Match, n: Match) {
    || (m.star && !n.star)
    || (m.star == n.star && m.gap > n.gap)
    || (m.star == n.star && m.gap == n.gap && m.nameEnd < n.nameEnd)
    || (m.star == n.star && m.gap == n.gap && m.nameEnd == n.nameEnd &&
        (m.stateStart > n.stateStart ||
         (m.stateStart == n.stateStart && (m.word < n.word || (m.word == n.word && m.digit > n.digit)))))
  }

  // ------------------------------------------------------------------
  // The parser

  /** Where the white space at the end of s begins. */
  function WsEnd(s: string): (e: nat)
    ensures e <= |s| && AllWs(s[e..])
    ensures e > 0 ==> !Ws(s[e - 1])
  {
    if s == [] || !Ws(s[|s| - 1]) then |s| else
      var e := WsEnd(s[..|s| - 1]);
      assert s[e..] == s[..|s| - 1][e..] + [s[|s| - 1]];
      e
  }

  /** How much white space s begins with. */
  function WsStart(s: string): (k: nat)
    ensures k <= |s| && AllWs(s[..k])
    ensures k < |s| ==> !Ws(s[k])
  {
    if s == [] || !Ws(s[0]) then 0 else
      var k := WsStart(s[1..]);
      assert s[..k + 1] == [s[0]] + s[1..][..k];
      k + 1
  }

  /** Star, gap and name end for what comes before the state word. */
  function FindName(p: string): Option<(bool, nat, nat)> {
    var w := WsEnd(p);
    var starred := p != [] && p[0] == '*';
    var from := if starred then 1 else 0;
    if w > from then
      if |p| - w >= 2 then Some((starred, WsStart(p[from..]), w)) else None
    else
      // Nothing but white space: the name is one white-space character, or the star itself.
      var n := |p| - from;
      if n >= 3 then Some((starred, n - 3, |p| - 2))
      else if starred && n == 2 then Some((false, 0, 1))
      else None
  }

  /** The alternative s ends with; no word ends with another. */
  function FindWord(s: string): (i: nat)
    ensures i <= |WORDS|
    ensures i < |WORDS| ==> HasSuffix(s, WORDS[i])
    ensures forall k :: 0 <= k < |WORDS| && k != i ==> !HasSuffix(s, WORDS[k])
  {
    OneWordOnly(s);
    if HasSuffix(s, WORDS[0]) then 0
    else if HasSuffix(s, WORDS[1]) then 1
    else if HasSuffix(s, WORDS[2]) then 2
    else if HasSuffix(s, WORDS[3]) then 3
    else if HasSuffix(s, WORDS[4]) then 4
    else 5
  }

  /** Start of the state word, which word, and where the digit is. */
  function FindState(line: string): (found: Option<(nat, nat, nat)>)
    ensures found.Some? ==> found.value.0 <= |line|
  {
    var e := WsEnd(line);
    if e == 0 || line[e - 1] !in {'2', '1'} then None else
      var a := WsEnd(line[..e - 1]);
      var word := FindWord(line[..a]);
      if a == e - 1 || word == |WORDS| then None else Some((a - |WORDS[word]|, word, e - 1))
  }

  function FindRow(line: string): Option<Match> {
    match FindState(line)
    case None => None
    case Some((q, word, digit)) =>
      match FindName(line[..q])
      case None => None
      case Some((star, gap, nameEnd)) => Some(Match(star, gap, nameEnd, q, word, digit))
  }

  lemma SuffixLetter(s: string, k: nat, i: nat)
    requires k < |WORDS| && HasSuffix(s, WORDS[k]) && 1 <= i <= |WORDS[k]|
    ensures s[|s| - i] == WORDS[k][|WORDS[k]| - i]
  {
    assert s[|s| - |WORDS[k]|..][|WORDS[k]| - i] == s[|s| - i];
  }

  /** The words differ within their last ten letters. */
  lemma WordsDiffer(j: nat, k: nat) returns (i: nat)
    requires j < k < |WORDS|
    ensures 1 <= i <= |WORDS[j]| && i <= |WORDS[k]|
    ensures WORDS[j][|WORDS[j]| - i] != WORDS[k][|WORDS[k]| - i]
  {
    i := if j == 0 then 1 else if j == 1 || k == 4 then 4 else 10;
  }

  lemma OneWordOnly(s: string)
    ensures forall j, k :: 0 <= j < k < |WORDS| && HasSuffix(s, WORDS[j]) ==> !HasSuffix(s, WORDS[k])
  {
    forall j: nat, k: nat | 0 <= j < k < |WORDS| && HasSuffix(s, WORDS[j]) ensures !HasSuffix(s, WORDS[k]) {
      var i := WordsDiffer(j, k);
      SuffixLetter(s, j, i);
      if HasSuffix(s, WORDS[k]) {
        SuffixLetter(s, k, i);
      }
    }
  }

  // ------------------------------------------------------------------
  // The parser returns the match the search prefers

  lemma TailWs(s: string, e: nat, i: nat)
    requires e <= i < |s| && AllWs(s[e..])
    ensures Ws(s[i])
  {
    assert s[i] == s[e..][i - e];
  }

  lemma WsEndLeast(s: string, e: nat)
    requires e <= |s| && AllWs(s[e..])
    ensures WsEnd(s) <= e
  {
    forall i | e <= i < |s| ensures Ws(s[i]) {
      TailWs(s, e, i);
    }
  }

  lemma WsEndUnique(s: string, e: nat)
    requires e <= |s| && AllWs(s[e..]) && (e > 0 ==> !Ws(s[e - 1]))
    ensures WsEnd(s) == e
  {
    WsEndLeast(s, e);
    forall i | WsEnd(s) <= i < |s| ensures Ws(s[i]) {
      TailWs(s, WsEnd(s), i);
    }
  }

  lemma WsStartMost(s: string, k: nat)
    requires k <= |s| && AllWs(s[..k])
    ensures k <= WsStart(s)
  {
    var w := WsStart(s);
    assert forall i :: 0 <= i < k ==> s[i] == s[..k][i];
  }

  /** The state word, the digit and what follows can match in one place only. */
  lemma StateIsUnique(line: string, q: nat, word: nat, digit: nat)
    requires MatchesState(line, q, word, digit)
    ensures FindState(line) == Some((q, word, digit))
  {
    var a := q + |WORDS[word]|;
    WsEndUnique(line, digit + 1);
    GapEnds(line, q, word, digit);
    assert line[..a][q..] == WORDS[word];
    assert HasSuffix(line[..a], WORDS[word]);
    assert line[..digit][..a] == line[..a];
  }

  /** The white space in front of the digit begins where the word ends. */
  lemma GapEnds(line: string, q: nat, word: nat, digit: nat)
    requires MatchesState(line, q, word, digit)
    ensures WsEnd(line[..digit]) == q + |WORDS[word]|
  {
    var a := q + |WORDS[word]|;
    assert line[..digit][a..] == line[a..digit];
    assert line[a - 1] == line[q..a][|WORDS[word]| - 1] == WORDS[word][|WORDS[word]| - 1];
    WsEndUnique(line[..digit], a);
  }

  lemma FindNameMatches(p: string)
    requires FindName(p).Some?
    ensures
      var (star, gap, nameEnd) := FindName(p).value;
      MatchesName(p, star, gap, nameEnd)
  {
    var w := WsEnd(p);
    var from := if p != [] && p[0] == '*' then 1 else 0;
    var (star, gap, nameEnd) := FindName(p).value;
    if w > from {
      var body := p[from..];
      assert p[from..from + gap] == body[..gap];
      assert forall i :: from <= i < from + gap ==> p[i] == body[..gap][i - from];
    } else {
      assert forall i :: w <= i < |p| ==> Ws(p[i]) by {
        assert forall i :: w <= i < |p| ==> p[w..][i - w] == p[i];
      }
    }
  }

  /** No other way to match the name is preferred to the one found. */
  lemma FindNameIsFirst(p: string, star: bool, gap: nat, nameEnd: nat)
    requires MatchesName(p, star, gap, nameEnd)
    ensures FindName(p).Some?
    ensures
      var (star', gap', nameEnd') := FindName(p).value;
      (star' && !star) || (star' == star && (gap' > gap || (gap' == gap && nameEnd' <= nameEnd)))
  {
    var w := WsEnd(p);
    var starred := p != [] && p[0] == '*';
    var from := if starred then 1 else 0;
    WsEndLeast(p, nameEnd);
    if w > from {
      if star == starred {
        assert p[from..][..gap] == p[from..from + gap];
        WsStartMost(p[from..], gap);
      }
    } else if star == starred {
      assert gap + 3 <= |p| - from;
    } else {
      // Only the unstarred reading of a line that starts with a star is left.
      assert forall i :: 0 <= i < gap ==> p[i] == p[0..gap][i];
    }
  }

  /** FindRow finds a row exactly when the pattern matches, and then returns the
      one match that the search prefers to every other. */
  lemma FindRowIsTheMatch(line: string)
    ensures FindRow(line).Some? <==> exists m :: Matches(line, m)
    ensures FindRow(line).Some? ==>
              Matches(line, FindRow(line).value) &&
              forall m :: Matches(line, m) && m != FindRow(line).value ==> Preferred(FindRow(line).value, m)
  {
    if FindRow(line).Some? {
      FindRowMatches(line);
    }
    forall m | Matches(line, m)
      ensures FindRow(line).Some?
      ensures m == FindRow(line).value || Preferred(FindRow(line).value, m)
    {
      FindRowIsFirst(line, m);
    }
  }

  lemma FindStateMatches(line: string)
    requires FindState(line).Some?
    ensures
      var (q, word, digit) := FindState(line).value;
      MatchesState(line, q, word, digit)
  {
    var (q, word, digit) := FindState(line).value;
    var a := q + |WORDS[word]|;
    assert line[..digit][a..] == line[a..digit];
    assert line[..a][q..] == line[q..a];
  }

  lemma FindRowMatches(line: string)
    requires FindRow(line).Some?
    ensures Matches(line, FindRow(line).value)
  {
    FindStateMatches(line);
    FindNameMatches(line[..FindState(line).value.0]);
  }

  lemma FindRowIsFirst(line: string, m: Match)
    requires Matches(line, m)
    ensures FindRow(line).Some?
    ensures m == FindRow(line).value || Preferred(FindRow(line).value, m)
  {
    StateIsUnique(line, m.stateStart, m.word, m.digit);
    FindNameIsFirst(line[..m.stateStart], m.star, m.gap, m.nameEnd);
  }
}
