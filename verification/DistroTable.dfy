/** `wsl --list --verbose`: reading the table line by line, and the proof that a
    printed table reads back. */
module DistroTable {
  import opened GoStrings
  import opened Trimming
  import opened Lines
  import opened RowPattern

  datatype Distro = Distro(name: string, isDefault: bool, running: bool, version: int)

  /** U+FEFF in UTF-8. */
  const BOM: string := [0xEF as char, 0xBB as char, 0xBF as char]

  function TrimBom(s: string): string {
    if HasPrefix(s, BOM) then s[3..] else s
  }

  function Cleaned(raw: string): string {
    TrimSpace(TrimBom(raw))
  }

  /** A trimmed line; header, blank and unparseable lines give nothing. */
  function ParseCleaned(line: string): seq<Distro> {
    if line == "" || HasPrefix(line, "NAME") then [] else
      match FindRow(line)
      case None => []
      case Some(m) =>
        FindRowMatches(line);
        [Distro(TrimSpace(line[m.NameStart()..m.nameEnd]), m.star, WORDS[m.word] == "Running", if line[m.digit] == '2' then 2 else 1)]
  }

  function ParseLine(raw: string): seq<Distro> {
    ParseCleaned(Cleaned(raw))
  }

  function ParseTable(text: string): seq<Distro> {
    FromLines(ParseLine, text)
  }

  method ListDistros(text: string) returns (distros: seq<Distro>)
    ensures distros == ParseTable(text)
  {
    distros := CollectLines(ParseLine, text);
  }

  // ------------------------------------------------------------------
  // White space around the whole output does not matter

  lemma CleanedAppend(raw: string, w: string)
    requires IsSpaceRune(w)
    ensures Cleaned(raw + w) == Cleaned(raw)
  {
    SpaceRuneShape(w);
    var rw := raw + w;
    assert forall i :: 0 <= i < |raw| ==> rw[i] == raw[i];
    assert rw[|raw|] == w[0];
    if HasPrefix(raw, BOM) {
      assert rw[3..] == raw[3..] + w;
      TrimSpaceAppend(raw[3..], w);
    } else {
      assert !HasPrefix(rw, BOM);
      TrimSpaceAppend(raw, w);
    }
  }

  /** One byte-order mark in front of a line is ignored. */
  lemma MarkIgnored(raw: string)
    requires !HasPrefix(raw, BOM)
    ensures Cleaned(BOM + raw) == Cleaned(raw) && ParseLine(BOM + raw) == ParseLine(raw)
  {
    assert (BOM + raw)[3..] == raw;
  }

  lemma SameWhenCleaned(a: string, b: string)
    requires Cleaned(a) == Cleaned(b)
    ensures ParseLine(a) == ParseLine(b)
  {
  }

  lemma ParseLineIgnoresTrailingSpace()
    ensures IgnoresTrailingSpace(ParseLine)
  {
    assert Cleaned("") == "";
    forall raw: string, w: string | IsSpaceRune(w) ensures ParseLine(raw + w) == ParseLine(raw) {
      CleanedAppend(raw, w);
      SameWhenCleaned(raw + w, raw);
    }
  }
}
