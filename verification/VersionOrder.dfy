/** Migrations run in the order of their names. For names numbered with a common
    width that is the order of their versions. */
module VersionOrder {
  import opened Sets
  import opened GoStrings
  import opened Migrations

  /** width digits, an underscore, anything. */
  predicate Numbered(name: string, width: nat) {
    0 < width < |name| && AllDigits(name[..width]) && name[width] == '_'
  }

  lemma {:induction false} NoEarlierDot(name: string, width: nat, i: nat)
    requires Numbered(name, width) && width < i <= |name|
    ensures ExtStart(name, i) > width
  {
    if name[i - 1] != '/' && name[i - 1] != '\\' && name[i - 1] != '.' {
      if i - 1 > width {
        NoEarlierDot(name, width, i - 1);
      }
    }
  }

  lemma ParsesItsDigits(name: string, width: nat)
    requires Numbered(name, width)
    ensures ParseVersion(name) == Atoi(name[..width])
    ensures ParseVersion(name).Some? ==> ParseVersion(name).value == Decimal(name[..width])
  {
    NoEarlierDot(name, width, |name|);
    var base := Base(name);
    assert base[width] == '_';
    assert forall i :: 0 <= i < width ==> base[i] == name[..width][i] && IsDigit(base[i]);
    FirstIndex(base, '_', width);
    assert base[..width] == name[..width];
    assert IsDigit(name[..width][0]);
  }

  function Power10(n: nat): (p: nat)
    ensures p > 0
  {
    if n == 0 then 1 else 10 * Power10(n - 1)
  }

  function Digit(c: char): nat
    requires IsDigit(c)
  {
    c as int - '0' as int
  }

  lemma Regroup(d: nat, p: nat, rest: nat)
    ensures (d * p + rest) * 10 == d * (10 * p) + 10 * rest
  {
  }

  lemma {:induction false} LeadingDigit(s: string)
    requires s != [] && AllDigits(s)
    ensures AllDigits(s[1..])
    ensures Decimal(s) == Digit(s[0]) * Power10(|s| - 1) + Decimal(s[1..])
    ensures Decimal(s[1..]) < Power10(|s| - 1)
  {
    var n := |s| - 1;
    if n == 0 {
      assert s[..0] == [] && s[1..] == [];
    } else {
      var front, last := s[..n], s[n];
      LeadingDigit(front);
      assert front[1..] == s[1..][..n - 1] && front[0] == s[0];
      assert Decimal(s[1..]) == 10 * Decimal(front[1..]) + Digit(last);
      Regroup(Digit(s[0]), Power10(n - 1), Decimal(front[1..]));
    }
  }

  lemma LeadingDecides(x: nat, y: nat, p: nat, a: nat, b: nat)
    requires a < p && b < p
    ensures x < y ==> x * p + a < y * p + b
  {
    if x < y {
      assert (x + 1) * p <= y * p;
    }
  }

  /** Between numerals of one width, dictionary order is numeric order. */
  lemma {:induction false} NumeralOrder(a: string, b: string)
    requires |a| == |b| && AllDigits(a) && AllDigits(b)
    ensures Less(a, b) <==> Decimal(a) < Decimal(b)
  {
    if a != [] {
      LeadingDigit(a);
      LeadingDigit(b);
      NumeralOrder(a[1..], b[1..]);
      var p := Power10(|a| - 1);
      LeadingDecides(Digit(a[0]), Digit(b[0]), p, Decimal(a[1..]), Decimal(b[1..]));
      LeadingDecides(Digit(b[0]), Digit(a[0]), p, Decimal(b[1..]), Decimal(a[1..]));
    }
  }

  lemma {:induction false} LessByPrefix(a: string, b: string, width: nat)
    requires width <= |a| && width <= |b|
    ensures Less(a[..width], b[..width]) ==> Less(a, b)
    ensures Less(a, b) ==> Less(a[..width], b[..width]) || a[..width] == b[..width]
  {
    if width > 0 {
      LessByPrefix(a[1..], b[1..], width - 1);
      assert a[..width][1..] == a[1..][..width - 1] && b[..width][1..] == b[1..][..width - 1];
      assert a[..width] == [a[0]] + a[1..][..width - 1] && b[..width] == [b[0]] + b[1..][..width - 1];
    }
  }

  /** Names of one width sort by version: a smaller version comes first, and an
      earlier name never has a larger version. */
  lemma NameOrderIsVersionOrder(a: string, b: string, width: nat)
    requires Numbered(a, width) && Numbered(b, width)
    requires ParseVersion(a).Some? && ParseVersion(b).Some?
    ensures ParseVersion(a).value < ParseVersion(b).value ==> Less(a, b)
    ensures Less(a, b) ==> ParseVersion(a).value <= ParseVersion(b).value
  {
    ParsesItsDigits(a, width);
    ParsesItsDigits(b, width);
    NumeralOrder(a[..width], b[..width]);
    LessByPrefix(a, b, width);
  }

  /** SELECT COALESCE(MAX(version), 0) */
  function SchemaVersion(applied: set<int>): (v: int)
    ensures applied == {} ==> v == 0
    ensures applied != {} ==> v in applied && forall w :: w in applied ==> w <= v
  {
    if applied == {} then 0 else Max(applied)
  }

  ghost predicate AscendingVersions(names: seq<string>)
    requires AllParse(names)
  {
    forall i, j :: 0 <= i < j < |names| ==> ParseVersion(names[i]).value < ParseVersion(names[j]).value
  }

  lemma {:induction false} PendingMembers(names: seq<string>, seen: set<int>)
    ensures forall n :: n in Pending(names, seen) ==> n in names
    decreases |names|
  {
    if names != [] && ParseVersion(names[0]).Some? {
      PendingMembers(names[1..], seen);
      PendingMembers(names[1..], seen + {ParseVersion(names[0]).value});
    }
  }

  lemma LaterIsLarger(first: string, later: string, width: nat)
    requires Numbered(first, width) && Numbered(later, width) && !Less(later, first)
    requires ParseVersion(first).Some? && ParseVersion(later).Some?
    requires ParseVersion(first).value != ParseVersion(later).value
    ensures ParseVersion(first).value < ParseVersion(later).value
  {
    NameOrderIsVersionOrder(later, first, width);
  }

  /** What is pending is a subsequence of the names, so it keeps their order. */
  lemma {:induction false} PendingKeepsOrder(names: seq<string>, seen: set<int>, width: nat)
    requires SortedNames(names) && forall i :: 0 <= i < |names| ==> Numbered(names[i], width)
    ensures AllParse(Pending(names, seen)) && AscendingVersions(Pending(names, seen))
    decreases |names|
  {
    PlanIsDistinct(names, seen);
    if names != [] && ParseVersion(names[0]).Some? {
      var v := ParseVersion(names[0]).value;
      assert SortedNames(names[1..]);
      if v in seen {
        PendingKeepsOrder(names[1..], seen, width);
      } else {
        var rest := Pending(names[1..], seen + {v});
        PendingKeepsOrder(names[1..], seen + {v}, width);
        PlanIsDistinct(names[1..], seen + {v});
        forall j | 0 <= j < |rest| ensures v < ParseVersion(rest[j]).value {
          RestIsLarger(names, seen + {v}, width, j);
        }
        AscendingCons(names[0], rest);
      }
    }
  }

  lemma RestIsLarger(names: seq<string>, seen: set<int>, width: nat, j: nat)
    requires SortedNames(names) && forall i :: 0 <= i < |names| ==> Numbered(names[i], width)
    requires names != [] && ParseVersion(names[0]).Some? && ParseVersion(names[0]).value in seen
    requires j < |Pending(names[1..], seen)|
    ensures
      var next := Pending(names[1..], seen)[j];
      ParseVersion(next).Some? && ParseVersion(names[0]).value < ParseVersion(next).value
  {
    var rest := Pending(names[1..], seen);
    PlanIsDistinct(names[1..], seen);
    PendingMembers(names[1..], seen);
    assert rest[j] in rest && ParseVersion(rest[j]).value in Versions(rest);
    var k :| 0 <= k < |names| - 1 && names[1..][k] == rest[j];
    assert names[k + 1] == rest[j];
    LaterIsLarger(names[0], rest[j], width);
  }

  lemma AscendingCons(first: string, rest: seq<string>)
    requires ParseVersion(first).Some? && AllParse(rest) && AscendingVersions(rest)
    requires forall j :: 0 <= j < |rest| ==> ParseVersion(first).value < ParseVersion(rest[j]).value
    ensures AllParse([first] + rest) && AscendingVersions([first] + rest)
  {
  }

  lemma PlanInVersionOrder(files: seq<string>, width: nat)
    requires forall i :: 0 <= i < |files| ==> Numbered(files[i], width)
    ensures AllParse(Plan(files)) && AscendingVersions(Plan(files))
  {
    SortSorts(files);
    var sorted := SortNames(files);
    forall i | 0 <= i < |sorted| ensures Numbered(sorted[i], width) {
      assert sorted[i] in multiset(sorted) && multiset(sorted) == multiset(files);
      assert sorted[i] in files;
    }
    PendingKeepsOrder(sorted, {}, width);
  }

  /** With equal widths, migrations are committed in ascending version order,
      and SchemaVersion is the version of the last one committed. */
  lemma CommittedInVersionOrder(files: seq<string>, envs: seq<nat -> Reply>, width: nat)
    requires forall i :: 0 <= i < |files| ==> Numbered(files[i], width)
    ensures
      var db := Runs(FRESH, files, envs);
      && AllParse(db.effects) && AscendingVersions(db.effects)
      && SchemaVersion(db.applied) ==
           if db.effects == [] then 0 else ParseVersion(db.effects[|db.effects| - 1]).value
  {
    AlwaysAPrefix(files, envs);
    PlanInVersionOrder(files, width);
    PrefixAscends(Runs(FRESH, files, envs).effects, Plan(files));
  }

  lemma PrefixAscends(done: seq<string>, plan: seq<string>)
    requires done <= plan && AllParse(plan) && AscendingVersions(plan)
    ensures AllParse(done) && AscendingVersions(done)
    ensures SchemaVersion(Versions(done)) == if done == [] then 0 else ParseVersion(done[|done| - 1]).value
  {
    assert forall i :: 0 <= i < |done| ==> done[i] == plan[i];
    if done != [] {
      LastIsLargest(done);
    } else {
      assert Versions(done) == {};
    }
  }

  lemma LastIsLargest(names: seq<string>)
    requires names != [] && AllParse(names) && AscendingVersions(names)
    ensures SchemaVersion(Versions(names)) == ParseVersion(names[|names| - 1]).value
  {
    var vs, last := Versions(names), ParseVersion(names[|names| - 1]).value;
    assert names[|names| - 1] in names;
    forall name | name in names ensures ParseVersion(name).value <= last {
      var i :| 0 <= i < |names| && names[i] == name;
    }
    SchemaVersionIs(vs, last);
  }

  lemma SchemaVersionIs(applied: set<int>, v: int)
    requires v in applied && forall w :: w in applied ==> w <= v
    ensures SchemaVersion(applied) == v
  {
  }

  // ------------------------------------------------------------------
  // Unequal widths

  /** y without its last k digits. */
  function Cut(y: nat, k: nat): (start: nat)
    ensures start <= y
  {
    if k == 0 then y else Cut(y / 10, k - 1)
  }

  lemma {:induction false} CutIsDivision(y: nat, k: nat)
    ensures Cut(y, k) == y / Power10(k)
  {
    if k > 0 {
      CutIsDivision(y / 10, k - 1);
      var p, x := Power10(k - 1), y / 10;
      var q, r := x / p, x % p;
      assert x == q * p + r;
      Regroup(q, p, r);
      QuotientIs(y, 10 * p, q, 10 * r + y % 10);
    }
  }

  lemma QuotientIs(x: nat, p: nat, q: nat, r: nat)
    requires p > 0 && r < p && x == q * p + r
    ensures x / p == q
  {
    LeadingDecides(x / p, q, p, x % p, r);
    LeadingDecides(q, x / p, p, r, x % p);
  }

  lemma {:induction false} NumeralPrefix(s: string, m: nat)
    requires AllDigits(s) && m <= |s|
    ensures AllDigits(s[..m]) && Decimal(s[..m]) == Cut(Decimal(s), |s| - m)
    decreases |s|
  {
    if m == |s| {
      assert s[..m] == s;
    } else {
      var n := |s| - 1;
      NumeralPrefix(s[..n], m);
      assert s[..n][..m] == s[..m];
    }
  }

  lemma {:induction false} UnderscoreLast(a: string, b: string, m: nat)
    requires m < |a| && m < |b| && a[..m] == b[..m] && a[m] == '_' && IsDigit(b[m])
    ensures !Less(a, b)
  {
    if m > 0 {
      assert a[0] == a[..m][0] && b[0] == b[..m][0];
      assert a[1..][..m - 1] == a[..m][1..] && b[1..][..m - 1] == b[..m][1..];
      UnderscoreLast(a[1..], b[1..], m - 1);
    }
  }

  /** How many digits a name starts with. */
  function Width(name: string): nat {
    if name == "" || !IsDigit(name[0]) then 0 else 1 + Width(name[1..])
  }

  predicate HasNumeral(name: string) {
    Numbered(name, Width(name))
  }

  /** The number a name starts with; its version, if that fits an int64. */
  function Numeral(name: string): nat
    requires HasNumeral(name)
  {
    Decimal(name[..Width(name)])
  }

  /** a has the smaller number and the shorter numeral, and yet sorts after b. */
  predicate Misplaced(a: string, b: string)
    requires HasNumeral(a) && HasNumeral(b)
  {
    Width(a) < Width(b) && Cut(Numeral(b), Width(b) - Width(a)) <= Numeral(a) < Numeral(b)
  }

  lemma NumeralsDecide(a: string, m: nat, b: string, n: nat)
    requires m < n && Numbered(a, m) && Numbered(b, n)
    ensures Less(a, b) <==> Decimal(a[..m]) < Cut(Decimal(b[..n]), n - m)
  {
    var p, q := a[..m], b[..m];
    NumeralPrefix(b[..n], m);
    assert b[..n][..m] == q;
    NumeralOrder(p, q);
    LessByPrefix(a, b, m);
    if p == q {
      UnderscoreLast(a, b, m);
    }
  }

  lemma EqualWidths(a: string, b: string, m: nat)
    requires Numbered(a, m) && Numbered(b, m) && Decimal(a[..m]) < Decimal(b[..m])
    ensures Less(a, b)
  {
    NumeralOrder(a[..m], b[..m]);
    LessByPrefix(a, b, m);
  }

  /** A shorter numeral comes first exactly when it is smaller than what the
      longer one begins with: an underscore sorts after every digit. */
  lemma ShorterFirst(a: string, b: string)
    requires HasNumeral(a) && HasNumeral(b) && Width(a) < Width(b)
    ensures Less(a, b) <==> Numeral(a) < Cut(Numeral(b), Width(b) - Width(a))
  {
    NumeralsDecide(a, Width(a), b, Width(b));
  }

  /** For numbered names of any widths, the order of names contradicts the order
      of numbers exactly when the pair is misplaced. */
  lemma NameOrderFailsIff(a: string, b: string)
    requires HasNumeral(a) && HasNumeral(b) && Numeral(a) < Numeral(b)
    ensures Less(b, a) <==> Misplaced(a, b)
    ensures Less(a, b) <==> !Misplaced(a, b)
  {
    LessTotal(a, b);
    if Width(a) < Width(b) {
      ShorterFirst(a, b);
    } else if Width(a) == Width(b) {
      EqualWidths(a, b, Width(a));
    } else {
      ShorterFirst(b, a);
    }
  }

  /** A numbered name with a version: its number fits an int64. */
  predicate Versioned(name: string) {
    HasNumeral(name) && ParseVersion(name) == Some(Numeral(name))
  }

  /** A numbered name has its number for a version, or none when that is too big. */
  lemma VersionIsNumeral(name: string)
    requires HasNumeral(name)
    ensures Versioned(name) <==> ParseVersion(name).Some?
    ensures Versioned(name) <==> Numeral(name) < 0x8000_0000_0000_0000
  {
    ParsesItsDigits(name, Width(name));
  }

  /** In terms of versions: the shorter name comes first exactly when its version
      is below the other one divided down to its width. */
  lemma ShorterNameFirst(a: string, b: string)
    requires Versioned(a) && Versioned(b) && Width(a) < Width(b)
    ensures Less(a, b) <==>
              ParseVersion(a).value < ParseVersion(b).value / Power10(Width(b) - Width(a))
  {
    ShorterNumeralFirst(a, b);
    VersionIs(a);
    VersionIs(b);
  }

  lemma VersionIs(name: string)
    requires Versioned(name)
    ensures ParseVersion(name).Some? && ParseVersion(name).value == Numeral(name)
  {
  }

  lemma ShorterNumeralFirst(a: string, b: string)
    requires HasNumeral(a) && HasNumeral(b) && Width(a) < Width(b)
    ensures Less(a, b) <==> Numeral(a) < Numeral(b) / Power10(Width(b) - Width(a))
  {
    ShorterFirst(a, b);
    BelowCut(Numeral(a), Numeral(b), Width(b) - Width(a));
  }

  lemma BelowCut(m: nat, n: nat, digits: nat)
    ensures m < Cut(n, digits) <==> m < n / Power10(digits)
  {
    CutIsDivision(n, digits);
  }

  // ------------------------------------------------------------------
  // Plans over names of any widths

  lemma {:induction false} PendingSorted(names: seq<string>, seen: set<int>)
    requires SortedNames(names)
    ensures SortedNames(Pending(names, seen))
    decreases |names|
  {
    if names != [] && ParseVersion(names[0]).Some? {
      var v := ParseVersion(names[0]).value;
      assert SortedNames(names[1..]);
      PendingSorted(names[1..], seen);
      PendingSorted(names[1..], seen + {v});
      PendingMembers(names[1..], seen + {v});
      SortedCons(names, Pending(names[1..], seen + {v}));
    }
  }

  lemma SortedCons(names: seq<string>, rest: seq<string>)
    requires names != [] && SortedNames(names) && SortedNames(rest)
    requires forall n :: n in rest ==> n in names[1..]
    ensures SortedNames([names[0]] + rest)
  {
    forall j | 0 <= j < |rest| ensures !Less(rest[j], names[0]) {
      assert rest[j] in names[1..];
      var k :| 0 <= k < |names| - 1 && names[1..][k] == rest[j];
      assert names[k + 1] == rest[j];
    }
  }

  /** Of two names in order with different numbers, the later one may be misplaced. */
  lemma InOrder(first: string, later: string)
    requires HasNumeral(first) && HasNumeral(later) && !Less(later, first)
    requires Numeral(first) != Numeral(later)
    ensures !Misplaced(first, later)
    ensures Numeral(first) < Numeral(later) <==> !Misplaced(later, first)
  {
    if Numeral(first) < Numeral(later) {
      NameOrderFailsIff(first, later);
    } else {
      NameOrderFailsIff(later, first);
    }
  }

  lemma NeverMisplacedItself(a: string)
    requires HasNumeral(a)
    ensures !Misplaced(a, a)
  {
  }

  predicate AllNumbered(names: seq<string>) {
    forall i :: 0 <= i < |names| ==> HasNumeral(names[i])
  }

  predicate AllFit(names: seq<string>) {
    AllNumbered(names) && forall i :: 0 <= i < |names| ==> Versioned(names[i])
  }

  ghost predicate NoneMisplaced(names: seq<string>)
    requires AllNumbered(names)
  {
    forall i, j :: 0 <= i < |names| && 0 <= j < |names| ==> !Misplaced(names[i], names[j])
  }

  ghost predicate AscendingNumerals(names: seq<string>)
    requires AllNumbered(names)
  {
    forall i, j :: 0 <= i < j < |names| ==> Numeral(names[i]) < Numeral(names[j])
  }

  ghost predicate DistinctNumerals(names: seq<string>)
    requires AllNumbered(names)
  {
    forall i, j :: 0 <= i < j < |names| ==> Numeral(names[i]) != Numeral(names[j])
  }

  /** In a sorted list of distinct numbers they ascend exactly when no pair is misplaced. */
  lemma SortedAscendsIff(names: seq<string>)
    requires SortedNames(names) && AllNumbered(names) && DistinctNumerals(names)
    ensures AscendingNumerals(names) <==> NoneMisplaced(names)
  {
    forall i, j | 0 <= i < j < |names|
      ensures !Misplaced(names[i], names[j])
      ensures Numeral(names[i]) < Numeral(names[j]) <==> !Misplaced(names[j], names[i])
    {
      InOrder(names[i], names[j]);
    }
    forall i | 0 <= i < |names| ensures !Misplaced(names[i], names[i]) {
      NeverMisplacedItself(names[i]);
    }
  }

  lemma VersionsAreNumerals(names: seq<string>)
    requires AllFit(names) && AllParse(names)
    ensures AscendingVersions(names) <==> AscendingNumerals(names)
    ensures DistinctVersions(names) <==> DistinctNumerals(names)
  {
    assert forall i :: 0 <= i < |names| ==> ParseVersion(names[i]) == Some(Numeral(names[i])) by {
      assert forall i :: 0 <= i < |names| ==> Versioned(names[i]);
    }
  }

  lemma PlanIsFromFiles(files: seq<string>)
    requires AllFit(files)
    ensures AllFit(Plan(files)) && SortedNames(Plan(files))
  {
    var sorted, plan := SortNames(files), Plan(files);
    SortSorts(files);
    PendingSorted(sorted, {});
    PendingMembers(sorted, {});
    forall i | 0 <= i < |plan| ensures HasNumeral(plan[i]) && Versioned(plan[i]) {
      assert plan[i] in sorted && plan[i] in multiset(sorted) && multiset(sorted) == multiset(files);
      assert plan[i] in files;
    }
  }

  /** For files numbered with any widths, the plan commits versions in ascending
      order if and only if none of its pairs is misplaced. */
  lemma PlanAscendsIff(files: seq<string>)
    requires AllFit(files)
    ensures AllParse(Plan(files)) && AllNumbered(Plan(files))
    ensures AscendingVersions(Plan(files)) <==> NoneMisplaced(Plan(files))
  {
    PlanIsFromFiles(files);
    PlanIsDistinct(SortNames(files), {});
    VersionsAreNumerals(Plan(files));
    SortedAscendsIff(Plan(files));
  }

  /** An instance: version 10 sorts before version 9. */
  lemma UnequalWidthsBreakIt()
    ensures ParseVersion("10_b.sql") == Some(10) && ParseVersion("9_a.sql") == Some(9)
    ensures SortNames(["9_a.sql", "10_b.sql"]) == ["10_b.sql", "9_a.sql"]
  {
    ParseTen();
    ParseNine();
    assert ["9_a.sql", "10_b.sql"][1..] == ["10_b.sql"];
    assert SortNames(["10_b.sql"]) == ["10_b.sql"];
    assert !Less("9_a.sql", "10_b.sql");
  }

  lemma ParseTen()
    ensures ParseVersion("10_b.sql") == Some(10)
  {
    ParsesItsDigits("10_b.sql", 2);
    assert "10_b.sql"[..2] == "10" && "10"[..1] == "1" && "1"[..0] == "";
    assert Decimal("1") == 1;
    assert Decimal("10") == 10;
  }

  lemma ParseNine()
    ensures ParseVersion("9_a.sql") == Some(9)
  {
    ParsesItsDigits("9_a.sql", 1);
    assert "9_a.sql"[..1] == "9" && "9"[..0] == "";
    assert Decimal("9") == 9;
  }
}
