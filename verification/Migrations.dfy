/** Applying the embedded schema migrations: sorted by file name, each in its
    own transaction, restarted after a failure at any statement. */
module Migrations {
  import opened GoStrings

  // ------------------------------------------------------------------
  // File names

  function ExtStart(name: string, i: nat): (start: nat)
    requires i <= |name|
    ensures start <= |name|
    ensures start < |name| ==> name[start] == '.'
    decreases i
  {
    if i == 0 || name[i - 1] == '/' || name[i - 1] == '\\' then |name|
    else if name[i - 1] == '.' then i - 1
    else ExtStart(name, i - 1)
  }

  /** name without filepath.Ext(name): what comes before the last dot. */
  function Base(name: string): string {
    name[..ExtStart(name, |name|)]
  }

  function ParseVersion(name: string): Option<int> {
    var idx := IndexOf(Base(name), '_');
    if idx < 0 then None else Atoi(Base(name)[..idx])
  }

  ghost predicate SortedNames(names: seq<string>) {
    forall i, j :: 0 <= i < j < |names| ==> !Less(names[j], names[i])
  }

  lemma {:induction false} LessTotal(a: string, b: string)
    ensures !Less(a, a)
    ensures Less(a, b) ==> !Less(b, a)
    ensures a == b || Less(a, b) || Less(b, a)
  {
    if a != [] {
      LessTotal(a[1..], if b == [] then [] else b[1..]);
      if b != [] && a[0] == b[0] {
        assert a == [a[0]] + a[1..] && b == [b[0]] + b[1..];
      }
    }
  }

  lemma {:induction false} LessTransitive(a: string, b: string, c: string)
    requires !Less(b, a) && !Less(c, b)
    ensures !Less(c, a)
  {
    if a != [] && b != [] && c != [] {
      if a[0] == b[0] == c[0] {
        LessTransitive(a[1..], b[1..], c[1..]);
      }
    }
  }

  function Insert(name: string, sorted: seq<string>): (r: seq<string>)
    ensures multiset(r) == multiset(sorted) + multiset{name}
    ensures |r| == |sorted| + 1
  {
    if sorted == [] || Less(name, sorted[0]) then [name] + sorted
    else
      assert sorted == [sorted[0]] + sorted[1..];
      [sorted[0]] + Insert(name, sorted[1..])
  }

  /** sort.Slice by name. */
  function SortNames(names: seq<string>): (r: seq<string>)
    ensures multiset(r) == multiset(names)
    ensures |r| == |names|
  {
    if names == [] then [] else
      assert names == [names[0]] + names[1..];
      Insert(names[0], SortNames(names[1..]))
  }

  lemma {:induction false} InsertSorts(name: string, sorted: seq<string>)
    requires SortedNames(sorted)
    ensures SortedNames(Insert(name, sorted))
  {
    var r := Insert(name, sorted);
    if sorted == [] {
    } else if Less(name, sorted[0]) {
      LessTotal(name, sorted[0]);
      forall j | 0 <= j < |sorted| ensures !Less(sorted[j], name) {
        LessTotal(sorted[0], sorted[0]);
        LessTransitive(name, sorted[0], sorted[j]);
      }
    } else {
      assert SortedNames(sorted[1..]);
      InsertSorts(name, sorted[1..]);
      forall j | 1 <= j < |r| ensures !Less(r[j], sorted[0]) {
        assert r[j] in multiset(r[1..]) && multiset(r[1..]) == multiset(sorted[1..]) + multiset{name};
        if r[j] != name {
          assert r[j] in sorted[1..];
        }
      }
    }
  }

  lemma {:induction false} SortSorts(names: seq<string>)
    ensures SortedNames(SortNames(names))
  {
    if names != [] {
      SortSorts(names[1..]);
      InsertSorts(names[0], SortNames(names[1..]));
    }
  }

  // ------------------------------------------------------------------
  // One run, with a fault at any statement

  /** What a statement does: it works, it fails without effect, or it takes
      effect and the caller still gets an error (or dies before hearing). Only
      for COMMIT does the last one differ from a failure: everything before it
      is rolled back. */
  datatype Reply = Done | Failed | DoneUnheard

  /** schema_migrations, and the migrations whose effects are committed, in order. */
  datatype Schema = Schema(applied: set<int>, effects: seq<string>)

  /** BEGIN, the migration's SQL, INSERT INTO schema_migrations, COMMIT: statements
      k .. k + 3. The insert also fails when the version is already there, since
      it is the primary key. */
  function Apply(db: Schema, name: string, v: int, env: nat -> Reply, k: nat): (Schema, bool) {
    if env(k) != Done || env(k + 1) != Done || env(k + 2) != Done || v in db.applied || env(k + 3) == Failed
    then (db, false)
    else (Schema(db.applied + {v}, db.effects + [name]), env(k + 3) == Done)
  }

  /** The loop over the sorted names; `seen` was read once at the start of the run. */
  function RunFrom(db: Schema, names: seq<string>, seen: set<int>, env: nat -> Reply, k: nat): (Schema, bool)
    decreases |names|
  {
    if names == [] then (db, true) else
      match ParseVersion(names[0])
      case None => (db, false)
      case Some(v) =>
        if v in seen then RunFrom(db, names[1..], seen, env, k) else
          var (next, ok) := Apply(db, names[0], v, env, k);
          if ok then RunFrom(next, names[1..], seen, env, k + 4) else (next, false)
  }

  /** Statement 0 creates schema_migrations, statement 1 reads it. */
  function Run(db: Schema, files: seq<string>, env: nat -> Reply): (Schema, bool) {
    if env(0) != Done || env(1) != Done then (db, false)
    else RunFrom(db, SortNames(files), db.applied, env, 2)
  }

  class Database {
    var applied: set<int>
    var effects: seq<string>

    constructor ()
      ensures applied == {} && effects == []
    {
      applied, effects := {}, [];
    }

    method Migrate(files: seq<string>, env: nat -> Reply) returns (ok: bool)
      modifies this
      ensures (Schema(applied, effects), ok) == Run(Schema(old(applied), old(effects)), files, env)
    {
      if env(0) != Done || env(1) != Done {
        return false;
      }
      var seen := applied;
      var entries := SortNames(files);
      var i, k := 0, 2;
      while i < |entries|
        invariant 0 <= i <= |entries|
        invariant RunFrom(Schema(applied, effects), entries[i..], seen, env, k)
               == RunFrom(Schema(old(applied), old(effects)), entries, seen, env, 2)
      {
        var e := entries[i];
        assert entries[i..][0] == e && entries[i..][1..] == entries[i + 1..];
        var v := ParseVersion(e);
        if v.None? {
          return false;
        }
        i := i + 1;
        if v.value !in seen {
          // The transaction: nothing is kept unless the commit goes through.
          var begin, sql, insert, commit := env(k), env(k + 1), env(k + 2), env(k + 3);
          if begin != Done || sql != Done || insert != Done || v.value in applied || commit == Failed {
            return false;
          }
          applied, effects := applied + {v.value}, effects + [e];
          if commit != Done {
            return false;
          }
          k := k + 4;
        }
      }
      return true;
    }
  }

  // ------------------------------------------------------------------
  // Any number of runs

  function Runs(db: Schema, files: seq<string>, envs: seq<nat -> Reply>): Schema {
    if envs == [] then db else Run(Runs(db, files, envs[..|envs| - 1]), files, envs[|envs| - 1]).0
  }

  function Versions(names: seq<string>): set<int> {
    set name | name in names && ParseVersion(name).Some? :: ParseVersion(name).value
  }

  /** The names that introduce a version, in order, up to the first name that
      does not parse. */
  function Pending(names: seq<string>, seen: set<int>): seq<string> {
    if names == [] then [] else
      match ParseVersion(names[0])
      case None => []
      case Some(v) => if v in seen then Pending(names[1..], seen) else [names[0]] + Pending(names[1..], seen + {v})
  }

  function Plan(files: seq<string>): seq<string> {
    Pending(SortNames(files), {})
  }

  ghost predicate AllParse(names: seq<string>) {
    forall i :: 0 <= i < |names| ==> ParseVersion(names[i]).Some?
  }

  lemma VersionsAppend(names: seq<string>, name: string)
    requires ParseVersion(name).Some?
    ensures Versions(names + [name]) == Versions(names) + {ParseVersion(name).value}
  {
    forall v | v in Versions(names) + {ParseVersion(name).value} ensures v in Versions(names + [name]) {
      var n :| (n in names || n == name) && ParseVersion(n).Some? && ParseVersion(n).value == v;
      assert n in names + [name];
    }
  }

  /** A run moves the schema forward along `target`, to its end when it reports success. */
  ghost predicate Advances(db: Schema, after: Schema, ok: bool, target: seq<string>) {
    && db.effects <= after.effects <= target
    && after.applied == Versions(after.effects)
    && (ok ==> after.effects == target)
  }

  lemma Regroup(head: seq<string>, name: string, rest: seq<string>)
    ensures head + ([name] + rest) == head + [name] + rest
  {
  }

  lemma TargetStep(head: seq<string>, names: seq<string>)
    requires names != [] && ParseVersion(names[0]).Some?
    ensures
      var known := ParseVersion(names[0]).value in Versions(head);
      var next := if known then head else head + [names[0]];
      head + Pending(names, Versions(head)) == next + Pending(names[1..], Versions(next))
  {
    var v, passed := ParseVersion(names[0]).value, Versions(head);
    if v !in passed {
      VersionsAppend(head, names[0]);
      var after := Versions(head + [names[0]]);
      assert after == passed + {v};
      Regroup(head, names[0], Pending(names[1..], after));
    }
  }

  lemma PrefixVersions(names: seq<string>, all: seq<string>)
    requires names <= all
    ensures Versions(names) <= Versions(all)
  {
    assert all == names + all[|names|..];
    VersionsMonotone(names, all[|names|..]);
  }

  /** `head` is what the names already passed introduced; the schema holds those
      and perhaps, from an earlier run, some of what is to come. */
  lemma {:induction false} RunFromKeeps(db: Schema, head: seq<string>, target: seq<string>, names: seq<string>,
                                        seen: set<int>, env: nat -> Reply, k: nat)
    requires head <= db.effects <= target && target == head + Pending(names, Versions(head))
    requires db.applied == Versions(db.effects) && seen <= db.applied
    ensures
      var (after, ok) := RunFrom(db, names, seen, env, k);
      Advances(db, after, ok, target) && (ok ==> AllParse(names))
    decreases |names|
  {
    if names != [] && ParseVersion(names[0]).Some? {
      var v := ParseVersion(names[0]).value;
      TargetStep(head, names);
      PrefixVersions(head, db.effects);
      var next := if v in Versions(head) then head else head + [names[0]];
      if v in seen {
        // A version passed before, or one applied by an earlier run.
        assert next <= db.effects by { NextIsApplied(db, head, target, names); }
        RunFromKeeps(db, next, target, names[1..], seen, env, k);
      } else {
        var (after, ok) := Apply(db, names[0], v, env, k);
        if after != db {
          assert db.effects == head by { NextIsFree(db, head, target, names); }
          VersionsAppend(db.effects, names[0]);
          assert next <= target;
          if ok {
            RunFromKeeps(after, next, target, names[1..], seen, env, k + 4);
          }
        }
      }
    }
  }

  lemma NextIsApplied(db: Schema, head: seq<string>, target: seq<string>, names: seq<string>)
    requires names != [] && ParseVersion(names[0]).Some?
    requires head <= db.effects <= target && target == head + Pending(names, Versions(head))
    requires ParseVersion(names[0]).value in Versions(db.effects)
    ensures ParseVersion(names[0]).value !in Versions(head) ==> head + [names[0]] <= db.effects
  {
    if ParseVersion(names[0]).value !in Versions(head) {
      assert |db.effects| > |head|;
      assert target[|head|] == names[0];
    }
  }

  lemma NextIsFree(db: Schema, head: seq<string>, target: seq<string>, names: seq<string>)
    requires names != [] && ParseVersion(names[0]).Some?
    requires head <= db.effects <= target && target == head + Pending(names, Versions(head))
    requires ParseVersion(names[0]).value !in Versions(db.effects)
    ensures db.effects == head
  {
    PrefixVersions(head, db.effects);
    assert target[|head|] == names[0] && names[0] !in db.effects;
    assert forall i :: 0 <= i < |db.effects| ==> db.effects[i] == target[i];
  }

  lemma VersionsMonotone(names: seq<string>, more: seq<string>)
    ensures Versions(names) <= Versions(names + more)
  {
    forall v | v in Versions(names) ensures v in Versions(names + more) {
      var n :| n in names && ParseVersion(n).Some? && ParseVersion(n).value == v;
      assert n in names + more;
    }
  }

  // ------------------------------------------------------------------
  // Main results

  const FRESH := Schema({}, [])

  ghost predicate Applied(db: Schema, files: seq<string>) {
    db.effects <= Plan(files) && db.applied == Versions(db.effects)
  }

  lemma OneRun(db: Schema, files: seq<string>, env: nat -> Reply)
    requires Applied(db, files)
    ensures
      var (after, ok) := Run(db, files, env);
      Advances(db, after, ok, Plan(files)) && (ok ==> AllParse(SortNames(files)))
  {
    if env(0) == Done && env(1) == Done {
      assert [] + Plan(files) == Plan(files);
      assert Versions([]) == {};
      RunFromKeeps(db, [], Plan(files), SortNames(files), db.applied, env, 2);
    }
  }

  /** After any runs, each failing at any statement, what is committed is a
      prefix of the plan, recorded exactly. */
  lemma {:induction false} AlwaysAPrefix(files: seq<string>, envs: seq<nat -> Reply>)
    ensures Applied(Runs(FRESH, files, envs), files)
  {
    if envs == [] {
      assert Versions([]) == {};
    } else {
      AlwaysAPrefix(files, envs[..|envs| - 1]);
      OneRun(Runs(FRESH, files, envs[..|envs| - 1]), files, envs[|envs| - 1]);
    }
  }

  /** A run that reports success has committed the whole plan, and every later
      run, however it fares, leaves the schema as it is. */
  lemma SuccessIsFinal(files: seq<string>, envs: seq<nat -> Reply>, env: nat -> Reply, later: nat -> Reply)
    requires Run(Runs(FRESH, files, envs), files, env).1
    ensures
      var db := Run(Runs(FRESH, files, envs), files, env).0;
      db.effects == Plan(files) && AllParse(SortNames(files)) && Run(db, files, later).0 == db
  {
    AlwaysAPrefix(files, envs);
    OneRun(Runs(FRESH, files, envs), files, env);
    OneRun(Run(Runs(FRESH, files, envs), files, env).0, files, later);
  }

  ghost predicate DistinctVersions(names: seq<string>) {
    forall i, j :: 0 <= i < j < |names| ==> ParseVersion(names[i]) != ParseVersion(names[j])
  }

  /** No version is planned twice, so no migration is committed twice. */
  lemma DistinctCons(first: string, rest: seq<string>, v: int, seen: set<int>)
    requires ParseVersion(first) == Some(v) && v !in seen
    requires AllParse(rest) && DistinctVersions(rest) && Versions(rest) !! seen + {v}
    ensures AllParse([first] + rest) && DistinctVersions([first] + rest)
    ensures Versions([first] + rest) !! seen
  {
    forall j | 0 <= j < |rest| ensures ParseVersion(rest[j]).value != v {
      assert rest[j] in rest && ParseVersion(rest[j]).value in Versions(rest);
    }
    forall w | w in Versions([first] + rest) ensures w !in seen {
      assert w == v || w in Versions(rest);
    }
  }

  lemma {:induction false} PlanIsDistinct(names: seq<string>, seen: set<int>)
    ensures AllParse(Pending(names, seen)) && DistinctVersions(Pending(names, seen))
    ensures Versions(Pending(names, seen)) !! seen
    decreases |names|
  {
    if names != [] && ParseVersion(names[0]).Some? {
      var v := ParseVersion(names[0]).value;
      if v in seen {
        PlanIsDistinct(names[1..], seen);
      } else {
        PlanIsDistinct(names[1..], seen + {v});
        DistinctCons(names[0], Pending(names[1..], seen + {v}), v, seen);
      }
    }
  }

  lemma EachAtMostOnce(files: seq<string>, envs: seq<nat -> Reply>)
    ensures DistinctVersions(Runs(FRESH, files, envs).effects)
  {
    AlwaysAPrefix(files, envs);
    PlanIsDistinct(SortNames(files), {});
    var done := Runs(FRESH, files, envs).effects;
    assert forall i :: 0 <= i < |done| ==> done[i] == Plan(files)[i];
  }

  /** Nothing is left out of the plan exactly when every name parses and no two
      share a version. With a shared version the later file is never applied,
      although the second run reports success. */
  lemma {:induction false} PlanIsEverything(names: seq<string>, seen: set<int>)
    ensures Pending(names, seen) == names <==>
              AllParse(names) && DistinctVersions(names) && Versions(names) !! seen
    ensures |Pending(names, seen)| <= |names|
    decreases |names|
  {
    if names != [] && ParseVersion(names[0]).Some? {
      var v := ParseVersion(names[0]).value;
      assert names == [names[0]] + names[1..];
      assert names[0] in names && v in Versions(names);
      if v in seen {
        PlanIsEverything(names[1..], seen);
      } else {
        PlanIsEverything(names[1..], seen + {v});
        SplitVersions(names);
      }
    }
  }

  lemma SplitVersions(names: seq<string>)
    requires names != [] && ParseVersion(names[0]).Some?
    ensures Versions(names) == {ParseVersion(names[0]).value} + Versions(names[1..])
    ensures AllParse(names[1..]) ==>
              (DistinctVersions(names) <==>
                 DistinctVersions(names[1..]) && ParseVersion(names[0]).value !in Versions(names[1..]))
  {
    var v := ParseVersion(names[0]).value;
    assert names == [names[0]] + names[1..];
    forall w | w in {v} + Versions(names[1..]) ensures w in Versions(names) {
      var n :| (n == names[0] || n in names[1..]) && ParseVersion(n).Some? && ParseVersion(n).value == w;
      assert n in names;
    }
  }

  lemma {:induction false} PendingCovers(names: seq<string>, seen: set<int>)
    requires AllParse(names)
    ensures Versions(names) <= seen + Versions(Pending(names, seen))
    decreases |names|
  {
    if names != [] {
      var v := ParseVersion(names[0]).value;
      SplitVersions(names);
      if v in seen {
        PendingCovers(names[1..], seen);
      } else {
        PendingCovers(names[1..], seen + {v});
        SplitVersions(Pending(names, seen));
      }
    }
  }

  lemma {:induction false} NothingLeftToDo(db: Schema, names: seq<string>, seen: set<int>, env: nat -> Reply, k: nat)
    requires AllParse(names) && Versions(names) <= seen
    ensures RunFrom(db, names, seen, env, k) == (db, true)
    decreases |names|
  {
    if names != [] {
      SplitVersions(names);
      NothingLeftToDo(db, names[1..], seen, env, k);
    }
  }

  /** Once the plan is committed a run succeeds as soon as schema_migrations can
      be read, whether or not the plan covers every file. */
  lemma RerunSucceeds(db: Schema, files: seq<string>, env: nat -> Reply)
    requires db.effects == Plan(files) && db.applied == Versions(db.effects) && AllParse(SortNames(files))
    requires env(0) == env(1) == Done
    ensures Run(db, files, env) == (db, true)
  {
    PendingCovers(SortNames(files), {});
    NothingLeftToDo(db, SortNames(files), db.applied, env, 2);
  }
}
