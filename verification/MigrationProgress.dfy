/** What a run of the migrations gets done: each commit needs its statements, a
    run without a fault completes, and success has an exact condition. */
module MigrationProgress {
  import opened GoStrings
  import opened Migrations

  /** All four statements of the j-th commit, counting statements from k. */
  predicate Worked(env: nat -> Reply, k: nat, j: nat) {
    && env(k + 4 * j) == Done && env(k + 4 * j + 1) == Done && env(k + 4 * j + 2) == Done
    && env(k + 4 * j + 3) == Done
  }

  /** BEGIN, the SQL and the INSERT worked, and COMMIT took effect. */
  predicate TookEffect(env: nat -> Reply, k: nat, j: nat) {
    && env(k + 4 * j) == Done && env(k + 4 * j + 1) == Done && env(k + 4 * j + 2) == Done
    && env(k + 4 * j + 3) != Failed
  }

  ghost predicate CommitsBacked(env: nat -> Reply, k: nat, commits: nat, ok: bool) {
    forall j :: 0 <= j < commits ==>
      TookEffect(env, k, j) && (ok || j < commits - 1 ==> Worked(env, k, j))
  }

  lemma BackedLater(env: nat -> Reply, k: nat, commits: nat, ok: bool)
    requires TookEffect(env, k, 0) && Worked(env, k, 0)
    requires CommitsBacked(env, k + 4, commits, ok)
    ensures CommitsBacked(env, k, commits + 1, ok)
  {
    forall j | 0 <= j < commits + 1
      ensures TookEffect(env, k, j) && (ok || j < commits ==> Worked(env, k, j))
    {
      if j > 0 {
        assert TookEffect(env, k + 4, j - 1) && (ok || j - 1 < commits - 1 ==> Worked(env, k + 4, j - 1));
        assert k + 4 + 4 * (j - 1) == k + 4 * j;
      }
    }
  }

  /** Between db and the end of a run every new effect had its statements work. */
  ghost predicate Backed(db: Schema, run: (Schema, bool), env: nat -> Reply, k: nat) {
    db.effects <= run.0.effects && CommitsBacked(env, k, |run.0.effects| - |db.effects|, run.1)
  }

  lemma BackedNext(db: Schema, name: string, next: Schema, run: (Schema, bool), env: nat -> Reply, k: nat)
    requires next.effects == db.effects + [name] && Worked(env, k, 0) && Backed(next, run, env, k + 4)
    ensures Backed(db, run, env, k)
  {
    BackedLater(env, k, |run.0.effects| - |next.effects|, run.1);
  }

  lemma BackedStop(db: Schema, name: string, v: int, env: nat -> Reply, k: nat)
    requires !Apply(db, name, v, env, k).1
    ensures Backed(db, Apply(db, name, v, env, k), env, k)
  {
  }

  /** Nothing is committed whose statements did not all work. */
  lemma {:induction false} RunFromBacked(db: Schema, names: seq<string>, seen: set<int>, env: nat -> Reply, k: nat)
    ensures Backed(db, RunFrom(db, names, seen, env, k), env, k)
    decreases |names|
  {
    if names != [] && ParseVersion(names[0]).Some? {
      var v := ParseVersion(names[0]).value;
      if v in seen {
        RunFromBacked(db, names[1..], seen, env, k);
      } else {
        var (next, ok) := Apply(db, names[0], v, env, k);
        if ok {
          RunFromBacked(next, names[1..], seen, env, k + 4);
          BackedNext(db, names[0], next, RunFrom(next, names[1..], seen, env, k + 4), env, k);
        } else {
          BackedStop(db, names[0], v, env, k);
        }
      }
    }
  }

  ghost predicate AllWork(env: nat -> Reply, k: nat, commits: nat) {
    forall j :: 0 <= j < commits ==> Worked(env, k, j)
  }

  lemma WorkLater(env: nat -> Reply, k: nat, commits: nat)
    requires commits > 0 && AllWork(env, k, commits)
    ensures Worked(env, k, 0) && AllWork(env, k + 4, commits - 1)
  {
    var from := k + 4;
    forall j | 0 <= j < commits - 1 ensures Worked(env, from, j) {
      assert Worked(env, k, j + 1);
      assert k + 4 * (j + 1) == from + 4 * j;
    }
  }

  /** The names whose version is not yet seen, and those that have none. */
  function Fresh(names: seq<string>, seen: set<int>): seq<string> {
    if names == [] then [] else
      var known := ParseVersion(names[0]).Some? && ParseVersion(names[0]).value in seen;
      (if known then [] else [names[0]]) + Fresh(names[1..], seen)
  }

  /** All have versions, new and distinct ones, and the statements of all work. */
  ghost predicate Runnable(db: Schema, todo: seq<string>, env: nat -> Reply, k: nat) {
    AllParse(todo) && DistinctVersions(todo) && Versions(todo) !! db.applied && AllWork(env, k, |todo|)
  }

  lemma WorkFirst(env: nat -> Reply, k: nat, commits: nat)
    requires Worked(env, k, 0) && AllWork(env, k + 4, commits)
    ensures AllWork(env, k, commits + 1)
  {
    forall j | 0 <= j < commits + 1 ensures Worked(env, k, j) {
      if j > 0 {
        assert Worked(env, k + 4, j - 1);
        assert k + 4 + 4 * (j - 1) == k + 4 * j;
      }
    }
  }

  lemma ParseCons(name: string, rest: seq<string>)
    ensures AllParse([name] + rest) <==> ParseVersion(name).Some? && AllParse(rest)
  {
    if AllParse([name] + rest) {
      assert ParseVersion(([name] + rest)[0]).Some?;
      forall i | 0 <= i < |rest| ensures ParseVersion(rest[i]).Some? {
        assert ([name] + rest)[i + 1] == rest[i];
      }
    }
  }

  lemma RunnableCons(db: Schema, name: string, v: int, rest: seq<string>, env: nat -> Reply, k: nat)
    requires ParseVersion(name) == Some(v)
    ensures Runnable(db, [name] + rest, env, k) <==>
              && v !in db.applied && Worked(env, k, 0)
              && Runnable(Schema(db.applied + {v}, db.effects + [name]), rest, env, k + 4)
  {
    ParseCons(name, rest);
    if AllParse(rest) {
      assert ([name] + rest)[1..] == rest;
      SplitVersions([name] + rest);
      if AllWork(env, k, |rest| + 1) {
        WorkLater(env, k, |rest| + 1);
      }
      if Worked(env, k, 0) && AllWork(env, k + 4, |rest|) {
        WorkFirst(env, k, |rest|);
      }
    }
  }

  lemma CommittedCons(db: Schema, name: string, v: int, rest: seq<string>)
    requires ParseVersion(name) == Some(v)
    ensures db.applied + {v} + Versions(rest) == db.applied + Versions([name] + rest)
    ensures db.effects + [name] + rest == db.effects + ([name] + rest)
  {
    assert ([name] + rest)[1..] == rest;
    SplitVersions([name] + rest);
  }

  /** The loop gets to its end exactly when it can, and what it has committed then. */
  ghost predicate EndsWell(run: (Schema, bool), db: Schema, todo: seq<string>, env: nat -> Reply, k: nat) {
    && (run.1 <==> Runnable(db, todo, env, k))
    && (run.1 ==> run.0 == Schema(db.applied + Versions(todo), db.effects + todo))
  }

  lemma WellCons(run: (Schema, bool), db: Schema, name: string, v: int, rest: seq<string>, env: nat -> Reply, k: nat)
    requires ParseVersion(name) == Some(v)
    requires
      if v !in db.applied && Worked(env, k, 0)
      then EndsWell(run, Schema(db.applied + {v}, db.effects + [name]), rest, env, k + 4)
      else !run.1
    ensures EndsWell(run, db, [name] + rest, env, k)
  {
    RunnableCons(db, name, v, rest, env, k);
    CommittedCons(db, name, v, rest);
  }

  lemma StepOf(db: Schema, names: seq<string>, v: int, seen: set<int>, env: nat -> Reply, k: nat)
    requires names != [] && ParseVersion(names[0]) == Some(v) && v !in seen
    ensures
      var next := Schema(db.applied + {v}, db.effects + [names[0]]);
      if v !in db.applied && Worked(env, k, 0)
      then RunFrom(db, names, seen, env, k) == RunFrom(next, names[1..], seen, env, k + 4)
      else !RunFrom(db, names, seen, env, k).1
  {
    var (next, ok) := Apply(db, names[0], v, env, k);
    assert ok <==> v !in db.applied && Worked(env, k, 0);
  }

  lemma FreshCons(names: seq<string>, seen: set<int>)
    requires names != []
    ensures
      var known := ParseVersion(names[0]).Some? && ParseVersion(names[0]).value in seen;
      Fresh(names, seen) == if known then Fresh(names[1..], seen) else [names[0]] + Fresh(names[1..], seen)
  {
  }

  lemma NothingTodo(db: Schema, env: nat -> Reply, k: nat)
    ensures EndsWell((db, true), db, [], env, k)
  {
    assert Versions([]) == {};
  }

  lemma Unparsed(db: Schema, after: Schema, name: string, rest: seq<string>, env: nat -> Reply, k: nat)
    requires ParseVersion(name).None?
    ensures EndsWell((after, false), db, [name] + rest, env, k)
  {
    ParseCons(name, rest);
  }

  /** The loop over any names, from any state. */
  lemma {:induction false} RunFromEndsWell(db: Schema, names: seq<string>, seen: set<int>, env: nat -> Reply, k: nat)
    ensures EndsWell(RunFrom(db, names, seen, env, k), db, Fresh(names, seen), env, k)
    decreases |names|
  {
    if names == [] {
      NothingTodo(db, env, k);
    } else {
      FreshCons(names, seen);
      if ParseVersion(names[0]).None? {
        Unparsed(db, db, names[0], Fresh(names[1..], seen), env, k);
      } else {
        var v := ParseVersion(names[0]).value;
        if v in seen {
          RunFromEndsWell(db, names[1..], seen, env, k);
        } else {
          RunFromEndsWell(Schema(db.applied + {v}, db.effects + [names[0]]), names[1..], seen, env, k + 4);
          StepOf(db, names, v, seen, env, k);
          WellCons(RunFrom(db, names, seen, env, k), db, names[0], v, Fresh(names[1..], seen), env, k);
        }
      }
    }
  }

  ghost predicate AllNew(todo: seq<string>, names: seq<string>, seen: set<int>) {
    AllParse(todo) && DistinctVersions(todo) && Versions(todo) == Versions(names) - seen
  }

  lemma NewCons(name: string, v: int, rest: seq<string>, names: seq<string>, seen: set<int>)
    requires ParseVersion(name) == Some(v) && v !in seen && AllNew(rest, names, seen) && v !in Versions(names)
    requires AllParse([name] + names)
    ensures AllNew([name] + rest, [name] + names, seen)
  {
    ParseCons(name, rest);
    assert ([name] + rest)[1..] == rest && ([name] + names)[1..] == names;
    SplitVersions([name] + rest);
    SplitVersions([name] + names);
  }

  lemma TailIsDistinct(name: string, names: seq<string>)
    requires AllParse([name] + names) && DistinctVersions([name] + names)
    ensures ParseVersion(name).Some? && AllParse(names) && DistinctVersions(names)
    ensures ParseVersion(name).value !in Versions(names)
    ensures Versions([name] + names) == {ParseVersion(name).value} + Versions(names)
  {
    ParseCons(name, names);
    assert ([name] + names)[1..] == names;
    SplitVersions([name] + names);
  }

  lemma {:induction false} FreshIsNew(names: seq<string>, seen: set<int>)
    requires AllParse(names) && DistinctVersions(names)
    ensures AllNew(Fresh(names, seen), names, seen)
  {
    if names != [] {
      assert [names[0]] + names[1..] == names;
      TailIsDistinct(names[0], names[1..]);
      FreshCons(names, seen);
      FreshIsNew(names[1..], seen);
      if ParseVersion(names[0]).value !in seen {
        NewCons(names[0], ParseVersion(names[0]).value, Fresh(names[1..], seen), names[1..], seen);
      }
    }
  }

  lemma {:induction false} RunFromStops(db: Schema, names: seq<string>, bad: string, more: seq<string>, seen: set<int>,
                                        env: nat -> Reply, k: nat)
    requires ParseVersion(bad).None?
    ensures RunFrom(db, names + [bad] + more, seen, env, k) == (RunFrom(db, names, seen, env, k).0, false)
    decreases |names|
  {
    var all := names + [bad] + more;
    if names != [] {
      assert all[1..] == names[1..] + [bad] + more;
      if ParseVersion(names[0]).Some? {
        var v := ParseVersion(names[0]).value;
        if v in seen {
          RunFromStops(db, names[1..], bad, more, seen, env, k);
        } else {
          RunFromStops(Apply(db, names[0], v, env, k).0, names[1..], bad, more, seen, env, k + 4);
        }
      }
    }
  }

  // ------------------------------------------------------------------
  // Main results, from any state that earlier runs may have left

  /** Only the versions of this run's own effects are added, and each of them
      had its BEGIN, SQL, INSERT and COMMIT work. */
  lemma NothingUnbacked(db: Schema, files: seq<string>, env: nat -> Reply)
    ensures
      var (after, ok) := Run(db, files, env);
      && db.effects <= after.effects
      && CommitsBacked(env, 2, |after.effects| - |db.effects|, ok)
  {
    RunFromBacked(db, SortNames(files), db.applied, env, 2);
  }

  /** For any files and from any state: a run succeeds if and only if the versions
      could be read, the files with versions not yet applied have distinct ones,
      and the four statements of each of them work. Then it has committed exactly
      those, in order. */
  lemma SucceedsIff(db: Schema, files: seq<string>, env: nat -> Reply)
    ensures
      var (after, ok) := Run(db, files, env);
      var todo := Fresh(SortNames(files), db.applied);
      && (ok <==> env(0) == Done && env(1) == Done && Runnable(db, todo, env, 2))
      && (ok ==> after == Schema(db.applied + Versions(todo), db.effects + todo))
  {
    RunFromEndsWell(db, SortNames(files), db.applied, env, 2);
  }

  /** A name without a version fails the run, but what sorts before it is applied. */
  lemma BadNameStops(db: Schema, files: seq<string>, names: seq<string>, bad: string, more: seq<string>,
                     env: nat -> Reply)
    requires SortNames(files) == names + [bad] + more && ParseVersion(bad).None?
    requires env(0) == Done && env(1) == Done && Runnable(db, Fresh(names, db.applied), env, 2)
    ensures
      var todo := Fresh(names, db.applied);
      Run(db, files, env) == (Schema(db.applied + Versions(todo), db.effects + todo), false)
  {
    RunFromEndsWell(db, names, db.applied, env, 2);
    RunFromStops(db, names, bad, more, db.applied, env, 2);
  }

  /** A commit that goes through although its caller gets an error fails the run,
      and its migration counts as applied. */
  lemma UnheardCommitCounts(db: Schema, files: seq<string>, name: string, v: int, more: seq<string>, env: nat -> Reply)
    requires SortNames(files) == [name] + more && ParseVersion(name) == Some(v) && v !in db.applied
    requires (forall k: nat :: k < 5 ==> env(k) == Done) && env(5) == DoneUnheard
    ensures
      var after := Schema(db.applied + {v}, db.effects + [name]);
      && Run(db, files, env) == (after, false)
      && Fresh(SortNames(files), after.applied) == Fresh(more, after.applied)
  {
    assert ([name] + more)[1..] == more;
    var k := 2;
    assert env(k) == Done && env(k + 1) == Done && env(k + 2) == Done && env(k + 3) == DoneUnheard;
  }

  /** So after any runs, each failing at any statement, one run without a fault
      applies every file, in order, and reports success. */
  lemma OneGoodRunCompletes(files: seq<string>, envs: seq<nat -> Reply>, env: nat -> Reply)
    requires AllParse(SortNames(files)) && DistinctVersions(SortNames(files))
    requires forall k: nat :: env(k) == Done
    ensures Run(Runs(FRESH, files, envs), files, env) == (Schema(Versions(SortNames(files)), SortNames(files)), true)
  {
    var db := Runs(FRESH, files, envs);
    AlwaysAPrefix(files, envs);
    FreshIsNew(SortNames(files), db.applied);
    SucceedsIff(db, files, env);
    OneRun(db, files, env);
    PlanIsEverything(SortNames(files), {});
  }

  /** When versions repeat, a run without a fault still commits at least one
      migration or finds nothing left to do. */
  lemma GoodRunAdvances(db: Schema, files: seq<string>, env: nat -> Reply)
    requires AllParse(SortNames(files)) && forall k: nat :: env(k) == Done
    ensures
      var (after, ok) := Run(db, files, env);
      ok || |after.effects| > |db.effects|
  {
    SomethingCommitted(db, SortNames(files), env, 2);
  }

  lemma {:induction false} SomethingCommitted(db: Schema, names: seq<string>, env: nat -> Reply, k: nat)
    requires AllParse(names) && forall i: nat :: env(i) == Done
    ensures
      var (after, ok) := RunFrom(db, names, db.applied, env, k);
      ok || |after.effects| > |db.effects|
    decreases |names|
  {
    if names != [] {
      var v := ParseVersion(names[0]).value;
      if v in db.applied {
        SomethingCommitted(db, names[1..], env, k);
      } else {
        RunFromBacked(Schema(db.applied + {v}, db.effects + [names[0]]), names[1..], db.applied, env, k + 4);
      }
    }
  }
}
