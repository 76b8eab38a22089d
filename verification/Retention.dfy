/** Recorders insert a row and then prune, as two statements: concurrent
    recorders interleave, and a prune can fail after its insert went through. */
module Retention {
  import opened History

  datatype State<T> = State(keep: nat, table: map<nat, T>, log: seq<Entry<T>>,
                            inflight: set<nat>,  // recorders between insert and prune
                            failed: nat)         // failed prunes since the last one that worked

  /** A failed insert changes nothing and ends its recorder, so it is not a step. */
  datatype Action<T> =
    | Insert(rec: nat, id: nat, row: T)
    | PruneDone(rec: nat)
    | PruneFailed(rec: nat)

  function Init<T>(keep: nat): State<T> {
    State(keep, map[], [], {}, 0)
  }

  ghost predicate Enabled<T>(s: State<T>, a: Action<T>) {
    match a
    case Insert(rec, id, _) => rec !in s.inflight && forall i :: 0 <= i < |s.log| ==> s.log[i].id < id
    case PruneDone(rec) => rec in s.inflight
    case PruneFailed(rec) => rec in s.inflight
  }

  ghost function Step<T>(s: State<T>, a: Action<T>): State<T> {
    if !Enabled(s, a) then s else
      match a
      case Insert(rec, id, row) =>
        s.(table := s.table[id := row], log := s.log + [Entry(id, row)], inflight := s.inflight + {rec})
      case PruneDone(rec) =>
        s.(table := Prune(s.table, s.keep), inflight := s.inflight - {rec}, failed := 0)
      case PruneFailed(rec) =>
        s.(inflight := s.inflight - {rec}, failed := s.failed + 1)
  }

  ghost function Exec<T>(s: State<T>, acts: seq<Action<T>>): State<T> {
    if acts == [] then s else Step(Exec(s, acts[..|acts| - 1]), acts[|acts| - 1])
  }

  /** The table is a newest suffix of the insert log, never shorter than the
      rows to keep and never longer than those, the recorders between their two
      statements, and the prunes that failed. */
  ghost predicate Inv<T>(s: State<T>) {
    && HoldsNewest(s.table, s.log)
    && Least(|s.log|, s.keep) <= |s.table| <= s.keep + |s.inflight| + s.failed
  }

  lemma InsertKeeps<T>(s: State<T>, a: Action<T>)
    requires Inv(s) && a.Insert? && Enabled(s, a)
    ensures Inv(Step(s, a))
  {
    InsertHoldsNewest(s.table, s.log, Entry(a.id, a.row));
  }

  lemma {:induction false} Reachable<T>(keep: nat, acts: seq<Action<T>>)
    ensures Inv(Exec(Init(keep), acts)) && Exec(Init(keep), acts).keep == keep
  {
    if acts != [] {
      var a := acts[|acts| - 1];
      var s := Exec(Init(keep), acts[..|acts| - 1]);
      Reachable(keep, acts[..|acts| - 1]);
      if Enabled(s, a) {
        match a
        case Insert(_, _, _) => InsertKeeps(s, a);
        case PruneDone(rec) => PruneHoldsNewest(s.table, s.log, keep);
        case PruneFailed(rec) => assert |s.inflight - {rec}| == |s.inflight| - 1;
      }
    }
  }

  /** A row that is inserted is there at once, and is the first one read. */
  lemma InsertIsNewest<T>(keep: nat, acts: seq<Action<T>>, a: Action<T>, n: nat)
    requires a.Insert? && Enabled(Exec(Init(keep), acts), a) && n > 0
    ensures
      var s, s' := Exec(Init(keep), acts), Exec(Init(keep), acts + [a]);
      && s'.log == s.log + [Entry(a.id, a.row)] && |s'.table| == |s.table| + 1
      && Recent(s'.table, n) != [] && Recent(s'.table, n)[0] == a.row
  {
    var s, s' := Exec(Init(keep), acts), Exec(Init(keep), acts + [a]);
    assert (acts + [a])[..|acts|] == acts;
    Reachable(keep, acts);
    Reachable(keep, acts + [a]);
    InsertHoldsNewest(s.table, s.log, Entry(a.id, a.row));
    RecentHoldsNewest(s'.table, s'.log, n);
  }

  /** Whatever interleaved and failed before, a prune that works leaves exactly
      the newest `keep` rows, or all of them when there are fewer. */
  lemma PruneIsExact<T>(keep: nat, acts: seq<Action<T>>, rec: nat)
    requires rec in Exec(Init(keep), acts).inflight
    ensures
      var s := Exec(Init(keep), acts + [PruneDone(rec)]);
      |s.table| == Least(|s.log|, keep) && HoldsNewest(s.table, s.log)
  {
    var before := Exec(Init(keep), acts);
    Reachable(keep, acts);
    assert (acts + [PruneDone(rec)])[..|acts|] == acts;
    PruneHoldsNewest(before.table, before.log, keep);
  }

  /** Without failed prunes the table never outgrows the rows to keep plus one
      row per recorder that has inserted and not yet pruned. */
  lemma {:induction false} NoFailuresBound<T>(keep: nat, acts: seq<Action<T>>)
    requires forall i :: 0 <= i < |acts| ==> !acts[i].PruneFailed?
    ensures
      var s := Exec(Init(keep), acts);
      |s.table| <= keep + |s.inflight|
  {
    NoFailures(keep, acts);
    Reachable(keep, acts);
  }

  lemma {:induction false} NoFailures<T>(keep: nat, acts: seq<Action<T>>)
    requires forall i :: 0 <= i < |acts| ==> !acts[i].PruneFailed?
    ensures Exec(Init(keep), acts).failed == 0
  {
    if acts != [] {
      NoFailures(keep, acts[..|acts| - 1]);
    }
  }

  // ------------------------------------------------------------------
  // What the history RPCs answer

  /** Limits are int32 on the wire. */
  type Int32 = n: int | -0x8000_0000 <= n < 0x8000_0000

  function ClampLimit(limit: Int32): (n: nat)
    ensures 1 <= n <= 500
    ensures 1 <= limit <= 500 ==> n == limit
    ensures limit <= 0 ==> n == 20
    ensures limit > 500 ==> n == 500
  {
    if limit <= 0 then 20 else if limit > 500 then 500 else limit
  }

  /** An answer from the pruned table is always a newest-first prefix of the
      answer an unpruned table would give, and equals it exactly when the table
      still has enough rows or has lost none. */
  lemma PrunedAnswer<T>(keep: nat, acts: seq<Action<T>>, limit: Int32, unpruned: map<nat, T>)
    requires Holds(unpruned, Exec(Init(keep), acts).log)
    ensures
      var s := Exec(Init(keep), acts);
      var n := ClampLimit(limit);
      && Recent(s.table, n) <= Recent(unpruned, n)
      && |Recent(s.table, n)| >= Least(Least(|s.log|, keep), n)
      && (Recent(s.table, n) == Recent(unpruned, n) <==> n <= |s.table| || |s.table| == |s.log|)
      && (n <= keep ==> Recent(s.table, n) == Recent(unpruned, n))
  {
    Reachable(keep, acts);
    var s := Exec(Init(keep), acts);
    PrunedRead(s.table, s.log, ClampLimit(limit), unpruned);
  }

  lemma PrunedRead<T>(table: map<nat, T>, log: seq<Entry<T>>, n: nat, unpruned: map<nat, T>)
    requires HoldsNewest(table, log) && Holds(unpruned, log)
    ensures Recent(table, n) <= Recent(unpruned, n)
    ensures |Recent(table, n)| == Least(n, |table|)
    ensures Recent(table, n) == Recent(unpruned, n) <==> n <= |table| || |table| == |log|
  {
    RecentHoldsNewest(table, log, n);
    RecentHolds(unpruned, log, n);
  }

  /** GetRepairHistory: pruning to 1000 rows can never be seen through a limit of at most 500. */
  lemma RepairHistoryHidesPruning<T>(acts: seq<Action<T>>, limit: Int32, unpruned: map<nat, T>)
    requires Holds(unpruned, Exec(Init(1000), acts).log)
    ensures Recent(Exec(Init(1000), acts).table, ClampLimit(limit)) == Recent(unpruned, ClampLimit(limit))
  {
    PrunedAnswer(KEEP_REPAIRS, acts, limit, unpruned);
  }

  /** GetDiagnostics: pruning to 200 rows shows exactly when the caller asks for
      more than the table has and rows have been pruned. */
  lemma DiagnosticsShowPruningIff<T>(acts: seq<Action<T>>, limit: Int32, unpruned: map<nat, T>)
    requires Holds(unpruned, Exec(Init(200), acts).log)
    ensures
      var s := Exec(Init(200), acts);
      var n := ClampLimit(limit);
      && Recent(s.table, n) <= Recent(unpruned, n)
      && (n <= 200 ==> Recent(s.table, n) == Recent(unpruned, n))
      && (Recent(s.table, n) != Recent(unpruned, n) <==> |s.table| < n && |s.table| < |s.log|)
  {
    PrunedAnswer(KEEP_DIAGNOSTICS, acts, limit, unpruned);
    Reachable(KEEP_DIAGNOSTICS, acts);
  }
}
