/** The diagnostic and repair history tables: rows under increasing ids, pruned
    after each insert, read newest first. */
module History {
  import opened Sets

  const KEEP_DIAGNOSTICS := 200
  const KEEP_REPAIRS := 1000

  /** One insert: the row and the id AUTOINCREMENT gave it. */
  datatype Entry<T> = Entry(id: nat, row: T)

  // ------------------------------------------------------------------
  // What the SQL statements do to a table, a map from id to row

  /** SELECT id FROM table ORDER BY id DESC LIMIT limit */
  function NewestIds(ids: set<nat>, limit: nat): (newest: seq<nat>)
    ensures forall id :: id in newest ==> id in ids
  {
    if limit == 0 || ids == {} then [] else [Max(ids)] + NewestIds(ids - {Max(ids)}, limit - 1)
  }

  /** DELETE FROM table WHERE id NOT IN (SELECT id ... LIMIT keep) */
  function Prune<T>(table: map<nat, T>, keep: nat): map<nat, T> {
    var kept := NewestIds(table.Keys, keep);
    map id | id in table && id in kept :: table[id]
  }

  /** SELECT row FROM table ORDER BY id DESC LIMIT limit */
  function Recent<T>(table: map<nat, T>, limit: nat): seq<T> {
    Rows(table, NewestIds(table.Keys, limit))
  }

  function Rows<T>(table: map<nat, T>, ids: seq<nat>): (rows: seq<T>)
    requires forall id :: id in ids ==> id in table.Keys
    ensures |rows| == |ids| && forall i :: 0 <= i < |ids| ==> ids[i] in table && rows[i] == table[ids[i]]
  {
    seq(|ids|, i requires 0 <= i < |ids| => assert ids[i] in ids; table[ids[i]])
  }

  // ------------------------------------------------------------------
  // The table as a suffix of everything ever inserted

  /** AUTOINCREMENT: an id is above every id used before, not necessarily the next. */
  ghost predicate Ascending(ids: seq<nat>) {
    forall i, j :: 0 <= i < j < |ids| ==> ids[i] < ids[j]
  }

  function Ids<T>(log: seq<Entry<T>>): (ids: seq<nat>)
    ensures |ids| == |log|
  {
    seq(|log|, i requires 0 <= i < |log| => log[i].id)
  }

  function Members(ids: seq<nat>): set<nat> {
    set id | id in ids
  }

  /** The table holds exactly the rows of `log`, under their ids. */
  ghost predicate Holds<T>(table: map<nat, T>, log: seq<Entry<T>>) {
    && table.Keys == Members(Ids(log))
    && forall i :: 0 <= i < |log| ==> Ids(log)[i] in table && table[Ids(log)[i]] == log[i].row
  }

  /** At most `limit` elements, last first. */
  function Backwards(ids: seq<nat>, limit: nat): (back: seq<nat>)
    ensures |back| == if limit < |ids| then limit else |ids|
    ensures forall i :: 0 <= i < |back| ==> back[i] == ids[|ids| - 1 - i]
  {
    if limit == 0 || ids == [] then [] else [ids[|ids| - 1]] + Backwards(ids[..|ids| - 1], limit - 1)
  }

  lemma {:induction false} NewestOfAscending(ids: seq<nat>, limit: nat)
    requires Ascending(ids)
    ensures NewestIds(Members(ids), limit) == Backwards(ids, limit)
    ensures |Members(ids)| == |ids|
  {
    if ids != [] {
      var n := |ids| - 1;
      assert forall i :: 0 <= i < n ==> ids[..n][i] == ids[i];
      assert Members(ids) - {ids[n]} == Members(ids[..n]);
      NewestOfAscending(ids[..n], if limit == 0 then 0 else limit - 1);
      assert Max(Members(ids)) == ids[n];
    }
  }

  /** A newest suffix of the log: what pruning to `keep` leaves. */
  function Suffix<T>(log: seq<Entry<T>>, keep: nat): seq<Entry<T>> {
    if |log| > keep then log[|log| - keep..] else log
  }

  lemma IdsOfSuffix<T>(log: seq<Entry<T>>, keep: nat)
    ensures Ids(Suffix(log, keep)) == Ids(log)[|log| - |Suffix(log, keep)|..]
  {
  }

  lemma SameMembers(s: seq<nat>, back: seq<nat>)
    requires |s| == |back| && forall i :: 0 <= i < |s| ==> back[i] == s[|s| - 1 - i]
    ensures Members(s) == Members(back)
  {
    forall id | id in s ensures id in back {
      var i :| 0 <= i < |s| && s[i] == id;
      assert back[|s| - 1 - i] == id;
    }
  }

  lemma BackwardsMembers(ids: seq<nat>, keep: nat)
    ensures Members(Backwards(ids, keep)) == Members(if |ids| > keep then ids[|ids| - keep..] else ids)
  {
    SameMembers(if |ids| > keep then ids[|ids| - keep..] else ids, Backwards(ids, keep));
  }

  lemma SuffixIds<T>(log: seq<Entry<T>>, keep: nat)
    requires Ascending(Ids(log))
    ensures Ascending(Ids(Suffix(log, keep)))
    ensures Members(Ids(Suffix(log, keep))) == Members(Backwards(Ids(log), keep))
  {
    IdsOfSuffix(log, keep);
    BackwardsMembers(Ids(log), keep);
    assert Ids(log)[0..] == Ids(log);
  }

  lemma PruneKeys<T>(table: map<nat, T>, keep: nat)
    ensures Prune(table, keep).Keys == Members(NewestIds(table.Keys, keep))
  {
  }

  lemma SuffixRows<T>(table: map<nat, T>, log: seq<Entry<T>>, keep: nat)
    requires Holds(table, log)
    ensures forall i :: 0 <= i < |Suffix(log, keep)| ==>
              Ids(Suffix(log, keep))[i] in table && table[Ids(Suffix(log, keep))[i]] == Suffix(log, keep)[i].row
  {
    var left := Suffix(log, keep);
    forall i | 0 <= i < |left| ensures Ids(left)[i] in table && table[Ids(left)[i]] == left[i].row {
      assert Ids(log)[|log| - |left| + i] == Ids(left)[i];
    }
  }

  /** Pruning a table leaves the newest `keep` of its rows. */
  lemma PruneHolds<T>(table: map<nat, T>, log: seq<Entry<T>>, keep: nat)
    requires Ascending(Ids(log)) && Holds(table, log)
    ensures Holds(Prune(table, keep), Suffix(log, keep))
  {
    NewestOfAscending(Ids(log), keep);
    SuffixIds(log, keep);
    PruneKeys(table, keep);
    SuffixRows(table, log, keep);
    var left := Ids(Suffix(log, keep));
    forall i | 0 <= i < |left| ensures left[i] in Prune(table, keep) {
      assert left[i] in Members(left);
    }
  }

  lemma InsertHolds<T>(table: map<nat, T>, log: seq<Entry<T>>, e: Entry<T>)
    requires Ascending(Ids(log)) && Holds(table, log) && forall i :: 0 <= i < |log| ==> log[i].id < e.id
    ensures Ascending(Ids(log + [e])) && Holds(table[e.id := e.row], log + [e])
  {
    var ids := Ids(log + [e]);
    assert ids == Ids(log) + [e.id];
    assert Members(ids) == Members(Ids(log)) + {e.id};
  }

  /** The rows of some entries, last first. */
  ghost predicate ReadsBackwards<T>(rows: seq<T>, log: seq<Entry<T>>) {
    |rows| <= |log| && forall i :: 0 <= i < |rows| ==> rows[i] == log[|log| - 1 - i].row
  }

  lemma RowsBackwards<T>(table: map<nat, T>, log: seq<Entry<T>>, ids: seq<nat>, rows: seq<T>)
    requires Holds(table, log) && |rows| == |ids| <= |log|
    requires forall i :: 0 <= i < |ids| ==> ids[i] == Ids(log)[|log| - 1 - i]
    requires forall i :: 0 <= i < |ids| ==> ids[i] in table && rows[i] == table[ids[i]]
    ensures ReadsBackwards(rows, log)
  {
  }

  /** Reading newest first gives the log's rows backwards. */
  lemma RecentHolds<T>(table: map<nat, T>, log: seq<Entry<T>>, limit: nat)
    requires Ascending(Ids(log)) && Holds(table, log)
    ensures |table| == |log|
    ensures |Recent(table, limit)| == if limit < |log| then limit else |log|
    ensures ReadsBackwards(Recent(table, limit), log)
  {
    NewestOfAscending(Ids(log), limit);
    KeysAreMembers(table, log);
    RowsBackwards(table, log, Backwards(Ids(log), limit), Recent(table, limit));
  }

  lemma KeysAreMembers<T>(table: map<nat, T>, log: seq<Entry<T>>)
    requires Holds(table, log)
    ensures table.Keys == Members(Ids(log)) && |table| == |Members(Ids(log))|
  {
    assert |table| == |table.Keys|;
  }

  // ------------------------------------------------------------------
  // The same for a table that holds only the newest rows of the log

  ghost predicate HoldsNewest<T>(table: map<nat, T>, log: seq<Entry<T>>) {
    && Ascending(Ids(log))
    && |table| <= |log|
    && Holds(table, Suffix(log, |table|))
  }

  function Least(a: nat, b: nat): nat {
    if a < b then a else b
  }

  lemma SuffixAppend<T>(log: seq<Entry<T>>, keep: nat, e: Entry<T>)
    requires keep <= |log| && forall i :: 0 <= i < |log| ==> log[i].id < e.id
    ensures Suffix(log + [e], keep + 1) == Suffix(log, keep) + [e]
    ensures forall i :: 0 <= i < |Suffix(log, keep)| ==> Suffix(log, keep)[i].id < e.id
  {
    var kept := Suffix(log, keep);
    assert forall i :: 0 <= i < |kept| ==> kept[i] == log[|log| - |kept| + i];
  }

  lemma AppendAscends<T>(log: seq<Entry<T>>, e: Entry<T>)
    requires Ascending(Ids(log)) && forall i :: 0 <= i < |log| ==> log[i].id < e.id
    ensures Ascending(Ids(log + [e]))
  {
    assert Ids(log + [e]) == Ids(log) + [e.id];
  }

  lemma InsertHoldsNewest<T>(table: map<nat, T>, log: seq<Entry<T>>, e: Entry<T>)
    requires HoldsNewest(table, log) && forall i :: 0 <= i < |log| ==> log[i].id < e.id
    ensures HoldsNewest(table[e.id := e.row], log + [e])
    ensures |table[e.id := e.row]| == |table| + 1
  {
    var kept := Suffix(log, |table|);
    SuffixIds(log, |table|);
    SuffixAppend(log, |table|, e);
    AppendAscends(log, e);
    InsertHolds(table, kept, e);
    RecentHolds(table[e.id := e.row], kept + [e], 0);
  }

  lemma SuffixOfSuffix<T>(log: seq<Entry<T>>, a: nat, b: nat)
    ensures Suffix(Suffix(log, a), b) == Suffix(log, Least(a, b))
  {
  }

  lemma HoldsAll<T>(table: map<nat, T>, log: seq<Entry<T>>)
    requires Ascending(Ids(log)) && Holds(table, log)
    ensures |table| == |log|
  {
    RecentHolds(table, log, 0);
  }

  lemma PrunedSuffix<T>(table: map<nat, T>, log: seq<Entry<T>>, keep: nat)
    requires HoldsNewest(table, log)
    ensures Holds(Prune(table, keep), Suffix(log, Least(|table|, keep)))
  {
    SuffixIds(log, |table|);
    PruneHolds(table, Suffix(log, |table|), keep);
    SuffixOfSuffix(log, |table|, keep);
  }

  lemma PruneHoldsNewest<T>(table: map<nat, T>, log: seq<Entry<T>>, keep: nat)
    requires HoldsNewest(table, log)
    ensures HoldsNewest(Prune(table, keep), log)
    ensures |Prune(table, keep)| == Least(|table|, keep)
  {
    PrunedSuffix(table, log, keep);
    SuffixIds(log, Least(|table|, keep));
    HoldsAll(Prune(table, keep), Suffix(log, Least(|table|, keep)));
  }

  lemma SuffixFromBack<T>(log: seq<Entry<T>>, keep: nat, i: nat)
    requires i < |Suffix(log, keep)|
    ensures Suffix(log, keep)[|Suffix(log, keep)| - 1 - i] == log[|log| - 1 - i]
  {
  }

  lemma BackwardsFromSuffix<T>(rows: seq<T>, log: seq<Entry<T>>, keep: nat)
    requires ReadsBackwards(rows, Suffix(log, keep))
    ensures ReadsBackwards(rows, log)
  {
    forall i | 0 <= i < |rows| ensures rows[i] == log[|log| - 1 - i].row {
      SuffixFromBack(log, keep, i);
    }
  }

  lemma RecentOfNewest<T>(table: map<nat, T>, log: seq<Entry<T>>, limit: nat)
    requires HoldsNewest(table, log)
    ensures |Recent(table, limit)| == Least(limit, |table|)
    ensures ReadsBackwards(Recent(table, limit), Suffix(log, |table|))
  {
    SuffixIds(log, |table|);
    RecentHolds(table, Suffix(log, |table|), limit);
  }

  lemma RecentHoldsNewest<T>(table: map<nat, T>, log: seq<Entry<T>>, limit: nat)
    requires HoldsNewest(table, log)
    ensures |Recent(table, limit)| == Least(limit, |table|)
    ensures forall i :: 0 <= i < |Recent(table, limit)| ==> Recent(table, limit)[i] == log[|log| - 1 - i].row
  {
    RecentOfNewest(table, log, limit);
    BackwardsFromSuffix(Recent(table, limit), log, |table|);
  }
}
