/** The history tables as the daemon uses them: record one row, read the newest. */
module HistoryStore {
  import opened History
  import opened Retention

  class HistoryTable<T> {
    const keep: nat
    var rows: map<nat, T>
    var lastId: nat          // sqlite_sequence: the largest id ever used
    ghost var log: seq<Entry<T>>

    ghost predicate Valid()
      reads this
    {
      && HoldsNewest(rows, log)
      && Least(|log|, keep) <= |rows|
      && forall i :: 0 <= i < |log| ==> log[i].id <= lastId
    }

    constructor (keep: nat)
      ensures Valid() && this.keep == keep && log == [] && rows == map[]
    {
      this.keep := keep;
      rows, lastId, log := map[], 0, [];
    }

    method Insert(row: T)
      requires Valid()
      modifies this
      ensures Valid() && log == old(log) + [Entry(old(lastId) + 1, row)]
      ensures |rows| == old(|rows|) + 1
    {
      var id := lastId + 1;
      InsertHoldsNewest(rows, log, Entry(id, row));
      rows, lastId := rows[id := row], id;
      log := log + [Entry(id, row)];
    }

    method Delete()
      requires Valid()
      modifies this
      ensures Valid() && log == old(log) && |rows| == Least(|log|, keep)
    {
      PruneHoldsNewest(rows, log, keep);
      rows := Prune(rows, keep);
    }

    /** Insert, then prune; either statement may fail. A failed prune is reported
        although the row is stored. */
    method Record(row: T, insertFails: bool, pruneFails: bool) returns (ok: bool)
      requires Valid()
      modifies this
      ensures Valid() && ok == (!insertFails && !pruneFails)
      ensures insertFails ==> log == old(log) && rows == old(rows)
      ensures !insertFails ==> log == old(log) + [Entry(old(lastId) + 1, row)]
      ensures ok ==> |rows| == Least(|log|, keep)
      ensures !insertFails && pruneFails ==> |rows| == old(|rows|) + 1
    {
      if insertFails {
        return false;
      }
      Insert(row);
      if pruneFails {
        return false;
      }
      Delete();
      return true;
    }

    method RecentRows(limit: int) returns (out: seq<T>)
      requires Valid()
      ensures limit <= 0 ==> out == []
      ensures limit > 0 ==> out == Recent(rows, limit)
      ensures limit > 0 ==> |out| == Least(limit, |rows|)
      ensures forall i :: 0 <= i < |out| ==> out[i] == log[|log| - 1 - i].row
    {
      if limit <= 0 {
        return [];
      }
      out := Scan(NewestIds(rows.Keys, limit));
      RecentHoldsNewest(rows, log, limit);
    }

    method Scan(cursor: seq<nat>) returns (out: seq<T>)
      requires forall id :: id in cursor ==> id in rows
      ensures |out| == |cursor| && forall k :: 0 <= k < |cursor| ==> out[k] == rows[cursor[k]]
    {
      out := [];
      for k := 0 to |cursor|
        invariant |out| == k
        invariant forall i :: 0 <= i < k ==> out[i] == rows[cursor[i]]
      {
        out := out + [rows[cursor[k]]];
      }
    }
  }

  datatype Repair = Repair(actionId: string, componentId: string, success: bool, result: string, verification: string)

  /** repair_history has no boolean column type: success is stored as an integer. */
  datatype RepairRow = RepairRow(actionId: string, componentId: string, success: int, result: string, verification: string)

  function ToRow(r: Repair): RepairRow {
    RepairRow(r.actionId, r.componentId, if r.success then 1 else 0, r.result, r.verification)
  }

  /** Every stored row came from a recorded outcome. */
  ghost predicate RecordedFrom(log: seq<Entry<RepairRow>>, repairs: seq<Repair>) {
    |log| == |repairs| && forall i :: 0 <= i < |log| ==> log[i].row == ToRow(repairs[i])
  }

  function FromRow(r: RepairRow): Repair {
    Repair(r.actionId, r.componentId, r.success != 0, r.result, r.verification)
  }

  method ScanRepairs(records: seq<RepairRow>) returns (out: seq<Repair>)
    ensures |out| == |records| && forall i :: 0 <= i < |out| ==> out[i] == FromRow(records[i])
  {
    out := [];
    for k := 0 to |records|
      invariant |out| == k && forall i :: 0 <= i < k ==> out[i] == FromRow(records[i])
    {
      out := out + [FromRow(records[k])];
    }
  }

  /** GetRepairHistory over the table: the clamped limit, the scan that turns the
      integer back into a boolean, newest first. It answers with the last
      outcomes that were recorded, as many as the limit or the table allows. */
  method GetRepairHistory(table: HistoryTable<RepairRow>, limit: Int32, ghost repairs: seq<Repair>)
    returns (out: seq<Repair>)
    requires table.Valid() && RecordedFrom(table.log, repairs)
    ensures |out| == Least(ClampLimit(limit), |table.rows|)
    ensures table.keep == 1000 ==> |out| == Least(ClampLimit(limit), |repairs|)
    ensures forall i :: 0 <= i < |out| ==> out[i] == repairs[|repairs| - 1 - i]
  {
    var records := table.RecentRows(ClampLimit(limit));
    out := ScanRepairs(records);
    RepairsBackwards(table.log, repairs, records, out);
  }

  lemma RepairsBackwards(log: seq<Entry<RepairRow>>, repairs: seq<Repair>, records: seq<RepairRow>, out: seq<Repair>)
    requires RecordedFrom(log, repairs) && |out| == |records| <= |log|
    requires forall i :: 0 <= i < |records| ==> records[i] == log[|log| - 1 - i].row
    requires forall i :: 0 <= i < |out| ==> out[i] == FromRow(records[i])
    ensures forall i :: 0 <= i < |out| ==> out[i] == repairs[|repairs| - 1 - i]
  {
    forall i | 0 <= i < |out| ensures out[i] == repairs[|repairs| - 1 - i] {
      assert records[i] == ToRow(repairs[|repairs| - 1 - i]);
    }
  }
}
