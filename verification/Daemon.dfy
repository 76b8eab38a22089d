/** The repair calls of the daemon: snapshot, execute, announce, record. */
module Daemon {
  import opened GoStrings
  import opened Wsl
  import opened Health
  import opened Recovery
  import opened RepairSafety
  import opened Diagnosis
  import Events
  import opened HistoryStore

  datatype Code = FailedPrecondition | InvalidArgument | Unavailable | Internal

  datatype RpcResult = Answered(outcome: RepairOutcome) | Refused(code: Code, message: string)

  datatype HistoryReply = Repairs(repairs: seq<Repair>) | HistoryRefused(code: Code, message: string)

  datatype Request = Request(actionId: string, confirmed: bool)

  /** Whether the statements that record a repair fail this time. */
  datatype Storage = Storage(insertFails: bool, pruneFails: bool)

  function Announcement(outcome: RepairOutcome): Events.Event {
    Events.Event(0, "info", "recovery", "repair_executed", "", map["result" := outcome.result])
  }

  function RecordOf(outcome: RepairOutcome): Repair {
    Repair(outcome.actionId, outcome.componentId, outcome.success, outcome.result, outcome.verification)
  }

  /** An outcome adds one event, a refusal none. */
  ghost function Announced(log: seq<Events.Event>, r: RpcResult): seq<Events.Event> {
    if r.Refused? then log else log + [Announcement(r.outcome).(stamp := (|log| + 1) % Events.U64)]
  }

  ghost function Attempted(records: seq<Repair>, r: RpcResult, kept: bool): seq<Repair> {
    if r.Refused? || !kept then records else records + [RecordOf(r.outcome)]
  }

  /** ExecuteRepair's answer and the commands it runs. */
  function RepairRun(available: bool, req: Request, components: seq<Component<Probe>>, env: Surroundings,
                     o: Oracle, t: seq<Call>): Ran<RpcResult>
  {
    if !available then Ran(Refused(FailedPrecondition, "repair subsystem not available"), t)
    else if req.actionId == "" then Ran(Refused(InvalidArgument, "action_id is required"), t)
    else
      var seen := SnapshotRun(components, env, o, t);
      var run := Executed(req.actionId, req.confirmed, seen.value, o, seen.trace);
      match run.value
      case Err(message) => Ran(Refused(FailedPrecondition, message), run.trace)
      case Ok(outcome) => Ran(Answered(outcome), run.trace)
  }

  function PlanRun(components: seq<Component<Probe>>, env: Surroundings, o: Oracle, t: seq<Call>): Ran<seq<RepairAction>> {
    var seen := SnapshotRun(components, env, o, t);
    Ran(PlanFor(seen.value), seen.trace)
  }

  /** The requests that are rejected, given the components when they arrive. */
  predicate Rejected(req: Request, components: seq<ComponentStatus>) {
    || req.actionId !in {"wsl.start", "wsl.restart"}
    || (req.actionId == "wsl.restart" && !req.confirmed && WslRestart.CanExecute(components))
  }

  /** Which requests are refused, with what code, and what they leave undone. */
  lemma RefusedIff(available: bool, req: Request, components: seq<Component<Probe>>, env: Surroundings,
                   o: Oracle, t: seq<Call>)
    ensures
      var run, seen := RepairRun(available, req, components, env, o, t), SnapshotRun(components, env, o, t);
      && (run.value.Refused? <==> !available || Rejected(req, seen.value))
      && (run.value.Refused? ==>
            && (run.value.code == InvalidArgument <==> available && req.actionId == "")
            && (run.value.code == FailedPrecondition <==> !(available && req.actionId == ""))
            && run.trace == if available && req.actionId != "" then seen.trace else t)
      && (run.value.Answered? ==> run.value.outcome.actionId == req.actionId && run.value.outcome.componentId == "wsl")
  {
    var seen := SnapshotRun(components, env, o, t);
    ExecuteAnswers(req.actionId, req.confirmed, seen.value, o, seen.trace);
    ExecutedPlays(req.actionId, req.confirmed, seen.value, o, seen.trace);
  }

  /** The newest of some records, newest first. */
  predicate LastOf(out: seq<Repair>, stored: seq<Repair>) {
    |out| <= |stored| && forall i :: 0 <= i < |out| ==> out[i] == stored[|stored| - 1 - i]
  }

  class Daemon {
    const run: Runner
    const bus: Events.Bus
    const registry: Registry<Probe>
    const available: bool                    // recovery is wired
    const history: HistoryTable?<RepairRow>  // null: no state database
    ghost var attempts: seq<Repair>          // every RecordRepair call
    ghost var stored: seq<Repair>            // those whose insert succeeded

    ghost predicate Valid()
      reads this, bus, bus.data, history
    {
      && bus.Valid()
      && (history != null ==> history.Valid() && RecordedFrom(history.log, stored))
      && (history == null ==> attempts == [] && stored == [])
    }

    constructor (run: Runner, bus: Events.Bus, registry: Registry<Probe>, available: bool, history: HistoryTable?<RepairRow>)
      requires bus.Valid() && (history != null ==> history.Valid() && history.log == [])
      ensures Valid() && attempts == [] && stored == []
      ensures this.run == run && this.bus == bus && this.registry == registry
      ensures this.available == available && this.history == history
    {
      this.run, this.bus, this.registry := run, bus, registry;
      this.available, this.history := available, history;
      attempts, stored := [], [];
    }

    /** Without recovery the plan cannot be asked for. */
    method GetRepairPlan(env: Surroundings) returns (plan: seq<RepairAction>)
      requires available
      modifies run
      ensures Ran(plan, run.trace) == PlanRun(registry.components, env, run.oracle, old(run.trace))
    {
      var components := Snapshot(registry, env, run);
      plan := Plan(components);
    }

    method Decide(req: Request, env: Surroundings) returns (r: RpcResult)
      modifies run
      ensures Ran(r, run.trace) == RepairRun(available, req, registry.components, env, run.oracle, old(run.trace))
      ensures r.Answered? ==> r.outcome.actionId == req.actionId
    {
      if !available {
        return Refused(FailedPrecondition, "repair subsystem not available");
      }
      if req.actionId == "" {
        return Refused(InvalidArgument, "action_id is required");
      }
      var components := Snapshot(registry, env, run);
      ExecuteAnswers(req.actionId, req.confirmed, components, run.oracle, run.trace);
      var executed := Execute(run, req.actionId, req.confirmed, components);
      if executed.Err? {
        return Refused(FailedPrecondition, executed.message);
      }
      return Answered(executed.value);
    }

    /** Newest first; refused without a state database or when reading it fails. */
    method GetRepairHistory(limit: Retention.Int32, readError: Option<string>) returns (r: HistoryReply)
      requires Valid()
      ensures history == null ==> r == HistoryRefused(Unavailable, "repair history not available")
      ensures history != null && readError.Some? ==> r == HistoryRefused(Internal, readError.value)
      ensures history != null && readError.None? ==> r.Repairs?
      ensures r.Repairs? ==> |r.repairs| == History.Least(Retention.ClampLimit(limit), |history.rows|)
      ensures r.Repairs? && history.keep == 1000 ==>
                |r.repairs| == History.Least(Retention.ClampLimit(limit), |stored|)
      ensures r.Repairs? ==> LastOf(r.repairs, stored)
    {
      if history == null {
        return HistoryRefused(Unavailable, "repair history not available");
      }
      if readError.Some? {
        return HistoryRefused(Internal, readError.value);
      }
      var repairs := HistoryStore.GetRepairHistory(history, limit, stored);
      return Repairs(repairs);
    }

    /** A failure to record is logged and otherwise ignored. */
    method RecordRepair(repair: Repair, storage: Storage)
      requires history != null && history.Valid() && RecordedFrom(history.log, stored)
      modifies this`attempts, this`stored, history
      ensures history.Valid() && RecordedFrom(history.log, stored)
      ensures attempts == old(attempts) + [repair]
      ensures stored == if storage.insertFails then old(stored) else old(stored) + [repair]
    {
      var recorded := history.Record(ToRow(repair), storage.insertFails, storage.pruneFails);
      attempts := attempts + [repair];
      stored := if storage.insertFails then stored else stored + [repair];
    }

    /** The outcome of a call as far as events and history are concerned. */
    method Settle(r: RpcResult, storage: Storage)
      requires Valid()
      modifies this`attempts, this`stored, bus, bus.data, bus.subs, history
      ensures Valid() && bus.subs == old(bus.subs)
      ensures bus.data == old(bus.data) || fresh(bus.data)
      ensures bus.log == Announced(old(bus.log), r)
      ensures history != null ==> attempts == Attempted(old(attempts), r, true)
      ensures history != null ==> stored == Attempted(old(stored), r, !storage.insertFails)
    {
      if r.Refused? {
        return;
      }
      bus.Publish(Announcement(r.outcome));
      if history != null {
        RecordRepair(RecordOf(r.outcome), storage);
      }
    }

    /** Announces and records every outcome, whatever it says; a refused call
        leaves no trace in events or history. */
    method ExecuteRepair(req: Request, env: Surroundings, storage: Storage) returns (r: RpcResult)
      requires Valid()
      modifies this`attempts, this`stored, run, bus, bus.data, bus.subs, history
      ensures Valid() && bus.subs == old(bus.subs)
      ensures bus.data == old(bus.data) || fresh(bus.data)
      ensures Ran(r, run.trace) == RepairRun(available, req, registry.components, env, run.oracle, old(run.trace))
      ensures bus.log == Announced(old(bus.log), r)
      ensures history != null ==> attempts == Attempted(old(attempts), r, true)
      ensures history != null ==> stored == Attempted(old(stored), r, !storage.insertFails)
    {
      r := Decide(req, env);
      Settle(r, storage);
    }
  }

  // ------------------------------------------------------------------
  // Any number of calls

  /** The outcomes among some replies, in order. */
  function Outcomes(replies: seq<RpcResult>): seq<RepairOutcome> {
    if replies == [] then [] else
      var n := |replies| - 1;
      Outcomes(replies[..n]) + if replies[n].Answered? then [replies[n].outcome] else []
  }

  predicate SameOutcome(record: Repair, outcome: RepairOutcome) {
    && record.actionId == outcome.actionId && record.componentId == outcome.componentId
    && record.success == outcome.success && record.result == outcome.result
    && record.verification == outcome.verification
  }

  /** One record for each outcome, in order. */
  ghost predicate Recorded(records: seq<Repair>, outcomes: seq<RepairOutcome>) {
    |records| == |outcomes| && forall i :: 0 <= i < |outcomes| ==> SameOutcome(records[i], outcomes[i])
  }

  /** The n-th event of the bus tells of a repair and its result. */
  predicate TellsOf(ev: Events.Event, n: nat, outcome: RepairOutcome) {
    && ev.stamp == n % 0x1_0000_0000_0000_0000
    && ev.level == "info" && ev.component == "recovery" && ev.name == "repair_executed" && ev.project == ""
    && ev.fields.Keys == {"result"} && ev.fields["result"] == outcome.result
  }

  /** From `before` on, one event for each outcome, in order and with its result. */
  ghost predicate AnnouncedIn(log: seq<Events.Event>, before: seq<Events.Event>, outcomes: seq<RepairOutcome>) {
    && |log| == |before| + |outcomes| && before <= log
    && forall i :: 0 <= i < |outcomes| ==>
         TellsOf(log[|before| + i], |before| + i + 1, outcomes[i])
  }

  ghost function AnnouncedAll(log: seq<Events.Event>, replies: seq<RpcResult>): seq<Events.Event> {
    if replies == [] then log else
      var n := |replies| - 1;
      Announced(AnnouncedAll(log, replies[..n]), replies[n])
  }

  ghost function AttemptedAll(records: seq<Repair>, replies: seq<RpcResult>): seq<Repair> {
    if replies == [] then records else
      var n := |replies| - 1;
      Attempted(AttemptedAll(records, replies[..n]), replies[n], true)
  }

  lemma NextEvent(log: seq<Events.Event>, before: seq<Events.Event>, outcomes: seq<RepairOutcome>, r: RpcResult)
    requires AnnouncedIn(log, before, outcomes)
    ensures AnnouncedIn(Announced(log, r), before, outcomes + if r.Answered? then [r.outcome] else [])
  {
  }

  lemma {:induction false} OneEventEach(log: seq<Events.Event>, replies: seq<RpcResult>)
    ensures AnnouncedIn(AnnouncedAll(log, replies), log, Outcomes(replies))
  {
    if replies != [] {
      var n := |replies| - 1;
      OneEventEach(log, replies[..n]);
      NextEvent(AnnouncedAll(log, replies[..n]), log, Outcomes(replies[..n]), replies[n]);
    }
  }

  lemma {:induction false} OneRecordEach(records: seq<Repair>, replies: seq<RpcResult>)
    ensures records <= AttemptedAll(records, replies)
    ensures Recorded(AttemptedAll(records, replies)[|records|..], Outcomes(replies))
  {
    if replies != [] {
      OneRecordEach(records, replies[..|replies| - 1]);
    }
  }

  lemma AnotherReply(log: seq<Events.Event>, records: seq<Repair>, replies: seq<RpcResult>, r: RpcResult)
    ensures AnnouncedAll(log, replies + [r]) == Announced(AnnouncedAll(log, replies), r)
    ensures AttemptedAll(records, replies + [r]) == Attempted(AttemptedAll(records, replies), r, true)
  {
    assert (replies + [r])[..|replies|] == replies;
  }

  /** The replies to any number of requests, and the commands of all of them. */
  function ServeRun(available: bool, requests: seq<Request>, components: seq<Component<Probe>>,
                    envs: nat -> Surroundings, o: Oracle, t: seq<Call>): (r: Ran<seq<RpcResult>>)
    ensures |r.value| == |requests|
  {
    if requests == [] then Ran([], t) else
      var n := |requests| - 1;
      var before := ServeRun(available, requests[..n], components, envs, o, t);
      var last := RepairRun(available, requests[n], components, envs(n), o, before.trace);
      Ran(before.value + [last.value], last.trace)
  }

  lemma ServeNext(available: bool, requests: seq<Request>, i: nat, components: seq<Component<Probe>>,
                  envs: nat -> Surroundings, o: Oracle, t: seq<Call>)
    requires i < |requests|
    ensures
      var before := ServeRun(available, requests[..i], components, envs, o, t);
      var last := RepairRun(available, requests[i], components, envs(i), o, before.trace);
      ServeRun(available, requests[..i + 1], components, envs, o, t) == Ran(before.value + [last.value], last.trace)
  {
    assert requests[..i + 1][..i] == requests[..i];
  }

  /** The components as the i-th request finds them, after the commands of those before it. */
  function SeenBy(requests: seq<Request>, i: nat, components: seq<Component<Probe>>, envs: nat -> Surroundings,
                  o: Oracle, t: seq<Call>): seq<ComponentStatus>
    requires i < |requests|
  {
    SnapshotRun(components, envs(i), o, ServeRun(true, requests[..i], components, envs, o, t).trace).value
  }

  /** The ids of the requests that are not rejected, in order. */
  function Accepted(requests: seq<Request>, components: seq<Component<Probe>>, envs: nat -> Surroundings,
                    o: Oracle, t: seq<Call>): seq<string>
  {
    if requests == [] then [] else
      var n := |requests| - 1;
      Accepted(requests[..n], components, envs, o, t) +
      if Rejected(requests[n], SeenBy(requests, n, components, envs, o, t)) then [] else [requests[n].actionId]
  }

  /** Which requests have outcomes, and so events and records: those of a known
      action, but for a restart without confirmation that would apply. */
  lemma {:induction false} OutcomesOfRequests(requests: seq<Request>, components: seq<Component<Probe>>,
                                              envs: nat -> Surroundings, o: Oracle, t: seq<Call>)
    ensures
      var outcomes, ids := Outcomes(ServeRun(true, requests, components, envs, o, t).value),
                           Accepted(requests, components, envs, o, t);
      |outcomes| == |ids| && forall i :: 0 <= i < |ids| ==> outcomes[i].actionId == ids[i] && outcomes[i].componentId == "wsl"
  {
    if requests != [] {
      var n := |requests| - 1;
      var before := ServeRun(true, requests[..n], components, envs, o, t);
      var last := RepairRun(true, requests[n], components, envs(n), o, before.trace).value;
      OutcomesOfRequests(requests[..n], components, envs, o, t);
      RefusedIff(true, requests[n], components, envs(n), o, before.trace);
      assert (before.value + [last])[..n] == before.value;
    }
  }

  /** Without recovery nothing is answered. */
  lemma {:induction false} NoOutcomes(requests: seq<Request>, components: seq<Component<Probe>>,
                                      envs: nat -> Surroundings, o: Oracle, t: seq<Call>)
    ensures Outcomes(ServeRun(false, requests, components, envs, o, t).value) == []
    ensures ServeRun(false, requests, components, envs, o, t).trace == t
  {
    if requests != [] {
      var n := |requests| - 1;
      var before := ServeRun(false, requests[..n], components, envs, o, t);
      var last := RepairRun(false, requests[n], components, envs(n), o, before.trace).value;
      NoOutcomes(requests[..n], components, envs, o, t);
      assert (before.value + [last])[..n] == before.value;
    }
  }

  /** Events, attempts and stored records after some replies. */
  ghost predicate Kept(d: Daemon, log: seq<Events.Event>, attempts: seq<Repair>, stored: seq<Repair>,
                       replies: seq<RpcResult>, storage: nat -> Storage)
    reads d, d.bus
  {
    && d.bus.log == AnnouncedAll(log, replies)
    && (d.history != null ==> d.attempts == AttemptedAll(attempts, replies))
    && (d.history != null && (forall j :: 0 <= j < |replies| ==> !storage(j).insertFails) ==>
          d.stored == AttemptedAll(stored, replies))
  }

  /** The replies to the first i requests are those of the specification. */
  ghost predicate ServedSoFar(d: Daemon, requests: seq<Request>, i: nat, components: seq<Component<Probe>>,
                              envs: nat -> Surroundings, t: seq<Call>, replies: seq<RpcResult>)
    reads d.run, d.registry
  {
    && d.registry.components == components && i <= |requests| && |replies| == i
    && Ran(replies, d.run.trace) == ServeRun(d.available, requests[..i], components, envs, d.run.oracle, t)
  }

  method ServeOne(d: Daemon, requests: seq<Request>, i: nat, ghost components: seq<Component<Probe>>,
                  envs: nat -> Surroundings, storage: nat -> Storage, ghost log: seq<Events.Event>,
                  ghost attempts: seq<Repair>, ghost stored: seq<Repair>, ghost t: seq<Call>, replies: seq<RpcResult>)
    returns (r: RpcResult)
    requires d.Valid() && Kept(d, log, attempts, stored, replies, storage) && i < |requests|
    requires ServedSoFar(d, requests, i, components, envs, t, replies)
    modifies d`attempts, d`stored, d.run, d.bus, d.bus.data, d.bus.subs, d.history
    ensures d.Valid() && d.bus.subs == old(d.bus.subs)
    ensures d.bus.data == old(d.bus.data) || fresh(d.bus.data)
    ensures Kept(d, log, attempts, stored, replies + [r], storage)
    ensures ServedSoFar(d, requests, i + 1, components, envs, t, replies + [r])
  {
    ServeNext(d.available, requests, i, components, envs, d.run.oracle, t);
    r := d.ExecuteRepair(requests[i], envs(i), storage(i));
    AnotherReply(log, attempts, replies, r);
    AnotherReply(log, stored, replies, r);
  }

  lemma AllSettled(d: Daemon, log: seq<Events.Event>, attempts: seq<Repair>, stored: seq<Repair>,
                   replies: seq<RpcResult>, storage: nat -> Storage)
    requires Kept(d, log, attempts, stored, replies, storage)
    ensures AnnouncedIn(d.bus.log, log, Outcomes(replies))
    ensures d.history != null ==> attempts <= d.attempts && Recorded(d.attempts[|attempts|..], Outcomes(replies))
    ensures d.history != null && (forall j :: 0 <= j < |replies| ==> !storage(j).insertFails) ==>
              stored <= d.stored && Recorded(d.stored[|stored|..], Outcomes(replies))
  {
    OneEventEach(log, replies);
    OneRecordEach(attempts, replies);
    OneRecordEach(stored, replies);
  }

  method ServeAll(d: Daemon, requests: seq<Request>, envs: nat -> Surroundings, storage: nat -> Storage)
    returns (replies: seq<RpcResult>)
    requires d.Valid()
    modifies d`attempts, d`stored, d.run, d.bus, d.bus.data, d.bus.subs, d.history
    ensures d.Valid()
    ensures Ran(replies, d.run.trace) ==
              ServeRun(d.available, requests, d.registry.components, envs, d.run.oracle, old(d.run.trace))
    ensures Kept(d, old(d.bus.log), old(d.attempts), old(d.stored), replies, storage)
  {
    replies := [];
    ghost var log, attempts, stored, t := d.bus.log, d.attempts, d.stored, d.run.trace;
    ghost var components := d.registry.components;
    for i := 0 to |requests|
      invariant d.Valid() && d.bus.subs == old(d.bus.subs)
      invariant d.bus.data == old(d.bus.data) || fresh(d.bus.data)
      invariant Kept(d, log, attempts, stored, replies, storage)
      invariant ServedSoFar(d, requests, i, components, envs, t, replies)
    {
      var r := ServeOne(d, requests, i, components, envs, storage, log, attempts, stored, t, replies);
      replies := replies + [r];
    }
    assert requests[..|requests|] == requests;
  }

  /** Over any sequence of calls, the outcomes returned, the events published and
      the records attempted correspond one to one, in order and with the same
      results; refused calls add to none of them. Recording may fail at will. */
  method Serve(d: Daemon, requests: seq<Request>, envs: nat -> Surroundings, storage: nat -> Storage)
    returns (replies: seq<RpcResult>)
    requires d.Valid()
    modifies d`attempts, d`stored, d.run, d.bus, d.bus.data, d.bus.subs, d.history
    ensures d.Valid()
    ensures Ran(replies, d.run.trace) ==
              ServeRun(d.available, requests, d.registry.components, envs, d.run.oracle, old(d.run.trace))
    ensures AnnouncedIn(d.bus.log, old(d.bus.log), Outcomes(replies))
    ensures d.history != null ==>
              old(d.attempts) <= d.attempts && Recorded(d.attempts[|old(d.attempts)|..], Outcomes(replies))
    ensures d.history != null && (forall i :: 0 <= i < |requests| ==> !storage(i).insertFails) ==>
              old(d.stored) <= d.stored && Recorded(d.stored[|old(d.stored)|..], Outcomes(replies))
  {
    ghost var log, attempts, stored := d.bus.log, d.attempts, d.stored;
    replies := ServeAll(d, requests, envs, storage);
    AllSettled(d, log, attempts, stored, replies, storage);
  }

  /** As many of the newest outcomes as the clamped limit lets through, newest first. */
  predicate NewestOf(out: seq<Repair>, limit: Retention.Int32, outcomes: seq<RepairOutcome>) {
    && |out| == History.Least(Retention.ClampLimit(limit), |outcomes|)
    && forall i :: 0 <= i < |out| ==> SameOutcome(out[i], outcomes[|outcomes| - 1 - i])
  }

  lemma NewestFirst(out: seq<Repair>, limit: Retention.Int32, repairs: seq<Repair>, outcomes: seq<RepairOutcome>)
    requires Recorded(repairs, outcomes) && LastOf(out, repairs)
    requires |out| == History.Least(Retention.ClampLimit(limit), |repairs|)
    ensures NewestOf(out, limit, outcomes)
  {
  }

  method ReadHistory(d: Daemon, limit: Retention.Int32, ghost outcomes: seq<RepairOutcome>) returns (out: seq<Repair>)
    requires d.Valid() && d.history != null && d.history.keep == 1000
    requires Recorded(d.stored, outcomes)
    ensures NewestOf(out, limit, outcomes)
  {
    var reply := d.GetRepairHistory(limit, None);
    out := reply.repairs;
    NewestFirst(out, limit, d.stored, outcomes);
  }

  /** What clients then read from the history are exactly those outcomes, newest
      first, as many as the clamped limit lets through, even if no pruning ever succeeds. */
  method ServeThenRead(d: Daemon, requests: seq<Request>, envs: nat -> Surroundings, storage: nat -> Storage,
                       limit: Retention.Int32)
    returns (replies: seq<RpcResult>, out: seq<Repair>)
    requires d.Valid() && d.history != null && d.history.keep == 1000 && d.stored == []
    requires forall i :: 0 <= i < |requests| ==> !storage(i).insertFails
    modifies d`attempts, d`stored, d.run, d.bus, d.bus.data, d.bus.subs, d.history
    ensures replies == ServeRun(d.available, requests, old(d.registry.components), envs, d.run.oracle, old(d.run.trace)).value
    ensures NewestOf(out, limit, Outcomes(replies))
  {
    replies := Serve(d, requests, envs, storage);
    assert d.stored[0..] == d.stored;
    out := ReadHistory(d, limit, Outcomes(replies));
  }
}
