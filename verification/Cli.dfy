/** `envorca repair`: ask for the plan, ask the user, run every planned action. */
module Cli {
  import opened Wsl
  import opened Health
  import opened Recovery
  import opened RepairSafety
  import opened Diagnosis
  import opened Agreement
  import opened Daemon

  /** The user's answer to the prompt. */
  datatype Prompt = Agreed | Declined | Unreadable

  /** What becomes of one call on its way to the daemon and back. */
  datatype Link = Delivered | NeverSent | ReplyLost

  datatype CliResult = NothingToRepair | Aborted | PromptFailed | PlanFailed | Completed(failures: nat)

  predicate Worked(r: RpcResult) {
    r.Answered? && r.outcome.success
  }

  /** What the daemon does with a request for an action, the how-manieth call it
      is, and the commands run so far. */
  type Caller = (string, nat, seq<Call>) -> Ran<RpcResult>

  /** Requests are authorised by the --yes flag alone. */
  function CallerOf(yes: bool, envs: nat -> Surroundings, components: seq<Component<Probe>>, o: Oracle): Caller {
    (id: string, i: nat, t: seq<Call>) => RepairRun(true, Request(id, yes), components, envs(i), o, t)
  }

  ghost predicate Asks(call: Caller, yes: bool, envs: nat -> Surroundings, components: seq<Component<Probe>>, o: Oracle) {
    forall id, i: nat, t {:trigger RepairRun(true, Request(id, yes), components, envs(i), o, t)} ::
      call(id, i, t) == RepairRun(true, Request(id, yes), components, envs(i), o, t)
  }

  /** One call; true when it counts as a failure. */
  function CallRun(call: Caller, id: string, i: nat, link: Link, t: seq<Call>): Ran<bool> {
    if link.NeverSent? then Ran(true, t) else
      var run := call(id, i, t);
      Ran(link.ReplyLost? || !Worked(run.value), run.trace)
  }

  /** Every action in turn; counts the failures. */
  function ActionsRun(call: Caller, ids: seq<string>, links: nat -> Link, t: seq<Call>): (r: Ran<nat>)
    ensures r.value <= |ids|
  {
    if ids == [] then Ran(0, t) else
      var n := |ids| - 1;
      var before := ActionsRun(call, ids[..n], links, t);
      var last := CallRun(call, ids[n], n, links(n), before.trace);
      Ran(before.value + if last.value then 1 else 0, last.trace)
  }

  function CliRun(call: Caller, yes: bool, prompt: Prompt, planLink: Link, planned: Ran<seq<RepairAction>>,
                  links: nat -> Link, t: seq<Call>): Ran<CliResult>
  {
    if planLink.NeverSent? then Ran(PlanFailed, t)
    else if planLink.ReplyLost? then Ran(PlanFailed, planned.trace)
    else if planned.value == [] then Ran(NothingToRepair, planned.trace)
    else if !yes && prompt.Unreadable? then Ran(PromptFailed, planned.trace)
    else if !yes && prompt.Declined? then Ran(Aborted, planned.trace)
    else
      var run := ActionsRun(call, Ids(planned.value), links, planned.trace);
      Ran(Completed(run.value), run.trace)
  }

  method CallOne(d: Daemon, id: string, yes: bool, link: Link, envs: nat -> Surroundings, i: nat, storage: Storage,
                 ghost call: Caller)
    returns (failed: bool)
    requires d.Valid() && d.available && Asks(call, yes, envs, d.registry.components, d.run.oracle)
    modifies d`attempts, d`stored, d.run, d.bus, d.bus.data, d.bus.subs, d.history
    ensures d.Valid() && d.bus.subs == old(d.bus.subs)
    ensures d.bus.data == old(d.bus.data) || fresh(d.bus.data)
    ensures Ran(failed, d.run.trace) == CallRun(call, id, i, link, old(d.run.trace))
  {
    if link.NeverSent? {
      return true;
    }
    var reply := d.ExecuteRepair(Request(id, yes), envs(i), storage);
    failed := link.ReplyLost? || !Worked(reply);
  }

  lemma NextAction(call: Caller, ids: seq<string>, i: nat, links: nat -> Link, t: seq<Call>)
    requires i < |ids|
    ensures
      var before := ActionsRun(call, ids[..i], links, t);
      var last := CallRun(call, ids[i], i, links(i), before.trace);
      ActionsRun(call, ids[..i + 1], links, t) == Ran(before.value + (if last.value then 1 else 0), last.trace)
  {
    assert ids[..i + 1][..i] == ids[..i];
  }

  method RunActions(d: Daemon, ids: seq<string>, yes: bool, links: nat -> Link, envs: nat -> Surroundings,
                    storage: nat -> Storage, ghost call: Caller)
    returns (failures: nat)
    requires d.Valid() && d.available && Asks(call, yes, envs, d.registry.components, d.run.oracle)
    modifies d`attempts, d`stored, d.run, d.bus, d.bus.data, d.bus.subs, d.history
    ensures d.Valid()
    ensures Ran(failures, d.run.trace) == ActionsRun(call, ids, links, old(d.run.trace))
  {
    failures := 0;
    ghost var components, t := d.registry.components, d.run.trace;
    for i := 0 to |ids|
      invariant d.Valid() && d.bus.subs == old(d.bus.subs) && d.registry.components == components
      invariant d.bus.data == old(d.bus.data) || fresh(d.bus.data)
      invariant Ran(failures, d.run.trace) == ActionsRun(call, ids[..i], links, t)
    {
      NextAction(call, ids, i, links, t);
      var failed := CallOne(d, ids[i], yes, links(i), envs, i, storage(i), call);
      if failed {
        failures := failures + 1;
      }
    }
    assert ids[..|ids|] == ids;
  }

  method Repair(d: Daemon, yes: bool, prompt: Prompt, planLink: Link, planEnv: Surroundings, links: nat -> Link,
                envs: nat -> Surroundings, storage: nat -> Storage)
    returns (r: CliResult)
    requires d.Valid() && d.available
    modifies d`attempts, d`stored, d.run, d.bus, d.bus.data, d.bus.subs, d.history
    ensures d.Valid()
    ensures
      var components, o, t := old(d.registry.components), d.run.oracle, old(d.run.trace);
      Ran(r, d.run.trace) ==
        CliRun(CallerOf(yes, envs, components, o), yes, prompt, planLink, PlanRun(components, planEnv, o, t), links, t)
  {
    if planLink.NeverSent? {
      return PlanFailed;
    }
    var plan := d.GetRepairPlan(planEnv);
    if planLink.ReplyLost? {
      return PlanFailed;
    }
    if |plan| == 0 {
      return NothingToRepair;
    }
    if !yes {
      match prompt {
        case Unreadable => return PromptFailed;
        case Declined => return Aborted;
        case Agreed =>
      }
    }
    ghost var call := CallerOf(yes, envs, d.registry.components, d.run.oracle);
    var failures := RunActions(d, Ids(plan), yes, links, envs, storage, call);
    return Completed(failures);
  }

  // ------------------------------------------------------------------
  // How a run ends

  /** What stops a run, and that one that is stopped runs no command after the plan's. */
  lemma CompletedIff(call: Caller, yes: bool, prompt: Prompt, planLink: Link, planned: Ran<seq<RepairAction>>,
                     links: nat -> Link, t: seq<Call>)
    ensures
      var run := CliRun(call, yes, prompt, planLink, planned, links, t);
      var asked := planLink.Delivered? && planned.value != [] && !yes;
      && (run.value.Completed? <==> planLink.Delivered? && planned.value != [] && (yes || prompt.Agreed?))
      && (run.value.PlanFailed? <==> !planLink.Delivered?)
      && (run.value.NothingToRepair? <==> planLink.Delivered? && planned.value == [])
      && (run.value.PromptFailed? <==> asked && prompt.Unreadable?)
      && (run.value.Aborted? <==> asked && prompt.Declined?)
      && (!run.value.Completed? ==> run.trace == if planLink.NeverSent? then t else planned.trace)
  {
  }

  /** The calls made before the k-th action is asked for. */
  function CallsBefore(call: Caller, ids: seq<string>, links: nat -> Link, t: seq<Call>, k: nat): seq<Call>
    requires k <= |ids|
  {
    ActionsRun(call, ids[..k], links, t).trace
  }

  /** The k-th request is lost on either way, or refused, or its repair fails. */
  predicate FailedAt(call: Caller, ids: seq<string>, links: nat -> Link, t: seq<Call>, k: nat)
    requires k < |ids|
  {
    !(links(k).Delivered? && Worked(call(ids[k], k, CallsBefore(call, ids, links, t, k)).value))
  }

  function FailuresOf(call: Caller, ids: seq<string>, links: nat -> Link, t: seq<Call>): set<nat> {
    set k: nat | k < |ids| && FailedAt(call, ids, links, t, k)
  }

  /** Requests are made one after the other, each on what the one before it left;
      only one that is never sent is skipped. */
  lemma RequestsInTurn(call: Caller, ids: seq<string>, links: nat -> Link, t: seq<Call>, k: nat)
    requires k < |ids|
    ensures CallsBefore(call, ids, links, t, 0) == t
    ensures
      var before := CallsBefore(call, ids, links, t, k);
      CallsBefore(call, ids, links, t, k + 1) ==
        if links(k).NeverSent? then before else call(ids[k], k, before).trace
  {
    NextAction(call, ids, k, links, t);
  }

  lemma FailedBefore(call: Caller, ids: seq<string>, links: nat -> Link, t: seq<Call>, n: nat, k: nat)
    requires k < n <= |ids|
    ensures FailedAt(call, ids[..n], links, t, k) <==> FailedAt(call, ids, links, t, k)
  {
    assert ids[..n][..k] == ids[..k];
  }

  lemma OneMoreFailure(call: Caller, ids: seq<string>, links: nat -> Link, t: seq<Call>)
    requires ids != []
    ensures
      var n := |ids| - 1;
      FailuresOf(call, ids, links, t) ==
        FailuresOf(call, ids[..n], links, t) + if FailedAt(call, ids, links, t, n) then {n as nat} else {}
  {
    var n := |ids| - 1;
    forall k: nat | k < n ensures FailedAt(call, ids[..n], links, t, k) <==> FailedAt(call, ids, links, t, k) {
      FailedBefore(call, ids, links, t, n, k);
    }
  }

  /** The number reported is the number of requests that failed. */
  lemma {:induction false} FailuresAreCounted(call: Caller, ids: seq<string>, links: nat -> Link, t: seq<Call>)
    ensures ActionsRun(call, ids, links, t).value == |FailuresOf(call, ids, links, t)|
    decreases |ids|
  {
    if ids != [] {
      var n := |ids| - 1;
      FailuresAreCounted(call, ids[..n], links, t);
      OneMoreFailure(call, ids, links, t);
    }
  }

  /** "All repairs applied" exactly when every request was answered with success. */
  lemma AllAppliedIff(call: Caller, ids: seq<string>, links: nat -> Link, t: seq<Call>)
    ensures ActionsRun(call, ids, links, t).value == 0 <==>
              forall k: nat :: k < |ids| ==> !FailedAt(call, ids, links, t, k)
  {
    FailuresAreCounted(call, ids, links, t);
    var failures := FailuresOf(call, ids, links, t);
    if k: nat :| k < |ids| && FailedAt(call, ids, links, t, k) {
      assert k in failures;
    }
  }

  // ------------------------------------------------------------------
  // Shutdowns

  function Shutdowns(t: seq<Call>): nat {
    if t == [] then 0 else
      Shutdowns(t[..|t| - 1]) + if t[|t| - 1] == SHUTDOWN then 1 else 0
  }

  lemma {:induction false} LooksCountsNothing(t: seq<Call>, end: seq<Call>)
    requires OnlyLooks(t, end)
    ensures Shutdowns(end) == Shutdowns(t)
    decreases |end|
  {
    if |end| > |t| {
      LooksCountsNothing(t, end[..|end| - 1]);
    } else {
      assert end == t;
    }
  }

  /** A call of Execute shuts down once when it may, else never. */
  lemma ExecutedShutdowns(id: string, confirmed: bool, seen: seq<ComponentStatus>, o: Oracle, t: seq<Call>)
    ensures
      var end := Executed(id, confirmed, seen, o, t).trace;
      && t <= end
      && Shutdowns(end) == Shutdowns(t) +
           if id == "wsl.restart" && confirmed && WslRestart.CanExecute(seen) then 1 else 0
  {
    var end := Executed(id, confirmed, seen, o, t).trace;
    ShutdownOnlyWhenAllowed(id, confirmed, seen, o, t);
    if ShutdownIn(t, end) {
      var first := t + [SHUTDOWN];
      assert first[..|t|] == t;
      assert first <= end;
      LooksCountsNothing(first, end);
    } else {
      LooksCountsNothing(t, end);
    }
  }

  /** A restart is authorised, and still applies in the snapshot taken for the
      i-th call after the calls t. */
  predicate RestartDue(yes: bool, envs: nat -> Surroundings, components: seq<Component<Probe>>, o: Oracle,
                       i: nat, t: seq<Call>)
  {
    yes && WslRestart.CanExecute(SnapshotRun(components, envs(i), o, t).value)
  }

  /** One request of the client shuts down exactly when it asks for a restart
      that is due; and a restart that succeeded was due. */
  lemma RequestShutdowns(id: string, i: nat, yes: bool, envs: nat -> Surroundings, components: seq<Component<Probe>>,
                         o: Oracle, t: seq<Call>)
    ensures
      var run := RepairRun(true, Request(id, yes), components, envs(i), o, t);
      && t <= run.trace
      && Shutdowns(run.trace) ==
           Shutdowns(t) + (if id == "wsl.restart" && RestartDue(yes, envs, components, o, i, t) then 1 else 0)
      && (id == "wsl.restart" && Worked(run.value) ==> RestartDue(yes, envs, components, o, i, t))
  {
    if id != "" {
      var seen := SnapshotRun(components, envs(i), o, t);
      SnapshotLooks(components, envs(i), o, t);
      LooksCountsNothing(t, seen.trace);
      ExecutedShutdowns(id, yes, seen.value, o, seen.trace);
      FindIs(id);
      ExecutedPlays(id, yes, seen.value, o, seen.trace);
    }
  }

  predicate CarefulAt(call: Caller, due: (nat, seq<Call>) -> bool, id: string, i: nat, t: seq<Call>) {
    var run := call(id, i, t);
    && t <= run.trace
    && Shutdowns(run.trace) == Shutdowns(t) + (if id == "wsl.restart" && due(i, t) then 1 else 0)
    && (id == "wsl.restart" && Worked(run.value) ==> due(i, t))
  }

  /** The daemon seen from the client: `due` says when a restart goes through. */
  ghost predicate Careful(call: Caller, due: (nat, seq<Call>) -> bool) {
    forall id, i: nat, t :: CarefulAt(call, due, id, i, t)
  }

  function DueOf(yes: bool, envs: nat -> Surroundings, components: seq<Component<Probe>>, o: Oracle)
    : (nat, seq<Call>) -> bool
  {
    (i: nat, t: seq<Call>) => RestartDue(yes, envs, components, o, i, t)
  }

  lemma DaemonIsCareful(yes: bool, envs: nat -> Surroundings, components: seq<Component<Probe>>, o: Oracle)
    ensures Careful(CallerOf(yes, envs, components, o), DueOf(yes, envs, components, o))
  {
    forall id, i: nat, t ensures CarefulAt(CallerOf(yes, envs, components, o), DueOf(yes, envs, components, o), id, i, t) {
      RequestShutdowns(id, i, yes, envs, components, o, t);
    }
  }

  lemma {:induction false} OtherActionsNeverShutDown(call: Caller, due: (nat, seq<Call>) -> bool, ids: seq<string>,
                                                     links: nat -> Link, t: seq<Call>)
    requires Careful(call, due) && "wsl.restart" !in ids
    ensures
      var run := ActionsRun(call, ids, links, t);
      t <= run.trace && Shutdowns(run.trace) == Shutdowns(t)
  {
    if ids != [] {
      var n := |ids| - 1;
      OtherActionsNeverShutDown(call, due, ids[..n], links, t);
      assert CarefulAt(call, due, ids[n], n, ActionsRun(call, ids[..n], links, t).trace);
    }
  }

  /** The calls made before the last action of a plan is asked for. */
  function BeforeLast(call: Caller, ids: seq<string>, links: nat -> Link, t: seq<Call>): seq<Call>
    requires ids != []
  {
    ActionsRun(call, ids[..|ids| - 1], links, t).trace
  }

  predicate EndsInRestart(ids: seq<string>) {
    ids == ["wsl.restart"] || ids == ["wsl.start", "wsl.restart"]
  }

  /** The last request reaches the daemon and the restart is due then. */
  predicate RestartHappens(call: Caller, due: (nat, seq<Call>) -> bool, ids: seq<string>, links: nat -> Link, t: seq<Call>)
    requires ids != []
  {
    !links(|ids| - 1).NeverSent? && due(|ids| - 1, BeforeLast(call, ids, links, t))
  }

  /** A plan ends with the restart, and with no other one. */
  lemma ActionsShutdowns(call: Caller, due: (nat, seq<Call>) -> bool, ids: seq<string>, links: nat -> Link, t: seq<Call>)
    requires Careful(call, due) && EndsInRestart(ids)
    ensures
      var run := ActionsRun(call, ids, links, t);
      && t <= run.trace
      && Shutdowns(run.trace) == Shutdowns(t) + (if RestartHappens(call, due, ids, links, t) then 1 else 0)
      && (run.value == 0 ==> RestartHappens(call, due, ids, links, t))
  {
    var n := |ids| - 1;
    assert "wsl.start"[4] != "wsl.restart"[4];
    assert ids[n] == "wsl.restart" && "wsl.restart" !in ids[..n];
    OtherActionsNeverShutDown(call, due, ids[..n], links, t);
    assert CarefulAt(call, due, ids[n], n, BeforeLast(call, ids, links, t));
  }

  lemma AfterPlan(call: Caller, due: (nat, seq<Call>) -> bool, yes: bool, prompt: Prompt, planLink: Link,
                  planned: Ran<seq<RepairAction>>, links: nat -> Link, t: seq<Call>)
    requires Careful(call, due) && t <= planned.trace && Shutdowns(planned.trace) == Shutdowns(t)
    requires planned.value != [] ==> EndsInRestart(Ids(planned.value))
    ensures
      var run, ids := CliRun(call, yes, prompt, planLink, planned, links, t), Ids(planned.value);
      && t <= run.trace
      && (!run.value.Completed? ==> Shutdowns(run.trace) == Shutdowns(t))
      && (run.value.Completed? ==>
            && EndsInRestart(ids)
            && Shutdowns(run.trace) ==
                 Shutdowns(t) + (if RestartHappens(call, due, ids, links, planned.trace) then 1 else 0)
            && (run.value == Completed(0) ==> RestartHappens(call, due, ids, links, planned.trace)))
  {
    if planned.value != [] {
      ActionsShutdowns(call, due, Ids(planned.value), links, planned.trace);
    }
  }

  /** The failures and the commands of a completed run. */
  lemma CompletedRun(call: Caller, yes: bool, prompt: Prompt, planLink: Link, planned: Ran<seq<RepairAction>>,
                     links: nat -> Link, t: seq<Call>)
    ensures
      var run, ids := CliRun(call, yes, prompt, planLink, planned, links, t), Ids(planned.value);
      run.value.Completed? ==>
        && run.value.failures == |FailuresOf(call, ids, links, planned.trace)|
        && run.trace == CallsBefore(call, ids, links, planned.trace, |ids|)
  {
    var ids := Ids(planned.value);
    assert ids[..|ids|] == ids;
    FailuresAreCounted(call, ids, links, planned.trace);
  }

  /** Whole runs of the command, whatever the machine does, the user answers and
      the connection loses. A run is completed exactly when there is a plan and
      the user agrees to it; otherwise no command is run after those of the plan.
      A completed one counts the requests that failed. It shuts down exactly once
      if its last request reaches the daemon with --yes while a restart still
      applies, and otherwise never; and "All repairs applied" is reported only in
      that case, so a user who merely agrees at the prompt is always told of a
      failure. */
  lemma WholeRepairRuns(yes: bool, prompt: Prompt, planLink: Link, planEnv: Surroundings, links: nat -> Link,
                        envs: nat -> Surroundings, components: seq<Component<Probe>>, o: Oracle, t: seq<Call>)
    ensures
      var call, due := CallerOf(yes, envs, components, o), DueOf(yes, envs, components, o);
      var planned := PlanRun(components, planEnv, o, t);
      var run, ids := CliRun(call, yes, prompt, planLink, planned, links, t), Ids(planned.value);
      && t <= run.trace
      && (run.value.Completed? <==> planLink.Delivered? && planned.value != [] && (yes || prompt.Agreed?))
      && (!run.value.Completed? ==>
            && run.trace == (if planLink.NeverSent? then t else planned.trace)
            && Shutdowns(run.trace) == Shutdowns(t))
      && (run.value.Completed? ==>
            && EndsInRestart(ids)
            && run.value.failures == |FailuresOf(call, ids, links, planned.trace)|
            && run.trace == CallsBefore(call, ids, links, planned.trace, |ids|)
            && Shutdowns(run.trace) ==
                 Shutdowns(t) + (if RestartHappens(call, due, ids, links, planned.trace) then 1 else 0)
            && (run.value == Completed(0) ==> RestartHappens(call, due, ids, links, planned.trace)))
  {
    var call, planned := CallerOf(yes, envs, components, o), PlanRun(components, planEnv, o, t);
    CompletedIff(call, yes, prompt, planLink, planned, links, t);
    CompletedRun(call, yes, prompt, planLink, planned, links, t);
    PlanFirst(components, planEnv, o, t);
    DaemonIsCareful(yes, envs, components, o);
    AfterPlan(call, DueOf(yes, envs, components, o), yes, prompt, planLink, planned, links, t);
  }

  lemma PlanFirst(components: seq<Component<Probe>>, env: Surroundings, o: Oracle, t: seq<Call>)
    ensures
      var planned := PlanRun(components, env, o, t);
      && t <= planned.trace && Shutdowns(planned.trace) == Shutdowns(t)
      && (planned.value != [] ==> EndsInRestart(Ids(planned.value)))
  {
    var seen := SnapshotRun(components, env, o, t);
    SnapshotLooks(components, env, o, t);
    LooksCountsNothing(t, seen.trace);
    PlanShapes(seen.value);
  }

  lemma OnlyWithYes(yes: bool, envs: nat -> Surroundings, components: seq<Component<Probe>>, o: Oracle, i: nat, t: seq<Call>)
    ensures DueOf(yes, envs, components, o)(i, t) ==> yes
  {
  }

  /** "All repairs applied" means that --yes was given and that the machine still
      needed repair when the wsl probe ran for the restart. So a repair whose
      start works and stays up is reported as a failure, even with --yes. */
  lemma AllAppliedMeansStillBroken(yes: bool, prompt: Prompt, planLink: Link, planEnv: Surroundings, links: nat -> Link,
                                   envs: nat -> Surroundings, components: seq<Component<Probe>>, o: Oracle,
                                   t: seq<Call>, w: nat)
    requires DistinctIds(components) && WslAt(components, w)
    requires CliRun(CallerOf(yes, envs, components, o), yes, prompt, planLink,
                    PlanRun(components, planEnv, o, t), links, t).value == Completed(0)
    ensures
      var call, planned := CallerOf(yes, envs, components, o), PlanRun(components, planEnv, o, t);
      var ids := Ids(planned.value);
      && yes && EndsInRestart(ids)
      && (envs(|ids| - 1).panics("wsl").None? ==>
            NeededIn(components, w, envs(|ids| - 1), o, BeforeLast(call, ids, links, planned.trace)) != Nothing)
  {
    var call, planned := CallerOf(yes, envs, components, o), PlanRun(components, planEnv, o, t);
    var ids := Ids(planned.value);
    WholeRepairRuns(yes, prompt, planLink, planEnv, links, envs, components, o, t);
    var before := BeforeLast(call, ids, links, planned.trace);
    OnlyWithYes(yes, envs, components, o, |ids| - 1, before);
    if envs(|ids| - 1).panics("wsl").None? {
      RestartAppliesIff(components, envs(|ids| - 1), o, before, w);
    }
  }

  /** The command on the default registry: it finds nothing to repair exactly
      when the machine needs nothing, and otherwise asks for what is needed. */
  lemma DefaultRepairRuns(yes: bool, prompt: Prompt, planLink: Link, planEnv: Surroundings, links: nat -> Link,
                          envs: nat -> Surroundings, o: Oracle, t: seq<Call>)
    requires planLink.Delivered? && planEnv.panics("wsl").None?
    ensures
      var call, planned := CallerOf(yes, envs, ENTRIES, o), PlanRun(ENTRIES, planEnv, o, t);
      var run, need := CliRun(call, yes, prompt, planLink, planned, links, t), Needed(planEnv.installed, o, t);
      && Ids(planned.value) == IdsFor(need)
      && (run.value.NothingToRepair? <==> need.Nothing?)
      && (run.value.Completed? <==> !need.Nothing? && (yes || prompt.Agreed?))
  {
    var call, planned := CallerOf(yes, envs, ENTRIES, o), PlanRun(ENTRIES, planEnv, o, t);
    DefaultAgrees(planEnv, o, t);
    CompletedIff(call, yes, prompt, planLink, planned, links, t);
    assert planned.value == [] <==> Ids(planned.value) == [];
  }
}
