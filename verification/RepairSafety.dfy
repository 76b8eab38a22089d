/** What a repair does to the machine, read off the recorded commands: for every
    behaviour of wsl.exe. */
module RepairSafety {
  import opened GoStrings
  import opened Wsl
  import opened Health
  import opened Recovery

  // ------------------------------------------------------------------
  // A script of commands, each depending at most on the reply just before it

  datatype Step = StopAll | Look | BootFound

  predicate Succeeded(o: Oracle, t: seq<Call>) {
    o(t).Output?
  }

  /** The default distro in the reply to the last call. */
  function Found(o: Oracle, t: seq<Call>): (name: string)
    ensures Succeeded(o, t) ==> DefaultAnswer(o(t)) == Ok(name)
  {
    match DefaultAnswer(o(t)) case Ok(distro) => distro case Err(_) => ""
  }

  /** The command of a step, given all calls made so far. */
  function Command(s: Step, o: Oracle, t: seq<Call>): Call {
    match s
    case StopAll => SHUTDOWN
    case Look => LIST
    case BootFound => BootCall(Found(o, t))
  }

  /** The two things a script asks of the machine. */
  datatype Machine = Machine(command: (Step, seq<Call>) -> Call, succeeded: seq<Call> -> bool)

  function MachineOf(o: Oracle): Machine {
    Machine((s: Step, t: seq<Call>) => Command(s, o, t), (t: seq<Call>) => Succeeded(o, t))
  }

  /** Plays a script until its end or its first failing command; true at the end. */
  function Play(script: seq<Step>, m: Machine, t: seq<Call>): Ran<bool> {
    if script == [] then Ran(true, t) else
      var next := t + [m.command(script[0], t)];
      if m.succeeded(next) then Play(script[1..], m, next) else Ran(false, next)
  }

  function ScriptOf(a: Action): seq<Step> {
    match a
    case WslStart => [Look, BootFound, Look, BootFound]
    case WslRestart => [StopAll, Look, BootFound, Look, BootFound]
  }

  lemma {:induction false} PlayAppend(a: seq<Step>, b: seq<Step>, m: Machine, t: seq<Call>)
    ensures
      var first := Play(a, m, t);
      Play(a + b, m, t) == if first.value then Play(b, m, first.trace) else first
  {
    if a == [] {
      assert a + b == b;
    } else {
      assert (a + b)[1..] == a[1..] + b;
      PlayAppend(a[1..], b, m, t + [m.command(a[0], t)]);
    }
  }

  /** The k-th of all calls is what the script says after the calls before it. */
  predicate OnScript(script: seq<Step>, m: Machine, t: seq<Call>, end: seq<Call>, k: nat)
    requires |t| <= k < |end| <= |t| + |script|
  {
    end[k] == m.command(script[k - |t|], end[..k])
  }

  /** From t to end: the script's commands in order, each computed from the calls
      before it, and all of them successful but perhaps the last. */
  ghost predicate Shaped(script: seq<Step>, m: Machine, t: seq<Call>, end: seq<Call>) {
    && t <= end && |end| <= |t| + |script|
    && (forall k :: |t| <= k < |end| ==> OnScript(script, m, t, end, k))
    && (forall k :: |t| < k < |end| ==> m.succeeded(end[..k]))
  }

  lemma OnScriptCons(script: seq<Step>, m: Machine, t: seq<Call>, next: seq<Call>, end: seq<Call>, k: nat)
    requires script != [] && next == t + [m.command(script[0], t)] && next <= end && |end| <= |t| + |script|
    requires |t| <= k < |end| && (k >= |next| ==> OnScript(script[1..], m, next, end, k))
    ensures OnScript(script, m, t, end, k)
  {
    if k == |t| {
      assert end[..k] == t && end[k] == next[k];
    } else {
      assert script[1..][k - |next|] == script[k - |t|];
    }
  }

  lemma ShapedCons(script: seq<Step>, m: Machine, t: seq<Call>, next: seq<Call>, end: seq<Call>)
    requires script != [] && next == t + [m.command(script[0], t)]
    requires Shaped(script[1..], m, next, end) && (|next| < |end| ==> m.succeeded(next))
    ensures Shaped(script, m, t, end)
  {
    forall k | |t| <= k < |end| ensures OnScript(script, m, t, end, k) {
      OnScriptCons(script, m, t, next, end, k);
    }
    assert end[..|next|] == next;
  }

  /** What a played script leaves behind: its shape, and success exactly when the
      last command of the whole script was reached and succeeded. */
  lemma {:induction false} PlayShape(script: seq<Step>, m: Machine, t: seq<Call>)
    ensures
      var played := Play(script, m, t);
      && Shaped(script, m, t, played.trace)
      && (script != [] ==> |t| < |played.trace|)
      && (played.value ==> |played.trace| == |t| + |script| && (script != [] ==> m.succeeded(played.trace)))
      && (!played.value ==> !m.succeeded(played.trace))
  {
    if script != [] {
      var next := t + [m.command(script[0], t)];
      var end := Play(script, m, t).trace;
      if m.succeeded(next) {
        PlayShape(script[1..], m, next);
      } else {
        assert end == next;
      }
      ShapedCons(script, m, t, next, end);
    }
  }

  // ------------------------------------------------------------------
  // A repair plays its script

  function Message(o: Oracle, t: seq<Call>): string {
    match o(t) case Failed(message) => message case Output(_) => ""
  }

  lemma StartPlays(o: Oracle, t: seq<Call>)
    ensures
      var run := StartRun(o, t);
      && Play([Look, BootFound], MachineOf(o), t) == Ran(run.value.Ok?, run.trace)
      && (run.value.Err? ==> run.value.message == Message(o, run.trace))
  {
    var listed := t + [LIST];
    assert [Look, BootFound][1..] == [BootFound] && [BootFound][1..] == [];
    assert Command(Look, o, t) == LIST;
    if Succeeded(o, listed) {
      var booted := listed + [Command(BootFound, o, listed)];
      assert Play([BootFound], MachineOf(o), listed) == Ran(Succeeded(o, booted), booted);
    }
  }

  lemma ExecutePlays(a: Action, o: Oracle, t: seq<Call>)
    ensures
      var run := a.ExecuteRun(o, t);
      && Play(ScriptOf(a)[..|ScriptOf(a)| - 2], MachineOf(o), t) == Ran(run.value.Ok?, run.trace)
      && (run.value.Err? ==> run.value.message == Message(o, run.trace))
  {
    match a
    case WslStart =>
      assert ScriptOf(a)[..2] == [Look, BootFound];
      StartPlays(o, t);
    case WslRestart =>
      var stopped := t + [SHUTDOWN];
      assert ScriptOf(a)[..3] == [StopAll] + [Look, BootFound];
      PlayAppend([StopAll], [Look, BootFound], MachineOf(o), t);
      assert Play([StopAll], MachineOf(o), t) == Ran(Succeeded(o, stopped), stopped);
      StartPlays(o, stopped);
  }

  /** Execute then Verify is the whole script. The result text tells whether the
      failing command belonged to the execution or to the verification. */
  lemma CarriedPlays(a: Action, o: Oracle, t: seq<Call>)
    ensures
      var carried, played := Carried(a, o, t), Play(ScriptOf(a), MachineOf(o), t);
      && carried.trace == played.trace
      && (carried.value.success <==> played.value)
      && (carried.value.success ==> carried.value.result == "ok" && carried.value.verification == "component now passes verification")
      && (!carried.value.success ==>
            carried.value.verification == "" &&
            carried.value.result ==
              (if |played.trace| - |t| <= |ScriptOf(a)| - 2 then "execute failed: "
               else "executed but verification failed: ") + Message(o, played.trace))
  {
    var n := |ScriptOf(a)| - 2;
    var head := ScriptOf(a)[..n];
    assert ScriptOf(a) == head + [Look, BootFound];
    PlayAppend(head, [Look, BootFound], MachineOf(o), t);
    ExecutePlays(a, o, t);
    PlayShape(head, MachineOf(o), t);
    var middle := a.ExecuteRun(o, t).trace;
    if a.ExecuteRun(o, t).value.Ok? {
      StartPlays(o, middle);
      PlayShape([Look, BootFound], MachineOf(o), middle);
    }
  }

  // ------------------------------------------------------------------
  // Safety over every call of Execute

  /** The action that a call is about, applicable and permitted. */
  predicate Starts(id: string, confirmed: bool, components: seq<ComponentStatus>) {
    var a := Find(ACTIONS, id);
    a.Some? && a.value.CanExecute(components) && (a.value.RequiresConfirmation() ==> confirmed)
  }

  lemma FindIs(id: string)
    ensures id == "wsl.start" ==> Find(ACTIONS, id) == Some(WslStart)
    ensures id == "wsl.restart" ==> Find(ACTIONS, id) == Some(WslRestart)
    ensures Find(ACTIONS, id).Some? ==> Find(ACTIONS, id).value.Id() == id
  {
    assert ACTIONS[1..] == [WslRestart] && [WslRestart][1..] == [];
    assert "wsl.start"[4] != "wsl.restart"[4];
    assert Find([], id) == None;
    assert Find([WslRestart], id) == if id == "wsl.restart" then Some(WslRestart) else None;
  }

  /** A call runs commands exactly when it starts its action, and then it plays
      the action's script; errors and "no longer applicable" run none. */
  lemma ExecutedPlays(id: string, confirmed: bool, components: seq<ComponentStatus>, o: Oracle, t: seq<Call>)
    ensures
      var run := Executed(id, confirmed, components, o, t);
      && (!Starts(id, confirmed, components) ==> run.trace == t && (run.value.Ok? ==> run.value.value.result == NOT_APPLICABLE))
      && (Starts(id, confirmed, components) ==>
            var played := Play(ScriptOf(Find(ACTIONS, id).value), MachineOf(o), t);
            && run.value.Ok? && run.trace == played.trace && t < run.trace
            && (run.value.value.success <==> played.value))
      && (run.value.Ok? && run.value.value.success ==> Starts(id, confirmed, components))
  {
    if Starts(id, confirmed, components) {
      var a := Find(ACTIONS, id).value;
      CarriedPlays(a, o, t);
      PlayShape(ScriptOf(a), MachineOf(o), t);
    }
  }

  /** When a call of Execute is refused, and what it answers when it neither is
      refused nor starts anything. */
  lemma ExecuteAnswers(id: string, confirmed: bool, components: seq<ComponentStatus>, o: Oracle, t: seq<Call>)
    ensures
      var r := Executed(id, confirmed, components, o, t).value;
      var unknown := id !in {"wsl.start", "wsl.restart"};
      var unconfirmed := id == "wsl.restart" && !confirmed && WslRestart.CanExecute(components);
      && (r.Err? <==> unknown || unconfirmed)
      && (unknown ==> r.message == "unknown repair action \"" + id + "\"")
      && (unconfirmed ==> r.message == "confirmation required for wsl.restart")
      && (r.Ok? ==> r.value.actionId == id && r.value.componentId == "wsl")
      && (r.Ok? && !Starts(id, confirmed, components) ==>
            r.value == RepairOutcome(id, "wsl", false, "action no longer applicable; re-run doctor", ""))
  {
    FindIs(id);
    if id in {"wsl.start", "wsl.restart"} {
      var a := if id == "wsl.start" then WslStart else WslRestart;
      AnswerOf(a, confirmed, components, o, t);
    }
  }

  lemma AnswerOf(a: Action, confirmed: bool, components: seq<ComponentStatus>, o: Oracle, t: seq<Call>)
    requires Find(ACTIONS, a.Id()) == Some(a)
    ensures
      var r := Executed(a.Id(), confirmed, components, o, t).value;
      && (r.Err? <==> a.WslRestart? && !confirmed && a.CanExecute(components))
      && (r.Err? ==> r.message == "confirmation required for " + a.Id())
      && (r.Ok? ==> r.value.actionId == a.Id() && r.value.componentId == "wsl")
      && (r.Ok? && !Starts(a.Id(), confirmed, components) ==>
            r.value == RepairOutcome(a.Id(), "wsl", false, NOT_APPLICABLE, ""))
  {
  }

  predicate ShutdownIn(t: seq<Call>, end: seq<Call>) {
    exists k :: |t| <= k < |end| && end[k] == SHUTDOWN
  }

  /** A shutdown is issued only by a confirmed, applicable restart, only as its
      first command, and by every such restart. */
  lemma ShutdownOnlyWhenAllowed(id: string, confirmed: bool, components: seq<ComponentStatus>, o: Oracle, t: seq<Call>)
    ensures
      var end := Executed(id, confirmed, components, o, t).trace;
      && t <= end
      && (ShutdownIn(t, end) <==> id == "wsl.restart" && confirmed && WslRestart.CanExecute(components))
      && forall k :: |t| < k < |end| ==> end[k] != SHUTDOWN
  {
    FindIs(id);
    ExecutedPlays(id, confirmed, components, o, t);
    if Starts(id, confirmed, components) {
      var a := Find(ACTIONS, id).value;
      var end := Executed(id, confirmed, components, o, t).trace;
      PlayShape(ScriptOf(a), MachineOf(o), t);
      ShutdownsOfScript(a, o, t, end);
    }
  }

  lemma ShutdownsOfScript(a: Action, o: Oracle, t: seq<Call>, end: seq<Call>)
    requires Shaped(ScriptOf(a), MachineOf(o), t, end) && |t| < |end|
    ensures end[|t|] == SHUTDOWN <==> a.WslRestart?
    ensures forall k :: |t| < k < |end| ==> end[k] != SHUTDOWN
  {
    assert LIST[0] != SHUTDOWN[0];
    forall k | |t| <= k < |end| ensures end[k] == SHUTDOWN <==> ScriptOf(a)[k - |t|].StopAll? {
      assert OnScript(ScriptOf(a), MachineOf(o), t, end, k);
    }
  }

  /** Every command after t succeeded. */
  ghost predicate AllSucceeded(o: Oracle, t: seq<Call>, end: seq<Call>) {
    forall k :: |t| < k <= |end| ==> Succeeded(o, end[..k])
  }

  /** The last command successfully booted the default distro of the listing just before it. */
  predicate EndsInBoot(o: Oracle, t: seq<Call>, end: seq<Call>) {
    && |t| + 2 <= |end|
    && var last := |end| - 1;
       && end[last - 1] == LIST && Succeeded(o, end[..last])
       && end[last] == BootCall(Found(o, end[..last])) && Succeeded(o, end)
  }

  /** Success means that the action was started and every one of its commands
      succeeded; then the last one booted the default distro just listed. That
      default may be the empty name. */
  lemma SuccessMeans(id: string, confirmed: bool, components: seq<ComponentStatus>, o: Oracle, t: seq<Call>)
    ensures
      var run := Executed(id, confirmed, components, o, t);
      var success := run.value.Ok? && run.value.value.success;
      && (success <==> Starts(id, confirmed, components) && AllSucceeded(o, t, run.trace))
      && (success ==> EndsInBoot(o, t, run.trace))
  {
    ExecutedPlays(id, confirmed, components, o, t);
    if Starts(id, confirmed, components) {
      PlayedSuccess(Find(ACTIONS, id).value, o, t);
    }
  }

  lemma PlayedSuccess(a: Action, o: Oracle, t: seq<Call>)
    ensures
      var played := Play(ScriptOf(a), MachineOf(o), t);
      && (played.value <==> AllSucceeded(o, t, played.trace))
      && (played.value ==> EndsInBoot(o, t, played.trace))
  {
    var front := ScriptOf(a)[..|ScriptOf(a)| - 2];
    assert ScriptOf(a) == front + [Look, BootFound];
    var played := Play(ScriptOf(a), MachineOf(o), t);
    PlaySuccess(front, Look, BootFound, MachineOf(o), t, played);
    SameSuccess(o, t, played.trace);
    if played.value {
      BootsLast(o, t, played.trace);
    }
  }

  ghost predicate AllGood(m: Machine, t: seq<Call>, end: seq<Call>) {
    forall k :: |t| < k <= |end| ==> m.succeeded(end[..k])
  }

  /** The last two commands were those of the steps a and b, and both succeeded. */
  predicate EndsWith(m: Machine, a: Step, b: Step, t: seq<Call>, end: seq<Call>) {
    && |t| + 2 <= |end|
    && var last := |end| - 1;
       && end[last - 1] == m.command(a, end[..last - 1]) && m.succeeded(end[..last])
       && end[last] == m.command(b, end[..last]) && m.succeeded(end)
  }

  lemma PlaySuccess(front: seq<Step>, a: Step, b: Step, m: Machine, t: seq<Call>, played: Ran<bool>)
    requires played == Play(front + [a, b], m, t)
    ensures played.value <==> AllGood(m, t, played.trace)
    ensures played.value ==> EndsWith(m, a, b, t, played.trace)
  {
    var script, end := front + [a, b], played.trace;
    PlayShape(script, m, t);
    assert end[..|end|] == end;
    if played.value {
      assert OnScript(script, m, t, end, |end| - 2) && OnScript(script, m, t, end, |end| - 1);
    }
  }

  lemma BootsLast(o: Oracle, t: seq<Call>, end: seq<Call>)
    requires EndsWith(MachineOf(o), Look, BootFound, t, end)
    ensures EndsInBoot(o, t, end)
  {
  }

  lemma SameSuccess(o: Oracle, t: seq<Call>, end: seq<Call>)
    ensures AllGood(MachineOf(o), t, end) <==> AllSucceeded(o, t, end)
  {
    assert forall k :: 0 <= k <= |end| ==> MachineOf(o).succeeded(end[..k]) == Succeeded(o, end[..k]);
  }

  // ------------------------------------------------------------------
  // Plan and Execute agree

  function Ids(plan: seq<RepairAction>): (ids: seq<string>)
    ensures |ids| == |plan| && forall i :: 0 <= i < |plan| ==> ids[i] == plan[i].actionId
  {
    seq(|plan|, i requires 0 <= i < |plan| => plan[i].actionId)
  }

  /** Whatever can be repaired by starting can be repaired by restarting. */
  lemma StartImpliesRestart(components: seq<ComponentStatus>)
    requires WslStart.CanExecute(components)
    ensures WslRestart.CanExecute(components)
  {
    var i :| 0 <= i < |components| && WslCriticalOne(components[i], WslStart.Keywords());
    assert Contains(ToLower(components[i].summary), WslRestart.Keywords()[0]);
    assert WslCriticalOne(components[i], WslRestart.Keywords());
  }

  lemma PlanOfTwo(components: seq<ComponentStatus>)
    ensures PlanFor(components) ==
              (if WslStart.CanExecute(components) then [Offer(WslStart)] else []) +
              (if WslRestart.CanExecute(components) then [Offer(WslRestart)] else [])
  {
    assert ACTIONS == [WslStart] + [WslRestart];
    PlannedLast([], WslStart, components);
    PlannedLast([WslStart], WslRestart, components);
    assert [] + [WslStart] == [WslStart];
  }

  lemma PlannedLast(actions: seq<Action>, a: Action, components: seq<ComponentStatus>)
    ensures Planned(actions + [a], components) ==
              Planned(actions, components) + if a.CanExecute(components) then [Offer(a)] else []
  {
    assert (actions + [a])[..|actions|] == actions;
  }

  lemma IdsOfTwo(start: bool, restart: bool)
    ensures
      var plan := (if start then [Offer(WslStart)] else []) + (if restart then [Offer(WslRestart)] else []);
      Ids(plan) == (if start then ["wsl.start"] else []) + (if restart then ["wsl.restart"] else [])
  {
  }

  /** There are only three plans, and all of them are offered as safe. */
  lemma PlanShapes(components: seq<ComponentStatus>)
    ensures
      var start := RepairAction("wsl", "wsl.start", true, false);
      var restart := RepairAction("wsl", "wsl.restart", true, true);
      var plan := PlanFor(components);
      && (plan == [] || plan == [restart] || plan == [start, restart])
      && (Ids(plan) == [] || Ids(plan) == ["wsl.restart"] || Ids(plan) == ["wsl.start", "wsl.restart"])
  {
    PlanOfTwo(components);
    IdsOfTwo(WslStart.CanExecute(components), WslRestart.CanExecute(components));
    if WslStart.CanExecute(components) {
      StartImpliesRestart(components);
    }
  }

  /** The plan lists exactly what a confirmed Execute would start on the same
      components; without confirmation, only what needs none. */
  lemma PlanIsWhatExecuteStarts(id: string, components: seq<ComponentStatus>, o: Oracle, t: seq<Call>)
    ensures Executed(id, true, components, o, t).trace != t <==> id in Ids(PlanFor(components))
    ensures Executed(id, false, components, o, t).trace != t <==>
              id in Ids(PlanFor(components)) && id != "wsl.restart"
  {
    FindIs(id);
    PlanOfTwo(components);
    ExecutedPlays(id, true, components, o, t);
    ExecutedPlays(id, false, components, o, t);
    PlannedIds(id, components);
  }

  lemma PlannedIds(id: string, components: seq<ComponentStatus>)
    ensures id in Ids(PlanFor(components)) <==> Starts(id, true, components)
    ensures Starts(id, false, components) <==> Starts(id, true, components) && id != "wsl.restart"
  {
    FindIs(id);
    PlanOfTwo(components);
    IdsOfTwo(WslStart.CanExecute(components), WslRestart.CanExecute(components));
  }
}
