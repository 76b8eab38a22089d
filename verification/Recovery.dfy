/** The repair actions: what is planned, what is executed, and what may happen
    on the way. */
module Recovery {
  import opened GoStrings
  import opened Wsl
  import opened Health

  // ------------------------------------------------------------------
  // strings.ToLower, as far as an ASCII keyword can tell

  function LowerByte(c: char): char {
    if 'A' <= c <= 'Z' then (c as int + 32) as char else c
  }

  const KELVIN: string := [0xE2 as char, 0x84 as char, 0xAA as char]
  const DOTTED_I: string := [0xC4 as char, 0xB0 as char]

  /** Two runes outside ASCII have an ASCII lower case; all others keep bytes of 0x80 and above. */
  function ToLower(s: string): string
    decreases |s|
  {
    if s == "" then ""
    else if KELVIN <= s then "k" + ToLower(s[3..])
    else if DOTTED_I <= s then "i" + ToLower(s[2..])
    else [LowerByte(s[0])] + ToLower(s[1..])
  }

  predicate SummaryHas(c: ComponentStatus, keywords: seq<string>) {
    exists i :: 0 <= i < |keywords| && Contains(ToLower(c.summary), keywords[i])
  }

  predicate WslCriticalOne(c: ComponentStatus, keywords: seq<string>) {
    c.id == "wsl" && c.status == Critical && SummaryHas(c, keywords)
  }

  predicate WslCritical(components: seq<ComponentStatus>, keywords: seq<string>) {
    exists i :: 0 <= i < |components| && WslCriticalOne(components[i], keywords)
  }

  // ------------------------------------------------------------------
  // Runs of commands: a result and the calls made so far

  datatype Ran<+T> = Ran(value: T, trace: seq<Call>)

  /** Find the default distro, then boot it. */
  function StartRun(o: Oracle, t: seq<Call>): Ran<Result<()>> {
    var listed := t + [LIST];
    match DefaultAnswer(o(listed))
    case Err(message) => Ran(Err(message), listed)
    case Ok(distro) =>
      var booted := listed + [BootCall(distro)];
      Ran(Finished(o(booted)), booted)
  }

  method StartDefault(run: Runner) returns (r: Result<()>)
    modifies run
    ensures Ran(r, run.trace) == StartRun(run.oracle, old(run.trace))
  {
    var distro := DefaultDistro(run);
    if distro.Err? {
      return Err(distro.message);
    }
    r := Boot(run, distro.value);
  }

  datatype Action = WslStart | WslRestart {
    function Id(): string {
      match this
      case WslStart => "wsl.start"
      case WslRestart => "wsl.restart"
    }

    function ComponentId(): string {
      "wsl"
    }

    predicate RequiresConfirmation() {
      WslRestart?
    }

    function Keywords(): seq<string> {
      match this
      case WslStart => ["failed to start"]
      case WslRestart => ["failed to start", "could not query", "broken"]
    }

    predicate CanExecute(components: seq<ComponentStatus>) {
      WslCritical(components, Keywords())
    }

    function ExecuteRun(o: Oracle, t: seq<Call>): Ran<Result<()>> {
      match this
      case WslStart => StartRun(o, t)
      case WslRestart =>
        var stopped := t + [SHUTDOWN];
        match Finished(o(stopped))
        case Err(message) => Ran(Err(message), stopped)
        case Ok(_) => StartRun(o, stopped)
    }

    method Execute(run: Runner) returns (r: Result<()>)
      modifies run
      ensures Ran(r, run.trace) == ExecuteRun(run.oracle, old(run.trace))
    {
      match this {
        case WslStart =>
        case WslRestart =>
          var stopped := Shutdown(run);
          if stopped.Err? {
            return Err(stopped.message);
          }
      }
      r := StartDefault(run);
    }

    /** Both actions verify alike. */
    method Verify(run: Runner) returns (r: Result<()>)
      modifies run
      ensures Ran(r, run.trace) == StartRun(run.oracle, old(run.trace))
    {
      r := StartDefault(run);
    }
  }

  const ACTIONS: seq<Action> := [WslStart, WslRestart]

  /** Without the texts that are only displayed. */
  datatype RepairAction = RepairAction(componentId: string, actionId: string, safe: bool, requiresConfirmation: bool)

  datatype RepairOutcome = RepairOutcome(
    actionId: string, componentId: string, success: bool, result: string, verification: string)

  // ------------------------------------------------------------------
  // Plan

  function Offer(a: Action): RepairAction {
    RepairAction(a.ComponentId(), a.Id(), true, a.RequiresConfirmation())
  }

  /** The applicable ones among the actions, in their order. */
  function Planned(actions: seq<Action>, components: seq<ComponentStatus>): seq<RepairAction> {
    if actions == [] then [] else
      var n := |actions| - 1;
      Planned(actions[..n], components) + (if actions[n].CanExecute(components) then [Offer(actions[n])] else [])
  }

  function PlanFor(components: seq<ComponentStatus>): seq<RepairAction> {
    Planned(ACTIONS, components)
  }

  method Plan(components: seq<ComponentStatus>) returns (out: seq<RepairAction>)
    ensures out == PlanFor(components)
  {
    out := [];
    for i := 0 to |ACTIONS|
      invariant out == Planned(ACTIONS[..i], components)
    {
      var a := ACTIONS[i];
      assert ACTIONS[..i + 1][..i] == ACTIONS[..i];
      if !a.CanExecute(components) {
        continue;
      }
      out := out + [Offer(a)];
    }
    assert ACTIONS[..|ACTIONS|] == ACTIONS;
  }

  // ------------------------------------------------------------------
  // Execute

  function Find(actions: seq<Action>, id: string): Option<Action> {
    if actions == [] then None
    else if actions[0].Id() == id then Some(actions[0])
    else Find(actions[1..], id)
  }

  function Failure(a: Action, result: string): RepairOutcome {
    RepairOutcome(a.Id(), a.ComponentId(), false, result, "")
  }

  const NOT_APPLICABLE := "action no longer applicable; re-run doctor"
  const VERIFIED := "component now passes verification"

  function UnknownAction(id: string): string {
    "unknown repair action \"" + id + "\""
  }

  /** An applicable, permitted action: execute, then verify. */
  function Carried(a: Action, o: Oracle, t: seq<Call>): Ran<RepairOutcome> {
    var done := a.ExecuteRun(o, t);
    match done.value
    case Err(message) => Ran(Failure(a, "execute failed: " + message), done.trace)
    case Ok(_) =>
      var checked := StartRun(o, done.trace);
      match checked.value
      case Err(message) => Ran(Failure(a, "executed but verification failed: " + message), checked.trace)
      case Ok(_) => Ran(RepairOutcome(a.Id(), a.ComponentId(), true, "ok", VERIFIED), checked.trace)
  }

  function Executed(id: string, confirmed: bool, components: seq<ComponentStatus>, o: Oracle, t: seq<Call>)
    : Ran<Result<RepairOutcome>>
  {
    match Find(ACTIONS, id)
    case None => Ran(Err(UnknownAction(id)), t)
    case Some(a) =>
      if !a.CanExecute(components) then Ran(Ok(Failure(a, NOT_APPLICABLE)), t)
      else if a.RequiresConfirmation() && !confirmed then Ran(Err("confirmation required for " + id), t)
      else
        var carried := Carried(a, o, t);
        Ran(Ok(carried.value), carried.trace)
  }

  method Execute(run: Runner, id: string, confirmed: bool, components: seq<ComponentStatus>)
    returns (r: Result<RepairOutcome>)
    modifies run
    ensures Ran(r, run.trace) == Executed(id, confirmed, components, run.oracle, old(run.trace))
  {
    for i := 0 to |ACTIONS|
      invariant run.trace == old(run.trace)
      invariant Find(ACTIONS, id) == Find(ACTIONS[i..], id)
    {
      var a := ACTIONS[i];
      if a.Id() != id {
        continue;
      }
      if !a.CanExecute(components) {
        return Ok(RepairOutcome(id, a.ComponentId(), false, NOT_APPLICABLE, ""));
      }
      if a.RequiresConfirmation() && !confirmed {
        return Err("confirmation required for " + id);
      }
      var outcome := RepairOutcome(id, a.ComponentId(), false, "", "");
      var executed := a.Execute(run);
      if executed.Err? {
        return Ok(outcome.(result := "execute failed: " + executed.message));
      }
      var verified := a.Verify(run);
      if verified.Err? {
        return Ok(outcome.(result := "executed but verification failed: " + verified.message));
      }
      return Ok(outcome.(success := true, result := "ok", verification := VERIFIED));
    }
    return Err(UnknownAction(id));
  }
}
