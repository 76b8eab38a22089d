/** The probes that ask wsl.exe, and the snapshot of all components. */
module Diagnosis {
  import opened GoStrings
  import opened Containers
  import DistroTable
  import opened Wsl
  import opened Health
  import opened Recovery
  import opened Docker

  // ------------------------------------------------------------------
  // wslProbe

  const NOT_INSTALLED := "WSL is not installed"
  const NOT_QUERIED := "could not query WSL status"
  const NO_DEFAULT := "no default Linux distribution"
  const NOT_STARTED := "Linux environment failed to start"
  const READY := "WSL2 ready; default distro "

  function StoppedOrRunning(distros: seq<DistroTable.Distro>): string {
    if distros == [] then ""
    else if !distros[0].isDefault then StoppedOrRunning(distros[1..])
    else if !distros[0].running then " (stopped; boots on demand)"
    else " (running)"
  }

  function WslRun(installed: bool, o: Oracle, t: seq<Call>): Ran<ComponentStatus> {
    if !installed then Ran(ComponentStatus("", Critical, NOT_INSTALLED, false), t) else
      var listed := t + [LIST];
      match DefaultAnswer(o(listed))
      case Err(_) => Ran(ComponentStatus("", Critical, NOT_QUERIED, true), listed)
      case Ok(distro) =>
        if distro == "" then Ran(ComponentStatus("", Warning, NO_DEFAULT, false), listed) else
          var booted := listed + [BootCall(distro)];
          if o(booted).Failed? then Ran(ComponentStatus("", Critical, NOT_STARTED, true), booted) else
            var again := booted + [LIST];
            var suffix := match ListAnswer(o(again))
              case Ok(distros) => StoppedOrRunning(distros)
              case Err(_) => "";
            Ran(ComponentStatus("", Healthy, READY + distro + suffix, false), again)
  }

  method WslProbe(run: Runner, installed: bool) returns (c: ComponentStatus)
    modifies run
    ensures Ran(c, run.trace) == WslRun(installed, run.oracle, old(run.trace))
  {
    if !installed {
      return ComponentStatus("", Critical, NOT_INSTALLED, false);
    }
    var distro := DefaultDistro(run);
    if distro.Err? {
      return ComponentStatus("", Critical, NOT_QUERIED, true);
    }
    if distro.value == "" {
      return ComponentStatus("", Warning, NO_DEFAULT, false);
    }
    var booted := Boot(run, distro.value);
    if booted.Err? {
      return ComponentStatus("", Critical, NOT_STARTED, true);
    }
    var summary := READY + distro.value;
    var distros := List(run);
    if distros.Ok? {
      var suffix := Suffix(distros.value);
      summary := summary + suffix;
    } else {
      assert summary + "" == summary;
    }
    return ComponentStatus("", Healthy, summary, false);
  }

  method Suffix(distros: seq<DistroTable.Distro>) returns (s: string)
    ensures s == StoppedOrRunning(distros)
  {
    for i := 0 to |distros|
      invariant StoppedOrRunning(distros) == StoppedOrRunning(distros[i..])
    {
      if distros[i].isDefault {
        return if !distros[i].running then " (stopped; boots on demand)" else " (running)";
      }
    }
    return "";
  }

  // ------------------------------------------------------------------
  // kernelProbe

  /** Everything before the first '-', '+' or '_'. */
  function Core(s: string): string {
    if s == "" || s[0] in {'-', '+', '_'} then "" else [s[0]] + Core(s[1..])
  }

  function ParseKernelVersion(s: string): Option<(int, int)> {
    var parts := Split(Core(s), '.');
    if |parts| < 2 then None else
      match (Atoi(parts[0]), Atoi(parts[1]))
      case (Some(major), Some(minor)) => Some((major, minor))
      case _ => None
  }

  predicate TooOld(version: (int, int)) {
    version.0 < 5 || (version.0 == 5 && version.1 < 10)
  }

  function KernelRun(installed: bool, o: Oracle, t: seq<Call>): Ran<ComponentStatus> {
    if !installed then Ran(ComponentStatus("", Unknown, "WSL not installed; kernel probe skipped", false), t) else
      var asked := t + [VERSION];
      match KernelAnswer(o(asked))
      case Err(_) => Ran(ComponentStatus("", Unknown, "kernel version unavailable", false), asked)
      case Ok(kv) =>
        if kv == "" then Ran(ComponentStatus("", Unknown, "kernel version unavailable", false), asked)
        else
          match ParseKernelVersion(kv)
          case Some(v) =>
            if TooOld(v) then
              Ran(ComponentStatus("", Warning, "kernel " + kv + " is older than the required 5.10", false), asked)
            else Ran(ComponentStatus("", Healthy, kv, false), asked)
          case None => Ran(ComponentStatus("", Healthy, kv, false), asked)
  }

  method KernelProbe(run: Runner, installed: bool) returns (c: ComponentStatus)
    modifies run
    ensures Ran(c, run.trace) == KernelRun(installed, run.oracle, old(run.trace))
  {
    if !installed {
      return ComponentStatus("", Unknown, "WSL not installed; kernel probe skipped", false);
    }
    var kv := KernelVersion(run);
    if kv.Err? || kv.value == "" {
      return ComponentStatus("", Unknown, "kernel version unavailable", false);
    }
    var version := ParseKernelVersion(kv.value);
    if version.None? {
      return ComponentStatus("", Healthy, kv.value, false);
    }
    if TooOld(version.value) {
      return ComponentStatus("", Warning, "kernel " + kv.value + " is older than the required 5.10", false);
    }
    return ComponentStatus("", Healthy, kv.value, false);
  }

  // ------------------------------------------------------------------
  // containerProbe

  /** %d */
  function Digits(n: nat): string {
    (if n < 10 then "" else Digits(n / 10)) + [(n % 10 + '0' as int) as char]
  }

  function Counts(containers: seq<Container>): string {
    "; " + Digits(|Running(containers)|) + " running, " + Digits(|containers|) + " total"
  }

  function Ready(server: string, containers: Option<seq<Container>>): string {
    "Docker ready (server " + server + ")" + (if containers.Some? then Counts(containers.value) else "")
  }

  function ContainerRun(installed: bool, o: Oracle, t: seq<Call>): Ran<ComponentStatus> {
    if !installed then Ran(ComponentStatus("", Unknown, "WSL not installed; container check skipped", false), t) else
      var pinged := PingRun(o, t);
      var info := pinged.value;
      if info.err.Some? then Ran(ComponentStatus("", Unknown, "cannot reach container runtime", false), pinged.trace)
      else if info.clientVersion == "" then
        Ran(ComponentStatus("", Warning, "Docker CLI is not installed in the default distribution", false), pinged.trace)
      else if info.serverVersion == "" then
        Ran(ComponentStatus("", Critical, "Docker CLI present but the Docker daemon is not responding", false), pinged.trace)
      else
        var listed := ContainersRun(o, pinged.trace);
        Ran(ComponentStatus("", Healthy, Ready(info.serverVersion, listed.value), false), listed.trace)
  }

  method ContainerProbe(run: Runner, installed: bool) returns (c: ComponentStatus)
    modifies run
    ensures Ran(c, run.trace) == ContainerRun(installed, run.oracle, old(run.trace))
  {
    if !installed {
      return ComponentStatus("", Unknown, "WSL not installed; container check skipped", false);
    }
    var info := Ping(run);
    if info.err.Some? {
      return ComponentStatus("", Unknown, "cannot reach container runtime", false);
    }
    if info.clientVersion == "" {
      return ComponentStatus("", Warning, "Docker CLI is not installed in the default distribution", false);
    }
    if info.serverVersion == "" {
      return ComponentStatus("", Critical, "Docker CLI present but the Docker daemon is not responding", false);
    }
    var summary := "Docker ready (server " + info.serverVersion + ")";
    var containers := ListAll(run);
    if containers.Some? {
      var running := CountRunning(containers.value);
      summary := summary + ("; " + Digits(running) + " running, " + Digits(|containers.value|) + " total");
    } else {
      assert summary + "" == summary;
    }
    return ComponentStatus("", Healthy, summary, false);
  }

  lemma {:induction false} DigitsRead(n: nat)
    ensures AllDigits(Digits(n)) && Digits(n) != "" && Decimal(Digits(n)) == n
    ensures Digits(n)[0] == '0' ==> n == 0 && |Digits(n)| == 1
  {
    var s := Digits(n);
    assert s[..|s| - 1] == if n < 10 then "" else Digits(n / 10);
    if n >= 10 {
      DigitsRead(n / 10);
    }
  }

  lemma ListedAsPrinted(o: Oracle, t: seq<Call>, out: string, cs: seq<Container>, newline: bool)
    requires GoodListing(cs) && out == Listing(cs, newline)
    requires ExecRun(PS + ["-a"], o, t).value == Done(out)
    ensures ContainersRun(o, t).value == Some(cs)
  {
    ListingReadsBack(cs, newline);
  }

  // ------------------------------------------------------------------
  // All components

  datatype Probe = AskDaemon | AskWsl | AskKernel | AskContainers | AskHost | NotDiagnosed

  /** What lies outside the model: whether wsl.exe is on the path, what the
      probes of the host itself report, and which probes panic with what message. */
  datatype Surroundings = Surroundings(
    installed: bool, host: string -> ComponentStatus, panics: string -> Option<string>)

  function Probed(c: Component<Probe>, env: Surroundings, o: Oracle, t: seq<Call>): Ran<Answer> {
    if env.panics(c.id).Some? then Ran(Panicked(env.panics(c.id).value), t) else
      var run := match c.probe
        case AskDaemon => Ran(ComponentStatus("", Healthy, "daemon running", false), t)
        case AskWsl => WslRun(env.installed, o, t)
        case AskKernel => KernelRun(env.installed, o, t)
        case AskContainers => ContainerRun(env.installed, o, t)
        case AskHost => Ran(env.host(c.id), t)
        case NotDiagnosed => Ran(ComponentStatus("", Unknown, "", false), t);
      Ran(Reported(run.value), run.trace)
  }

  method Evaluate(c: Component<Probe>, env: Surroundings, run: Runner) returns (answer: Answer)
    modifies run
    ensures Ran(answer, run.trace) == Probed(c, env, run.oracle, old(run.trace))
  {
    var panic := env.panics(c.id);
    if panic.Some? {
      return Panicked(panic.value);
    }
    var status;
    match c.probe {
      case AskDaemon => status := ComponentStatus("", Healthy, "daemon running", false);
      case AskWsl => status := WslProbe(run, env.installed);
      case AskKernel => status := KernelProbe(run, env.installed);
      case AskContainers => status := ContainerProbe(run, env.installed);
      case AskHost => status := env.host(c.id);
      case NotDiagnosed => status := ComponentStatus("", Unknown, "", false);
    }
    return Reported(status);
  }

  /** Every component in registration order, one after the other. */
  function SnapshotRun(components: seq<Component<Probe>>, env: Surroundings, o: Oracle, t: seq<Call>)
    : (r: Ran<seq<ComponentStatus>>)
    ensures |r.value| == |components|
    ensures forall i :: 0 <= i < |components| ==> r.value[i].id == components[i].id && r.value[i].status != Unspecified
  {
    if components == [] then Ran([], t) else
      var n := |components| - 1;
      var before := SnapshotRun(components[..n], env, o, t);
      var last := Probed(components[n], env, o, before.trace);
      Ran(before.value + [Present(components[n].id, last.value)], last.trace)
  }

  method Snapshot(registry: Registry<Probe>, env: Surroundings, run: Runner) returns (out: seq<ComponentStatus>)
    modifies run
    ensures Ran(out, run.trace) == SnapshotRun(registry.components, env, run.oracle, old(run.trace))
  {
    var components := registry.components;
    out := [];
    for i := 0 to |components|
      invariant registry.components == components
      invariant Ran(out, run.trace) == SnapshotRun(components[..i], env, run.oracle, old(run.trace))
    {
      assert components[..i + 1][..i] == components[..i];
      var answer := Evaluate(components[i], env, run);
      out := out + [Present(components[i].id, answer)];
    }
    assert components[..|components|] == components;
  }

  const ENTRIES: seq<Component<Probe>> := [
    Component("daemon", AskDaemon), Component("windows", AskHost), Component("virtualization", AskHost),
    Component("wsl", AskWsl), Component("linux_kernel", AskKernel), Component("resources", AskHost),
    Component("container_runtime", AskContainers)]

  /** The default registry; no registration fails. */
  method DefaultRegistry() returns (registry: Registry<Probe>)
    ensures fresh(registry) && DistinctIds(registry.components)
    ensures registry.components == ENTRIES
  {
    registry := new Registry(NotDiagnosed);
    for i := 0 to |ENTRIES|
      invariant registry.components == ENTRIES[..i] && DistinctIds(registry.components)
    {
      EntriesDistinct();
      assert forall c :: c in ENTRIES[..i] ==> c.id != ENTRIES[i].id;
      var ok := registry.Register(ENTRIES[i].id, Some(ENTRIES[i].probe));
      assert ENTRIES[..i + 1] == ENTRIES[..i] + [ENTRIES[i]];
    }
  }

  lemma EntriesDistinct()
    ensures DistinctIds(ENTRIES)
  {
  }
}
