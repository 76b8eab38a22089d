/** The probes from end to end: what they report when wsl.exe and docker print
    what they print. */
module ProbeReadings {
  import opened GoStrings
  import opened Unicode
  import opened WslOutput
  import opened DistroTable
  import opened DistroRoundTrip
  import opened Wsl
  import opened Answers
  import opened Health
  import opened Recovery
  import opened Containers
  import opened Docker
  import opened Diagnosis

  // ------------------------------------------------------------------
  // A printed table, in whatever encoding

  ghost predicate PrintedAs(reply: Reply, lines: seq<TableLine>, vs: seq<Rune>, form: Form, indent: nat, titles: string) {
    && '\n' !in titles && GoodLines(lines)
    && Text(vs) == Table(indent, titles, lines) && 0 as char !in Text(vs)
    && reply == Output(Encode(vs, form))
  }

  ghost predicate Prints(reply: Reply, lines: seq<TableLine>) {
    exists vs, form, indent, titles :: PrintedAs(reply, lines, vs, form, indent, titles)
  }

  lemma PrintsReadBack(reply: Reply, lines: seq<TableLine>)
    requires Prints(reply, lines)
    ensures GoodLines(lines) && ListAnswer(reply) == Ok(Listed(lines))
    ensures DefaultAnswer(reply) == Ok(FirstDefault(Listed(lines)))
  {
    var vs, form, indent, titles :| PrintedAs(reply, lines, vs, form, indent, titles);
    ListReadsBack(vs, form, indent, titles, lines);
  }

  predicate Marked(l: TableLine) {
    l.Row? && l.distro.isDefault
  }

  /** The i-th line is the first that is marked as default. */
  predicate DefaultRow(lines: seq<TableLine>, i: nat) {
    i < |lines| && Marked(lines[i]) && forall j :: 0 <= j < i ==> !Marked(lines[j])
  }

  lemma {:induction false} NoneListed(lines: seq<TableLine>)
    requires forall j :: 0 <= j < |lines| ==> !Marked(lines[j])
    ensures FirstDefault(Listed(lines)) == ""
  {
    if lines != [] {
      NoneListed(lines[1..]);
      ListedFirst(lines);
    }
  }

  lemma ListedFirst(lines: seq<TableLine>)
    requires lines != []
    ensures !lines[0].Row? ==> Listed(lines) == Listed(lines[1..])
    ensures lines[0].Row? ==> Listed(lines) != [] && Listed(lines)[0] == lines[0].distro && Listed(lines)[1..] == Listed(lines[1..])
  {
  }

  function StateNote(state: string): string {
    if state == "Running" then " (running)" else " (stopped; boots on demand)"
  }

  lemma {:induction false} DefaultListed(lines: seq<TableLine>, i: nat)
    requires DefaultRow(lines, i) && GoodLine(lines[i])
    ensures FirstDefault(Listed(lines)) == lines[i].distro.name
    ensures StoppedOrRunning(Listed(lines)) == StateNote(lines[i].state)
    decreases i
  {
    ListedFirst(lines);
    if i > 0 {
      DefaultListed(lines[1..], i - 1);
    }
  }

  lemma DefaultPrinted(reply: Reply, lines: seq<TableLine>, i: nat)
    requires Prints(reply, lines) && DefaultRow(lines, i)
    ensures DefaultAnswer(reply) == Ok(lines[i].distro.name) && lines[i].distro.name != ""
    ensures ListAnswer(reply).Ok? && StoppedOrRunning(ListAnswer(reply).value) == StateNote(lines[i].state)
  {
    PrintsReadBack(reply, lines);
    assert GoodLine(lines[i]);
    DefaultListed(lines, i);
  }

  // ------------------------------------------------------------------
  // wslProbe

  /** Without wsl.exe, or when it fails. */
  lemma WslUnavailable(installed: bool, o: Oracle, t: seq<Call>)
    ensures
      var run, listed := WslRun(installed, o, t), t + [["--list", "--verbose"]];
      && (!installed ==> run == Ran(ComponentStatus("", Critical, "WSL is not installed", false), t))
      && (installed && o(listed).Failed? ==>
            run == Ran(ComponentStatus("", Critical, "could not query WSL status", true), listed))
  {
  }

  /** A table without a default distro gives a warning, and nothing is booted. */
  lemma NoDefaultWarns(o: Oracle, t: seq<Call>, lines: seq<TableLine>)
    requires
      var listed := t + [["--list", "--verbose"]];
      Prints(o(listed), lines) && forall j :: 0 <= j < |lines| ==> !Marked(lines[j])
    ensures WslRun(true, o, t) ==
              Ran(ComponentStatus("", Warning, "no default Linux distribution", false), t + [["--list", "--verbose"]])
  {
    PrintsReadBack(o(t + [LIST]), lines);
    NoneListed(lines);
  }

  /** The calls that list the distros and then boot one. */
  function BootedCalls(t: seq<Call>, name: string): seq<Call> {
    t + [["--list", "--verbose"]] + [["--distribution", name, "--", "echo", "envorca:boot"]]
  }

  /** A default distro that does not boot is critical and can be fixed. */
  lemma DefaultFailsToBoot(o: Oracle, t: seq<Call>, lines: seq<TableLine>, i: nat)
    requires Prints(o(t + [["--list", "--verbose"]]), lines) && DefaultRow(lines, i)
    requires o(BootedCalls(t, lines[i].distro.name)).Failed?
    ensures WslRun(true, o, t) ==
              Ran(ComponentStatus("", Critical, "Linux environment failed to start", true),
                  BootedCalls(t, lines[i].distro.name))
  {
    DefaultPrinted(o(t + [LIST]), lines, i);
  }

  /** One that boots is healthy; the note tells its state in a second table. */
  lemma DefaultBoots(o: Oracle, t: seq<Call>, lines: seq<TableLine>, i: nat, again: seq<TableLine>, k: nat)
    requires Prints(o(t + [["--list", "--verbose"]]), lines) && DefaultRow(lines, i)
    requires
      var booted := BootedCalls(t, lines[i].distro.name);
      && o(booted).Output?
      && Prints(o(booted + [["--list", "--verbose"]]), again) && DefaultRow(again, k)
    ensures
      var name := lines[i].distro.name;
      WslRun(true, o, t) ==
        Ran(ComponentStatus("", Healthy, "WSL2 ready; default distro " + name + StateNote(again[k].state), false),
            BootedCalls(t, name) + [["--list", "--verbose"]])
  {
    var booted := BootedCalls(t, lines[i].distro.name);
    DefaultPrinted(o(t + [LIST]), lines, i);
    DefaultPrinted(o(booted + [LIST]), again, k);
    Boots(o, t, lines[i].distro.name, booted, StateNote(again[k].state));
  }

  lemma Boots(o: Oracle, t: seq<Call>, name: string, booted: seq<Call>, note: string)
    requires DefaultAnswer(o(t + [LIST])) == Ok(name) && name != ""
    requires booted == t + [LIST] + [BootCall(name)] && o(booted).Output?
    requires ListAnswer(o(booted + [LIST])).Ok? && StoppedOrRunning(ListAnswer(o(booted + [LIST])).value) == note
    ensures WslRun(true, o, t) == Ran(ComponentStatus("", Healthy, READY + name + note, false), booted + [LIST])
  {
  }

  // ------------------------------------------------------------------
  // kernelProbe

  /** Unknown exactly when there is no version to judge. */
  lemma KernelUnknownIff(installed: bool, o: Oracle, t: seq<Call>)
    ensures
      var run, reply := KernelRun(installed, o, t), o(t + [["--version"]]);
      && (run.value.status == Unknown <==> !installed || reply.Failed? || KernelAnswer(reply) == Ok(""))
      && run.trace == (if installed then t + [["--version"]] else t)
      && !run.value.safeToFix
  {
  }

  /** A version that cannot be read is shown as it is. */
  lemma UnreadableVersionIsHealthy(o: Oracle, t: seq<Call>, version: string)
    requires KernelAnswer(o(t + [["--version"]])) == Ok(version) && version != "" && ParseKernelVersion(version).None?
    ensures KernelRun(true, o, t).value == ComponentStatus("", Healthy, version, false)
  {
  }

  // ------------------------------------------------------------------
  // containerProbe

  /** Every docker command is run inside the default distro, listed just before. */
  lemma DockerCalls(args: seq<string>, o: Oracle, t: seq<Call>)
    requires !NoDistro(o(t + [["--list", "--verbose"]]))
    ensures
      var run, distro := ExecRun(args, o, t), DefaultAnswer(o(t + [["--list", "--verbose"]])).value;
      && run.trace == t + [["--list", "--verbose"]] + [["--distribution", distro, "--", "docker"] + args]
      && (o(run.trace).Output? ==> run.value == Done(AsString(o(run.trace).bytes)))
      && (o(run.trace).Failed? ==> run.value == Command(o(run.trace).message))
  {
  }

  /** A command that prints more than white space. */
  predicate Shown(r: ExecResult) {
    r.Done? && TrimSpace(r.out) != ""
  }

  function ClientRun(o: Oracle, t: seq<Call>): Ran<ExecResult> {
    ExecRun(["version", "--format", "{{.Client.Version}}"], o, t)
  }

  function ServerRun(o: Oracle, t: seq<Call>): Ran<ExecResult> {
    ExecRun(["version", "--format", "{{.Server.Version}}"], o, t)
  }

  function PsRun(o: Oracle, t: seq<Call>): Ran<ExecResult> {
    ExecRun(["ps", "--no-trunc", "--format", "{{.ID}}\t{{.Names}}\t{{.Image}}\t{{.State}}\t{{.Status}}", "-a"], o, t)
  }

  /** How far the questions get decides the verdict; no verdict calls for a fix. */
  lemma ContainerVerdict(o: Oracle, t: seq<Call>)
    ensures
      var c := ContainerRun(true, o, t).value;
      var client := ClientRun(o, t);
      var server := ServerRun(o, client.trace);
      && !c.safeToFix
      && (c.status == Unknown <==> NoDistro(o(t + [["--list", "--verbose"]])))
      && (c.status == Warning <==> !c.status.Unknown? && !Shown(client.value))
      && (c.status == Critical <==> Shown(client.value) && !Shown(server.value))
      && (c.status == Healthy <==> Shown(client.value) && Shown(server.value))
  {
    ExecTransport(CLIENT_VERSION, o, t);
  }

  lemma PsQuestion(o: Oracle, t: seq<Call>)
    ensures PsRun(o, t) == ExecRun(PS + ["-a"], o, t)
  {
    assert PS + ["-a"] == ["ps", "--no-trunc", "--format", "{{.ID}}\t{{.Names}}\t{{.Image}}\t{{.State}}\t{{.Status}}", "-a"];
  }

  lemma HealthyRun(o: Oracle, t: seq<Call>, client: Ran<ExecResult>, server: Ran<ExecResult>)
    requires client == ExecRun(CLIENT_VERSION, o, t) && server == ExecRun(SERVER_VERSION, o, client.trace)
    requires Shown(client.value) && Shown(server.value)
    ensures ContainerRun(true, o, t).value ==
              ComponentStatus("", Healthy,
                Ready(TrimSpace(server.value.out), ContainersRun(o, server.trace).value), false)
  {
  }

  lemma ReadyText(server: string, cs: seq<Container>)
    ensures
      var running := |set i: nat | i < |cs| && cs[i].state == "running"|;
      Ready(server, Some(cs)) ==
        "Docker ready (server " + server + ")" + ("; " + Digits(running) + " running, " + Digits(|cs|) + " total")
  {
  }

  /** Both versions answered and a printed listing: the summary shows the server
      version and the numbers of running and of all printed containers. */
  lemma PrintedCounts(o: Oracle, t: seq<Call>, out: string, cs: seq<Container>, newline: bool)
    requires
      var client := ClientRun(o, t);
      var server := ServerRun(o, client.trace);
      Shown(client.value) && Shown(server.value) && PsRun(o, server.trace).value == Done(out)
    requires GoodListing(cs) && out == Listing(cs, newline)
    ensures
      var server := ServerRun(o, ClientRun(o, t).trace).value.out;
      var running := |set i: nat | i < |cs| && cs[i].state == "running"|;
      ContainerRun(true, o, t).value ==
        ComponentStatus("", Healthy, "Docker ready (server " + TrimSpace(server) + ")" +
          ("; " + Digits(running) + " running, " + Digits(|cs|) + " total"), false)
  {
    var client := ClientRun(o, t);
    var server := ServerRun(o, client.trace);
    PsQuestion(o, server.trace);
    ListedAsPrinted(o, server.trace, out, cs, newline);
    HealthyRun(o, t, client, server);
    ReadyText(TrimSpace(server.value.out), cs);
  }

  // ------------------------------------------------------------------
  // The default snapshot

  lemma SnapshotNext(components: seq<Component<Probe>>, c: Component<Probe>, env: Surroundings, o: Oracle, t: seq<Call>)
    ensures
      var before := SnapshotRun(components, env, o, t);
      var last := Probed(c, env, o, before.trace);
      SnapshotRun(components + [c], env, o, t) == Ran(before.value + [Present(c.id, last.value)], last.trace)
  {
    assert (components + [c])[..|components|] == components;
  }

  function Answer(id: string, run: Ran<ComponentStatus>): ComponentStatus {
    Present(id, Reported(run.value))
  }

  ghost predicate NoPanics(env: Surroundings) {
    forall id :: env.panics(id).None?
  }

  function HostAnswer(id: string, env: Surroundings): ComponentStatus {
    Present(id, Reported(env.host(id)))
  }

  lemma AskedDaemon(env: Surroundings, o: Oracle, t: seq<Call>)
    requires NoPanics(env)
    ensures SnapshotRun([Component("daemon", AskDaemon)], env, o, t) ==
              Ran([ComponentStatus("daemon", Healthy, "daemon running", false)], t)
  {
    var none: seq<Component<Probe>>, c := [], Component("daemon", AskDaemon);
    SnapshotNext(none, c, env, o, t);
    assert none + [c] == [c];
    var healthy := ComponentStatus("daemon", Healthy, "daemon running", false);
    assert SnapshotRun(none, env, o, t).value + [healthy] == [healthy];
  }

  /** Which run answers for a component that is not on the host. */
  function RunOf(p: Probe, installed: bool, o: Oracle, t: seq<Call>): Ran<ComponentStatus>
    requires p in {AskWsl, AskKernel, AskContainers}
  {
    match p
    case AskWsl => WslRun(installed, o, t)
    case AskKernel => KernelRun(installed, o, t)
    case _ => ContainerRun(installed, o, t)
  }

  lemma AskedNext(before: seq<Component<Probe>>, c: Component<Probe>, env: Surroundings, o: Oracle, t: seq<Call>)
    requires NoPanics(env) && c.probe in {AskWsl, AskKernel, AskContainers}
    ensures
      var seen := SnapshotRun(before, env, o, t);
      var run := RunOf(c.probe, env.installed, o, seen.trace);
      SnapshotRun(before + [c], env, o, t) == Ran(seen.value + [Answer(c.id, run)], run.trace)
  {
    SnapshotNext(before, c, env, o, t);
  }

  lemma AskedHost(before: seq<Component<Probe>>, c: Component<Probe>, env: Surroundings, o: Oracle, t: seq<Call>)
    requires NoPanics(env) && c.probe == AskHost
    ensures
      var seen := SnapshotRun(before, env, o, t);
      SnapshotRun(before + [c], env, o, t) == Ran(seen.value + [HostAnswer(c.id, env)], seen.trace)
  {
    SnapshotNext(before, c, env, o, t);
  }

  lemma EntriesAre()
    ensures ENTRIES ==
              [Component("daemon", AskDaemon)] + [Component("windows", AskHost)] + [Component("virtualization", AskHost)] +
              [Component("wsl", AskWsl)] + [Component("linux_kernel", AskKernel)] +
              [Component("resources", AskHost)] + [Component("container_runtime", AskContainers)]
  {
  }

  lemma AskedFirst(env: Surroundings, o: Oracle, t: seq<Call>)
    requires NoPanics(env)
    ensures SnapshotRun([Component("daemon", AskDaemon)] + [Component("windows", AskHost)] +
                        [Component("virtualization", AskHost)], env, o, t) ==
              Ran([ComponentStatus("daemon", Healthy, "daemon running", false)] +
                  [HostAnswer("windows", env)] + [HostAnswer("virtualization", env)], t)
  {
    var daemon := [Component("daemon", AskDaemon)];
    AskedDaemon(env, o, t);
    AskedHost(daemon, Component("windows", AskHost), env, o, t);
    AskedHost(daemon + [Component("windows", AskHost)], Component("virtualization", AskHost), env, o, t);
  }

  /** Without a panic, the daemon and the host run no command; wsl, kernel and
      containers are asked one after the other, and all seven are reported. */
  lemma DefaultSnapshot(env: Surroundings, o: Oracle, t: seq<Call>)
    requires NoPanics(env)
    ensures
      var wsl := WslRun(env.installed, o, t);
      var kernel := KernelRun(env.installed, o, wsl.trace);
      var containers := ContainerRun(env.installed, o, kernel.trace);
      SnapshotRun(ENTRIES, env, o, t) ==
        Ran([ComponentStatus("daemon", Healthy, "daemon running", false)] +
            [HostAnswer("windows", env)] + [HostAnswer("virtualization", env)] +
            [Answer("wsl", wsl)] + [Answer("linux_kernel", kernel)] +
            [HostAnswer("resources", env)] + [Answer("container_runtime", containers)],
            containers.trace)
  {
    AskedFirst(env, o, t);
    EntriesAre();
    AskedRest([Component("daemon", AskDaemon)] + [Component("windows", AskHost)] + [Component("virtualization", AskHost)],
              env, o, t);
  }

  lemma AskedRest(host: seq<Component<Probe>>, env: Surroundings, o: Oracle, t: seq<Call>)
    requires NoPanics(env)
    ensures
      var first := SnapshotRun(host, env, o, t);
      var wsl := RunOf(AskWsl, env.installed, o, first.trace);
      var kernel := RunOf(AskKernel, env.installed, o, wsl.trace);
      var containers := RunOf(AskContainers, env.installed, o, kernel.trace);
      SnapshotRun(host + [Component("wsl", AskWsl)] + [Component("linux_kernel", AskKernel)] +
                  [Component("resources", AskHost)] + [Component("container_runtime", AskContainers)], env, o, t) ==
        Ran(first.value + [Answer("wsl", wsl)] + [Answer("linux_kernel", kernel)] +
            [HostAnswer("resources", env)] + [Answer("container_runtime", containers)],
            containers.trace)
  {
    var upToWsl := host + [Component("wsl", AskWsl)];
    var upToKernel := upToWsl + [Component("linux_kernel", AskKernel)];
    AskedNext(host, Component("wsl", AskWsl), env, o, t);
    AskedNext(upToWsl, Component("linux_kernel", AskKernel), env, o, t);
    AskedHost(upToKernel, Component("resources", AskHost), env, o, t);
    AskedNext(upToKernel + [Component("resources", AskHost)], Component("container_runtime", AskContainers), env, o, t);
  }
}
