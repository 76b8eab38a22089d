/** The docker driver: every command resolves the default distro first and then
    runs docker inside it. */
module Docker {
  import opened GoStrings
  import opened WslOutput
  import opened Containers
  import opened Wsl
  import opened Recovery

  function DockerCall(distro: string, args: seq<string>): (c: Call)
    ensures c == ["--distribution", distro, "--", "docker"] + args
    ensures c != SHUTDOWN && c != LIST
  {
    var prefix := ["--distribution", distro, "--", "docker"];
    assert |prefix + args| >= 4;
    prefix + args
  }

  const CLIENT_VERSION: seq<string> := ["version", "--format", "{{.Client.Version}}"]
  const SERVER_VERSION: seq<string> := ["version", "--format", "{{.Server.Version}}"]
  const PS: seq<string> := ["ps", "--no-trunc", "--format", "{{.ID}}\t{{.Names}}\t{{.Image}}\t{{.State}}\t{{.Status}}"]
  const NO_DISTRO := "no default WSL distribution available"

  /** A transport failure is one of finding the distro. */
  datatype ExecResult = Done(out: string) | Transport(message: string) | Command(message: string)

  function ExecRun(args: seq<string>, o: Oracle, t: seq<Call>): Ran<ExecResult> {
    var listed := t + [LIST];
    match DefaultAnswer(o(listed))
    case Err(message) => Ran(Transport(message), listed)
    case Ok(distro) =>
      if distro == "" then Ran(Transport(NO_DISTRO), listed) else
        var ran := listed + [DockerCall(distro, args)];
        Ran(match o(ran) case Output(bytes) => Done(AsString(bytes)) case Failed(message) => Command(message), ran)
  }

  method Exec(run: Runner, args: seq<string>) returns (r: ExecResult)
    modifies run
    ensures Ran(r, run.trace) == ExecRun(args, run.oracle, old(run.trace))
  {
    var distro := DefaultDistro(run);
    if distro.Err? {
      return Transport(distro.message);
    }
    if distro.value == "" {
      return Transport(NO_DISTRO);
    }
    var reply := run.Run(DockerCall(distro.value, args));
    match reply {
      case Output(bytes) => r := Done(AsString(bytes));
      case Failed(message) => r := Command(message);
    }
  }

  datatype Info = Info(clientVersion: string, serverVersion: string, err: Option<string>)

  function PingRun(o: Oracle, t: seq<Call>): Ran<Info> {
    var client := ExecRun(CLIENT_VERSION, o, t);
    match client.value
    case Transport(message) => Ran(Info("", "", Some(message)), client.trace)
    case Command(_) => Ran(Info("", "", None), client.trace)
    case Done(version) =>
      var server := ExecRun(SERVER_VERSION, o, client.trace);
      Ran(Info(TrimSpace(version), if server.value.Done? then TrimSpace(server.value.out) else "", None), server.trace)
  }

  method Ping(run: Runner) returns (info: Info)
    modifies run
    ensures Ran(info, run.trace) == PingRun(run.oracle, old(run.trace))
  {
    info := Info("", "", None);
    var out := Exec(run, CLIENT_VERSION);
    if !out.Done? {
      if out.Transport? {
        info := info.(err := Some(out.message));
      }
      return;
    }
    info := info.(clientVersion := TrimSpace(out.out));
    out := Exec(run, SERVER_VERSION);
    if out.Done? {
      info := info.(serverVersion := TrimSpace(out.out));
    }
  }

  /** ListContainers with all = true. */
  function ContainersRun(o: Oracle, t: seq<Call>): Ran<Option<seq<Container>>> {
    var ps := ExecRun(PS + ["-a"], o, t);
    Ran(if ps.value.Done? then Some(ParseContainers(ps.value.out)) else None, ps.trace)
  }

  method ListAll(run: Runner) returns (r: Option<seq<Container>>)
    modifies run
    ensures Ran(r, run.trace) == ContainersRun(run.oracle, old(run.trace))
  {
    var out := Exec(run, PS + ["-a"]);
    if !out.Done? {
      return None;
    }
    var containers := ListContainers(out.out);
    return Some(containers);
  }

  predicate NoDistro(reply: Reply) {
    DefaultAnswer(reply).Err? || DefaultAnswer(reply) == Ok("")
  }

  lemma ExecTransport(args: seq<string>, o: Oracle, t: seq<Call>)
    ensures ExecRun(args, o, t).value.Transport? <==> NoDistro(o(t + [LIST]))
    ensures ExecRun(args, o, t).value.Transport? ==> ExecRun(args, o, t).trace == t + [LIST]
  {
  }

  /** A ping reports an error exactly when no default distro can be found, not
      when docker, or wsl.exe on its behalf, fails. */
  lemma PingErrorMeansNoDistro(o: Oracle, t: seq<Call>)
    ensures PingRun(o, t).value.err.Some? <==> NoDistro(o(t + [LIST]))
    ensures PingRun(o, t).value.err.Some? ==> PingRun(o, t).trace == t + [LIST]
  {
    ExecTransport(CLIENT_VERSION, o, t);
  }
}
