/** The wsl package: every command goes through one runner, and every answer is
    read from what wsl.exe prints. */
module Wsl {
  import opened GoStrings
  import opened Unicode
  import opened WslOutput
  import opened Lines
  import opened DistroTable

  /** The arguments of one wsl.exe invocation. */
  type Call = seq<string>

  datatype Reply = Output(bytes: seq<Byte>) | Failed(message: string)

  datatype Result<+T> = Ok(value: T) | Err(message: string)

  /** What wsl.exe answers to the last of the calls made so far: any behaviour,
      also one that remembers everything. */
  type Oracle = seq<Call> -> Reply

  const LIST: Call := ["--list", "--verbose"]
  const VERSION: Call := ["--version"]
  const SHUTDOWN: Call := ["--shutdown"]

  function BootCall(distro: string): (c: Call)
    ensures c == ["--distribution", distro, "--", "echo", "envorca:boot"]
    ensures c != SHUTDOWN && c != LIST
  {
    assert ["--distribution", distro, "--", "echo", "envorca:boot"][0] != "--list";
    ["--distribution", distro, "--", "echo", "envorca:boot"]
  }

  class Runner {
    const oracle: Oracle
    var trace: seq<Call>

    constructor (oracle: Oracle)
      ensures this.oracle == oracle && trace == []
    {
      this.oracle := oracle;
      trace := [];
    }

    method Run(call: Call) returns (reply: Reply)
      modifies this
      ensures trace == old(trace) + [call] && reply == oracle(trace)
    {
      trace := trace + [call];
      reply := oracle(trace);
    }
  }

  // ------------------------------------------------------------------
  // Reading the answers

  /** The first distro marked as default, or "". */
  function FirstDefault(distros: seq<Distro>): (name: string)
    ensures (exists i :: 0 <= i < |distros| && distros[i].isDefault && name == distros[i].name
              && forall j :: 0 <= j < i ==> !distros[j].isDefault)
            || (name == "" && forall i :: 0 <= i < |distros| ==> !distros[i].isDefault)
  {
    if distros == [] then ""
    else if distros[0].isDefault then distros[0].name
    else
      var rest := distros[1..];
      assert forall i :: 0 <= i < |rest| ==> rest[i] == distros[i + 1];
      FirstDefault(rest)
  }

  const KERNEL := "Kernel version:"

  function KernelLine(lines: seq<string>): string {
    if lines == [] then ""
    else if HasPrefix(Cleaned(lines[0]), KERNEL) then TrimSpace(Cleaned(lines[0])[|KERNEL|..])
    else KernelLine(lines[1..])
  }

  function ListAnswer(reply: Reply): Result<seq<Distro>> {
    match reply
    case Failed(message) => Err(message)
    case Output(bytes) => Ok(ParseTable(Decoded(bytes)))
  }

  function DefaultAnswer(reply: Reply): Result<string> {
    match ListAnswer(reply)
    case Err(message) => Err(message)
    case Ok(distros) => Ok(FirstDefault(distros))
  }

  function KernelAnswer(reply: Reply): Result<string> {
    match reply
    case Failed(message) => Err(message)
    case Output(bytes) => Ok(KernelLine(Split(Decoded(bytes), '\n')))
  }

  /** Of these commands only success counts. */
  function Finished(reply: Reply): Result<()> {
    match reply
    case Failed(message) => Err(message)
    case Output(_) => Ok(())
  }

  // ------------------------------------------------------------------
  // The commands

  method List(run: Runner) returns (r: Result<seq<Distro>>)
    modifies run
    ensures run.trace == old(run.trace) + [LIST]
    ensures r == ListAnswer(run.oracle(run.trace))
  {
    var reply := run.Run(LIST);
    if reply.Failed? {
      return Err(reply.message);
    }
    var text := DecodeOutput(reply.bytes);
    var distros := ListDistros(text);
    return Ok(distros);
  }

  method DefaultDistro(run: Runner) returns (r: Result<string>)
    modifies run
    ensures run.trace == old(run.trace) + [LIST]
    ensures r == DefaultAnswer(run.oracle(run.trace))
  {
    var listed := List(run);
    if listed.Err? {
      return Err(listed.message);
    }
    var distros := listed.value;
    for i := 0 to |distros|
      invariant FirstDefault(distros) == FirstDefault(distros[i..])
    {
      if distros[i].isDefault {
        return Ok(distros[i].name);
      }
    }
    return Ok("");
  }

  method KernelVersion(run: Runner) returns (r: Result<string>)
    modifies run
    ensures run.trace == old(run.trace) + [VERSION]
    ensures r == KernelAnswer(run.oracle(run.trace))
  {
    var reply := run.Run(VERSION);
    if reply.Failed? {
      return Err(reply.message);
    }
    var text := DecodeOutput(reply.bytes);
    var version := FirstKernel(Split(text, '\n'));
    return Ok(version);
  }

  method FirstKernel(lines: seq<string>) returns (version: string)
    ensures version == KernelLine(lines)
  {
    for i := 0 to |lines|
      invariant KernelLine(lines) == KernelLine(lines[i..])
    {
      var line := Cleaned(lines[i]);
      if HasPrefix(line, KERNEL) {
        return TrimSpace(line[|KERNEL|..]);
      }
    }
    return "";
  }

  method Boot(run: Runner, distro: string) returns (r: Result<()>)
    modifies run
    ensures run.trace == old(run.trace) + [BootCall(distro)]
    ensures r == Finished(run.oracle(run.trace))
  {
    var reply := run.Run(BootCall(distro));
    r := Finished(reply);
  }

  method Shutdown(run: Runner) returns (r: Result<()>)
    modifies run
    ensures run.trace == old(run.trace) + [SHUTDOWN]
    ensures r == Finished(run.oracle(run.trace))
  {
    var reply := run.Run(SHUTDOWN);
    r := Finished(reply);
  }
}
