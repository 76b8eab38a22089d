/** What the probes advertise as fixable and what the repair plan offers: they
    agree, unless a probe panics with an unlucky message. */
module Agreement {
  import opened GoStrings
  import opened Wsl
  import opened Health
  import opened Recovery
  import opened RepairSafety
  import opened Docker
  import opened Diagnosis

  // ------------------------------------------------------------------
  // Lower case and keywords

  predicate Ascii(s: string) {
    forall i :: 0 <= i < |s| ==> s[i] as int < 0x80
  }

  lemma LowerFirst(s: string)
    requires s != "" && s[0] as int < 0x80
    ensures ToLower(s) == [LowerByte(s[0])] + ToLower(s[1..])
  {
    assert s[0] != KELVIN[0] && s[0] != DOTTED_I[0];
  }

  lemma {:induction false} LowerAscii(s: string)
    requires Ascii(s)
    ensures |ToLower(s)| == |s| && forall i :: 0 <= i < |s| ==> ToLower(s)[i] == LowerByte(s[i])
  {
    if s != "" {
      LowerFirst(s);
      LowerAscii(s[1..]);
    }
  }

  predicate SameButForCase(c: char, d: char) {
    c == d || ('A' <= c <= 'Z' && c as int + 32 == d as int) || ('A' <= d <= 'Z' && d as int + 32 == c as int)
  }

  /** Keywords are looked for without regard to case. */
  lemma CaseIsIgnored(s: string, t: string, k: string)
    requires Ascii(s) && Ascii(t) && |s| == |t| && forall i :: 0 <= i < |s| ==> SameButForCase(s[i], t[i])
    ensures ToLower(s) == ToLower(t) && (Mentions(s, k) <==> Mentions(t, k))
  {
    LowerAscii(s);
    LowerAscii(t);
  }

  lemma {:induction false} LowerAppend(a: string, b: string)
    requires Ascii(a)
    ensures ToLower(a + b) == ToLower(a) + ToLower(b)
  {
    if a == "" {
      assert a + b == b;
    } else {
      LowerFirst(a);
      LowerFirst(a + b);
      assert (a + b)[1..] == a[1..] + b;
      LowerAppend(a[1..], b);
      Associate([LowerByte(a[0])], ToLower(a[1..]), ToLower(b));
    }
  }

  /** An ASCII text without capital letters. */
  predicate Lowered(s: string) {
    Ascii(s) && forall i :: 0 <= i < |s| ==> !('A' <= s[i] <= 'Z')
  }

  lemma LoweredIsLower(s: string)
    requires Lowered(s)
    ensures ToLower(s) == s
  {
    LowerAscii(s);
  }

  lemma HasTail(a: string, k: string)
    requires Ascii(a) && Lowered(k)
    ensures Contains(ToLower(a + k), k)
  {
    LowerAppend(a, k);
    LoweredIsLower(k);
    assert (ToLower(a) + k)[|ToLower(a)|..][..|k|] == k;
  }

  lemma HasHead(k: string, b: string)
    requires Lowered(k)
    ensures Contains(ToLower(k + b), k)
  {
    LowerAppend(k, b);
    LoweredIsLower(k);
    assert (k + ToLower(b))[0..][..|k|] == k;
  }

  predicate SameLetter(c: char, small: char) {
    c == small || c as int + 32 == small as int
  }

  /** A text without the keyword's first letter, small or capital, does not contain the keyword. */
  lemma Lacks(s: string, k: string)
    requires Ascii(s) && k != "" && forall i :: 0 <= i < |s| ==> !SameLetter(s[i], k[0])
    ensures !Contains(ToLower(s), k)
  {
    LowerAscii(s);
    var low := ToLower(s);
    forall i | 0 <= i <= |low| - |k| ensures low[i..][..|k|] != k {
      assert low[i..][..|k|][0] == low[i];
    }
  }

  /** A keyword cannot begin inside p when p never shows its first two letters together. */
  lemma ContainsBehind(p: string, x: string, k: string)
    requires |k| >= 2
    requires forall i :: 0 <= i < |p| && p[i] == k[0] ==> i + 1 < |p| && p[i + 1] != k[1]
    ensures Contains(p + x, k) <==> Contains(x, k)
  {
    if Contains(p + x, k) {
      var i :| 0 <= i <= |p + x| - |k| && (p + x)[i..][..|k|] == k;
      assert (p + x)[i] == (p + x)[i..][..|k|][0] == k[0];
      assert (p + x)[i + 1] == (p + x)[i..][..|k|][1] == k[1];
      assert i >= |p|;
      assert x[i - |p|..] == (p + x)[i..];
    }
    if Contains(x, k) {
      var i :| 0 <= i <= |x| - |k| && x[i..][..|k|] == k;
      assert (p + x)[|p| + i..] == x[i..];
    }
  }

  // ------------------------------------------------------------------
  // The texts that meet the keywords

  const FAILED := "failed to start"
  const QUERY := "could not query"
  const BROKEN := "broken"

  lemma NotStartedHas(s: string)
    requires s == NOT_STARTED
    ensures Contains(ToLower(s), FAILED)
  {
    assert s == "Linux environment " + FAILED;
    HasTail("Linux environment ", FAILED);
  }

  lemma NotQueriedLetters(s: string)
    requires s == NOT_QUERIED
    ensures Ascii(s)
    ensures forall i :: 0 <= i < |s| ==> !SameLetter(s[i], 'f')
  {
  }

  lemma NotQueriedHas(s: string)
    requires s == NOT_QUERIED
    ensures Contains(ToLower(s), QUERY) && !Contains(ToLower(s), FAILED)
  {
    assert s == QUERY + " WSL status";
    HasHead(QUERY, " WSL status");
    NotQueriedLetters(s);
    Lacks(s, FAILED);
  }

  lemma NotInstalledLetters(s: string)
    requires s == NOT_INSTALLED
    ensures Ascii(s)
    ensures forall i :: 0 <= i < |s| ==> !SameLetter(s[i], 'f')
    ensures forall i :: 0 <= i < |s| ==> !SameLetter(s[i], 'c')
    ensures forall i :: 0 <= i < |s| ==> !SameLetter(s[i], 'b')
  {
  }

  lemma NotInstalledLacks(s: string)
    requires s == NOT_INSTALLED
    ensures !Contains(ToLower(s), FAILED) && !Contains(ToLower(s), QUERY) && !Contains(ToLower(s), BROKEN)
  {
    NotInstalledLetters(s);
    Lacks(s, FAILED);
    Lacks(s, QUERY);
    Lacks(s, BROKEN);
  }

  lemma PanickedIsLower(p: string)
    requires p == PANICKED
    ensures Lowered(p)
  {
  }

  lemma PanicHas(p: string, message: string, k: string)
    requires p == PANICKED
    requires k == FAILED || k == QUERY || k == BROKEN
    ensures Contains(ToLower(p + message), k) <==> Contains(ToLower(message), k)
  {
    PanickedIsLower(p);
    LowerAppend(p, message);
    LoweredIsLower(p);
    NoKeywordStart(p, k);
    ContainsBehind(p, ToLower(message), k);
  }

  lemma NoKeywordStart(p: string, k: string)
    requires p == PANICKED
    requires k == FAILED || k == QUERY || k == BROKEN
    ensures |k| >= 2 && forall i :: 0 <= i < |p| && p[i] == k[0] ==> i + 1 < |p| && p[i + 1] != k[1]
  {
  }

  // ------------------------------------------------------------------
  // From the probe's answer to the plan

  predicate Mentions(text: string, k: string) {
    Contains(ToLower(text), k)
  }

  /** A component that recovery knows how to start, or to restart. */
  predicate Startable(c: ComponentStatus) {
    c.status == Critical && Mentions(c.summary, FAILED)
  }

  predicate Restartable(c: ComponentStatus) {
    c.status == Critical && (Mentions(c.summary, FAILED) || Mentions(c.summary, QUERY) || Mentions(c.summary, BROKEN))
  }

  lemma CriticalOneIs(c: ComponentStatus)
    requires c.id == "wsl"
    ensures WslCriticalOne(c, WslStart.Keywords()) <==> Startable(c)
    ensures WslCriticalOne(c, WslRestart.Keywords()) <==> Restartable(c)
  {
    var ks := WslRestart.Keywords();
    assert ks[0] == FAILED && ks[1] == QUERY && ks[2] == BROKEN;
    assert WslStart.Keywords()[0] == FAILED;
  }

  lemma OnlyOneWsl(cs: seq<ComponentStatus>, w: nat, keywords: seq<string>)
    requires w < |cs| && cs[w].id == "wsl" && forall i :: 0 <= i < |cs| && i != w ==> cs[i].id != "wsl"
    ensures WslCritical(cs, keywords) <==> WslCriticalOne(cs[w], keywords)
  {
  }

  /** The plan depends on the one wsl component alone. */
  lemma PlanFromWsl(cs: seq<ComponentStatus>, w: nat)
    requires w < |cs| && cs[w].id == "wsl" && forall i :: 0 <= i < |cs| && i != w ==> cs[i].id != "wsl"
    ensures Ids(PlanFor(cs)) ==
              (if Startable(cs[w]) then ["wsl.start"] else []) + (if Restartable(cs[w]) then ["wsl.restart"] else [])
  {
    PlanOfTwo(cs);
    OnlyOneWsl(cs, w, WslStart.Keywords());
    OnlyOneWsl(cs, w, WslRestart.Keywords());
    CriticalOneIs(cs[w]);
    IdsOfTwo(WslStart.CanExecute(cs), WslRestart.CanExecute(cs));
  }

  datatype Need = Nothing | OnlyRestart | StartOrRestart

  /** What there is to repair, read off the machine: the two commands with which
      wslProbe asks when the calls so far are t. */
  function Needed(installed: bool, o: Oracle, t: seq<Call>): Need {
    var listed := t + [LIST];
    if !installed || DefaultAnswer(o(listed)) == Ok("") then Nothing
    else if !Succeeded(o, listed) then OnlyRestart
    else if !Succeeded(o, listed + [BootCall(Found(o, listed))]) then StartOrRestart
    else Nothing
  }

  function IdsFor(need: Need): seq<string> {
    match need
    case Nothing => []
    case OnlyRestart => ["wsl.restart"]
    case StartOrRestart => ["wsl.start", "wsl.restart"]
  }

  /** The ways in which wslProbe answers. */
  predicate Answers(c: ComponentStatus, need: Need) {
    match need
    case Nothing => !c.safeToFix && (c.status == Critical ==> c.summary == NOT_INSTALLED)
    case OnlyRestart => c.safeToFix && c.status == Critical && c.summary == NOT_QUERIED
    case StartOrRestart => c.safeToFix && c.status == Critical && c.summary == NOT_STARTED
  }

  /** wslProbe's answer shows what is needed. */
  lemma WslAnswers(installed: bool, o: Oracle, t: seq<Call>)
    ensures Answers(WslRun(installed, o, t).value, Needed(installed, o, t))
    ensures WslRun(installed, o, t).value.status != Unspecified
  {
    var listed := t + [LIST];
    if installed && DefaultAnswer(o(listed)).Ok? && DefaultAnswer(o(listed)).value != "" {
      var booted := listed + [BootCall(Found(o, listed))];
      assert o(booted).Failed? <==> !Succeeded(o, booted);
    }
  }

  lemma AnswerIsRepairable(c: ComponentStatus)
    requires c.status == Critical
    ensures c.summary == NOT_STARTED ==> Startable(c) && Restartable(c)
    ensures c.summary == NOT_QUERIED ==> !Startable(c) && Restartable(c)
    ensures c.summary == NOT_INSTALLED ==> !Startable(c) && !Restartable(c)
  {
    if c.summary == NOT_STARTED {
      NotStartedHas(c.summary);
    } else if c.summary == NOT_QUERIED {
      NotQueriedHas(c.summary);
    } else if c.summary == NOT_INSTALLED {
      NotInstalledLacks(c.summary);
    }
  }

  lemma AnswerIds(c: ComponentStatus, need: Need)
    requires Answers(c, need)
    ensures (if Startable(c) then ["wsl.start"] else []) + (if Restartable(c) then ["wsl.restart"] else []) == IdsFor(need)
  {
    if c.status == Critical {
      AnswerIsRepairable(c);
    }
  }

  lemma PlanForAnswer(cs: seq<ComponentStatus>, w: nat, need: Need)
    requires w < |cs| && cs[w].id == "wsl" && forall i :: 0 <= i < |cs| && i != w ==> cs[i].id != "wsl"
    requires Answers(cs[w], need)
    ensures Ids(PlanFor(cs)) == IdsFor(need)
    ensures cs[w].safeToFix <==> PlanFor(cs) != []
  {
    PlanFromWsl(cs, w);
    AnswerIds(cs[w], need);
    assert IdsFor(need) == [] <==> need.Nothing?;
  }

  predicate UnluckyPanic(message: string) {
    Mentions(message, FAILED) || Mentions(message, QUERY) || Mentions(message, BROKEN)
  }

  lemma PlanForPanic(cs: seq<ComponentStatus>, w: nat, message: string)
    requires w < |cs| && cs[w].id == "wsl" && forall i :: 0 <= i < |cs| && i != w ==> cs[i].id != "wsl"
    requires cs[w] == Present("wsl", Panicked(message))
    ensures !cs[w].safeToFix && (PlanFor(cs) != [] <==> UnluckyPanic(message))
  {
    PlanFromWsl(cs, w);
    PanicHas(PANICKED, message, FAILED);
    PanicHas(PANICKED, message, QUERY);
    PanicHas(PANICKED, message, BROKEN);
  }

  // ------------------------------------------------------------------
  // Whole snapshots

  /** A probe that ran after the calls t answered with this status. */
  predicate Answered(c: Component<Probe>, env: Surroundings, o: Oracle, t: seq<Call>, status: ComponentStatus) {
    status == Present(c.id, Probed(c, env, o, t).value)
  }

  lemma SnapshotLast(components: seq<Component<Probe>>, env: Surroundings, o: Oracle, t: seq<Call>)
    requires components != []
    ensures
      var n := |components| - 1;
      var before, all := SnapshotRun(components[..n], env, o, t), SnapshotRun(components, env, o, t).value;
      && Answered(components[n], env, o, before.trace, all[n])
      && forall i :: 0 <= i < n ==> all[i] == before.value[i]
  {
  }

  /** The i-th answer comes from the i-th probe, run after the calls of those before it. */
  lemma {:induction false} SnapshotAt(components: seq<Component<Probe>>, env: Surroundings, o: Oracle, t: seq<Call>, i: nat)
    requires i < |components|
    ensures Answered(components[i], env, o, SnapshotRun(components[..i], env, o, t).trace,
                     SnapshotRun(components, env, o, t).value[i])
  {
    var n := |components| - 1;
    SnapshotLast(components, env, o, t);
    if i < n {
      SnapshotAt(components[..n], env, o, t, i);
      assert components[..n][..i] == components[..i];
    }
  }

  /** What the machine needs when a snapshot's wsl probe, the w-th, has its turn. */
  function NeededIn(components: seq<Component<Probe>>, w: nat, env: Surroundings, o: Oracle, t: seq<Call>): Need
    requires w < |components|
  {
    Needed(env.installed, o, SnapshotRun(components[..w], env, o, t).trace)
  }

  predicate WslAt(components: seq<Component<Probe>>, w: nat) {
    w < |components| && components[w] == Component("wsl", AskWsl)
  }

  lemma OtherIds(components: seq<Component<Probe>>, w: nat, env: Surroundings, o: Oracle, t: seq<Call>)
    requires DistinctIds(components) && WslAt(components, w)
    ensures
      var cs := SnapshotRun(components, env, o, t).value;
      cs[w].id == "wsl" && forall i :: 0 <= i < |cs| && i != w ==> cs[i].id != "wsl"
  {
    assert forall i :: 0 <= i < |components| && i != w ==> components[i].id != components[w].id;
  }

  /** SafeToFix and the repair plan, for every registry with distinct ids and
      every behaviour of the machine: they agree if and only if the wsl probe
      does not panic with one of the keywords in its message. Without a panic
      the plan is exactly what the machine needs when that probe runs. */
  lemma SnapshotAgrees(components: seq<Component<Probe>>, env: Surroundings, o: Oracle, t: seq<Call>, w: nat)
    requires DistinctIds(components) && WslAt(components, w)
    ensures
      var cs := SnapshotRun(components, env, o, t).value;
      && ((cs[w].safeToFix <==> PlanFor(cs) != []) <==>
            !(env.panics("wsl").Some? && UnluckyPanic(env.panics("wsl").value)))
      && (env.panics("wsl").None? ==> Ids(PlanFor(cs)) == IdsFor(NeededIn(components, w, env, o, t)))
  {
    var cs := SnapshotRun(components, env, o, t).value;
    var at := SnapshotRun(components[..w], env, o, t).trace;
    SnapshotAt(components, env, o, t, w);
    OtherIds(components, w, env, o, t);
    if env.panics("wsl").Some? {
      PlanForPanic(cs, w, env.panics("wsl").value);
    } else {
      WslAnswers(env.installed, o, at);
      PlanForAnswer(cs, w, Needed(env.installed, o, at));
    }
  }

  /** The probes before that of wsl run no commands. */
  lemma QuietBeforeWsl(env: Surroundings, o: Oracle, t: seq<Call>)
    ensures SnapshotRun(ENTRIES[..3], env, o, t).trace == t
  {
    var cs := ENTRIES[..3];
    assert cs[..2][..1] == cs[..1] && cs[..1][..0] == [];
    assert SnapshotRun(cs[..1], env, o, t).trace == t;
    assert SnapshotRun(cs[..2], env, o, t).trace == t;
  }

  /** In the default registry: the plan is what the machine needs at once. */
  lemma DefaultAgrees(env: Surroundings, o: Oracle, t: seq<Call>)
    ensures
      var cs := SnapshotRun(ENTRIES, env, o, t).value;
      && |cs| == 7 && cs[3].id == "wsl"
      && ((cs[3].safeToFix <==> PlanFor(cs) != []) <==>
            !(env.panics("wsl").Some? && UnluckyPanic(env.panics("wsl").value)))
      && (env.panics("wsl").None? ==> Ids(PlanFor(cs)) == IdsFor(Needed(env.installed, o, t)))
  {
    EntriesDistinct();
    QuietBeforeWsl(env, o, t);
    SnapshotAgrees(ENTRIES, env, o, t, 3);
  }

  /** So a restart applies exactly when the machine needs anything. */
  lemma RestartAppliesIff(components: seq<Component<Probe>>, env: Surroundings, o: Oracle, t: seq<Call>, w: nat)
    requires DistinctIds(components) && WslAt(components, w) && env.panics("wsl").None?
    ensures WslRestart.CanExecute(SnapshotRun(components, env, o, t).value) <==>
              NeededIn(components, w, env, o, t) != Nothing
  {
    var cs := SnapshotRun(components, env, o, t).value;
    SnapshotAgrees(components, env, o, t, w);
    PlanOfTwo(cs);
    if WslStart.CanExecute(cs) {
      StartImpliesRestart(cs);
    }
    assert PlanFor(cs) != [] <==> Ids(PlanFor(cs)) != [];
  }

  /** Without a wsl component there is never anything to repair. */
  lemma NothingWithoutWsl(cs: seq<ComponentStatus>)
    requires forall i :: 0 <= i < |cs| ==> cs[i].id != "wsl"
    ensures PlanFor(cs) == []
  {
    PlanOfTwo(cs);
  }

  // ------------------------------------------------------------------
  // Probes only look

  /** The calls from t on leave the virtual machine alone. */
  ghost predicate OnlyLooks(t: seq<Call>, end: seq<Call>) {
    t <= end && forall k :: |t| <= k < |end| ==> end[k] != SHUTDOWN
  }

  lemma LooksThenLooks(a: seq<Call>, b: seq<Call>, c: seq<Call>)
    requires OnlyLooks(a, b) && OnlyLooks(b, c)
    ensures OnlyLooks(a, c)
  {
    assert forall k :: 0 <= k < |b| ==> c[k] == b[k];
  }

  lemma OneCall(t: seq<Call>, call: Call)
    requires call != SHUTDOWN
    ensures OnlyLooks(t, t + [call])
  {
  }

  lemma TwoCalls(t: seq<Call>, first: Call, second: Call)
    requires first != SHUTDOWN && second != SHUTDOWN
    ensures OnlyLooks(t, t + [first] + [second])
  {
  }

  lemma Queries()
    ensures LIST != SHUTDOWN && VERSION != SHUTDOWN
  {
    assert LIST[0] != SHUTDOWN[0] && VERSION[0] != SHUTDOWN[0];
  }

  lemma ExecLooks(args: seq<string>, o: Oracle, t: seq<Call>)
    ensures OnlyLooks(t, ExecRun(args, o, t).trace)
  {
    Queries();
    OneCall(t, LIST);
    match DefaultAnswer(o(t + [LIST]))
    case Err(_) =>
    case Ok(distro) => TwoCalls(t, LIST, DockerCall(distro, args));
  }

  lemma ContainerLooks(installed: bool, o: Oracle, t: seq<Call>)
    ensures OnlyLooks(t, ContainerRun(installed, o, t).trace)
  {
    var client := ExecRun(CLIENT_VERSION, o, t).trace;
    var server := ExecRun(SERVER_VERSION, o, client).trace;
    var ps := ExecRun(PS + ["-a"], o, server).trace;
    ExecLooks(CLIENT_VERSION, o, t);
    ExecLooks(SERVER_VERSION, o, client);
    ExecLooks(PS + ["-a"], o, server);
    LooksThenLooks(t, client, server);
    LooksThenLooks(t, server, ps);
  }

  lemma WslLooks(installed: bool, o: Oracle, t: seq<Call>)
    ensures OnlyLooks(t, WslRun(installed, o, t).trace)
  {
    Queries();
    OneCall(t, LIST);
    match DefaultAnswer(o(t + [LIST]))
    case Err(_) =>
    case Ok(distro) =>
      var booted := t + [LIST] + [BootCall(distro)];
      TwoCalls(t, LIST, BootCall(distro));
      OneCall(booted, LIST);
      LooksThenLooks(t, booted, booted + [LIST]);
  }

  lemma ProbeLooks(c: Component<Probe>, env: Surroundings, o: Oracle, t: seq<Call>)
    ensures OnlyLooks(t, Probed(c, env, o, t).trace)
  {
    match c.probe
    case AskWsl => WslLooks(env.installed, o, t);
    case AskKernel => Queries(); OneCall(t, VERSION);
    case AskContainers => ContainerLooks(env.installed, o, t);
    case _ =>
  }

  /** A snapshot never shuts anything down, whatever the machine answers. */
  lemma {:induction false} SnapshotLooks(components: seq<Component<Probe>>, env: Surroundings, o: Oracle, t: seq<Call>)
    ensures OnlyLooks(t, SnapshotRun(components, env, o, t).trace)
  {
    if components != [] {
      var n := |components| - 1;
      var before := SnapshotRun(components[..n], env, o, t).trace;
      SnapshotLooks(components[..n], env, o, t);
      ProbeLooks(components[n], env, o, before);
      LooksThenLooks(t, before, Probed(components[n], env, o, before).trace);
    }
  }
}
