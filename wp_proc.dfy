/**
  The `wp` relaunch loop (wp/proc.go): each child command is installed in
  the agent before it starts, configure requests may arrive while it runs,
  and after Wait the command is cleared and the exit strategy reads the
  agent's expectExit together with OnExit.
 */
module WpProc {

  import opened Supervision
  import opened AgentConfig
  import opened WpAgent
  import opened AgentRules

  /** A configure request handled while a child runs: its body and whether sending the restart signal fails. */
  datatype WpRequest = WpRequest(body: Option<ConfigureBody>, signalFails: bool)

  /**
    One child of the loop: whether Start succeeded, its pid, when it started
    and exited, what Wait reported, the configure requests handled during
    its life, and whether the manualRestart channel released the loop
    afterwards when OnExit is "ignore".
   */
  datatype WpChild = WpChild(started: bool, pid: int, startedAt: int, exitedAt: int, wait: WaitResult,
                             requests: seq<WpRequest>, released: bool)

  /** The disk after one configure request: an accepted request writes its file. */
  function AfterConfigure(disk: Disk, configured: seq<string>, body: Option<ConfigureBody>): (d: Disk)
    ensures d.Keys == disk.Keys
    ensures !Accepted(disk, configured, body) ==> d == disk
    ensures Accepted(disk, configured, body) ==> d[body.value.file].contents == Some(body.value.contents)
  {
    if Accepted(disk, configured, body) then disk[body.value.file := File(Some(body.value.contents), true)] else disk
  }

  /** The disk after the configure requests, handled in order. */
  function DiskAfter(disk: Disk, configured: seq<string>, requests: seq<WpRequest>): Disk
    decreases |requests|
  {
    if requests == [] then disk
    else AfterConfigure(DiskAfter(disk, configured, requests[..|requests| - 1]), configured, requests[|requests| - 1].body)
  }

  /**
    Which of the configure requests, handled in order, pass every check of
    configure: each is judged against the disk the earlier ones left.
   */
  function AcceptedSeq(disk: Disk, configured: seq<string>, requests: seq<WpRequest>): (r: seq<bool>)
    ensures |r| == |requests|
    decreases |requests|
  {
    if requests == [] then []
    else
      var n := |requests| - 1;
      AcceptedSeq(disk, configured, requests[..n]) + [Accepted(DiskAfter(disk, configured, requests[..n]), configured, requests[n].body)]
  }

  /**
    Only a request whose body decoded and names a configured file, with
    text other than the file's, is accepted; the disk keeps its paths.
   */
  lemma {:induction false} AcceptedOnlyValid(disk: Disk, configured: seq<string>, requests: seq<WpRequest>)
    ensures DiskAfter(disk, configured, requests).Keys == disk.Keys
    ensures forall j :: 0 <= j < |requests| && AcceptedSeq(disk, configured, requests)[j] ==>
              requests[j].body.Some? && requests[j].body.value.file in configured
    decreases |requests|
  {
    if requests != [] {
      var n := |requests| - 1;
      AcceptedOnlyValid(disk, configured, requests[..n]);
      forall j | 0 <= j < |requests| && AcceptedSeq(disk, configured, requests)[j]
        ensures requests[j].body.Some? && requests[j].body.value.file in configured
      {
        if j < n {
          assert AcceptedSeq(disk, configured, requests)[j] == AcceptedSeq(disk, configured, requests[..n])[j];
          assert requests[..n][j] == requests[j];
        }
      }
    }
  }

  /** Some configure request handled during a child's life, from the given disk, was accepted. */
  predicate Expects(disk: Disk, configured: seq<string>, requests: seq<WpRequest>)
  {
    true in AcceptedSeq(disk, configured, requests)
  }

  /** How many of the relaunches take a backoff step: those after an expected exit, or every one with OnExit "restart". */
  function WpBackoffs(onExit: string, expected: seq<bool>): nat
    decreases |expected|
  {
    if expected == [] then 0
    else WpBackoffs(onExit, expected[..|expected| - 1])
         + (if expected[|expected| - 1] || onExit == OnExitRestart then 1 else 0)
  }

  /**
    The delays of the wp loop's relaunches, given whether each exit was
    expected: a backoff step (the attempt counter is never reset) after an
    expected exit or with OnExit "restart", an immediate relaunch otherwise.
   */
  function WpDelays(onExit: string, expected: seq<bool>): (r: seq<Delay>)
    ensures |r| == |expected|
    decreases |expected|
  {
    if expected == [] then []
    else
      var front := expected[..|expected| - 1];
      WpDelays(onExit, front)
      + [if expected[|expected| - 1] || onExit == OnExitRestart then Backoff(WpBackoffs(onExit, front)) else Immediately]
  }

  /** The backoff attempts among the delays strictly increase. */
  predicate IncreasingAttempts(delays: seq<Delay>)
  {
    forall k, l :: 0 <= k < l < |delays| && delays[k].Backoff? && delays[l].Backoff? ==>
      delays[k].attempt < delays[l].attempt
  }

  /**
    A relaunch takes a backoff step exactly when its exit was expected or
    OnExit is "restart"; the attempts strictly increase and all lie below
    the counter; with "restart" they are 0, 1, 2, ...
   */
  lemma {:induction false} WpDelaysShape(onExit: string, expected: seq<bool>)
    ensures forall k :: 0 <= k < |expected| ==>
              (WpDelays(onExit, expected)[k].Backoff? <==> expected[k] || onExit == OnExitRestart)
    ensures forall k :: 0 <= k < |expected| && !WpDelays(onExit, expected)[k].Backoff? ==>
              WpDelays(onExit, expected)[k] == Immediately
    ensures forall k :: 0 <= k < |expected| && WpDelays(onExit, expected)[k].Backoff? ==>
              WpDelays(onExit, expected)[k].attempt < WpBackoffs(onExit, expected)
    ensures IncreasingAttempts(WpDelays(onExit, expected))
    ensures onExit == OnExitRestart ==> WpBackoffs(onExit, expected) == |expected|
    ensures onExit == OnExitRestart ==> forall k :: 0 <= k < |expected| ==> WpDelays(onExit, expected)[k] == Backoff(k)
    decreases |expected|
  {
    if expected != [] {
      var n := |expected| - 1;
      var front := expected[..n];
      WpDelaysShape(onExit, front);
      var r := WpDelays(onExit, expected);
      var rf := WpDelays(onExit, front);
      assert r == rf + [r[n]];
      forall k | 0 <= k < n ensures r[k] == rf[k] && expected[k] == front[k] {
      }
    }
  }

  /** The signal proxy: a started child command gets the signal; otherwise the relay rule decides. */
  method ProxySignal(proc: Cmd?, sig: Signal) returns (action: SignalAction)
    modifies proc
    ensures action == RouteSignal(proc != null && old(proc.process).Some?, sig)
    ensures proc != null ==> proc.process == old(proc.process)
    ensures proc != null ==> proc.signals == old(proc.signals) + (if action.Forward? then [Some(sig)] else [])
  {
    action := RouteSignal(proc != null && proc.process.Some?, sig);
    if action.Forward? {
      proc.signals := proc.signals + [Some(sig)];
    }
  }

  /**
    The life of one started child: it is started and published, the
    configure requests are handled, and after Wait the command is cleared.
    `accepted` tells which requests passed every check; the exit is expected
    exactly when one of them did, since the child was running throughout.
   */
  method RunChild(agent: Agent, cmd: Cmd, child: WpChild, fs: FileSystem) returns (code: int, expected: bool, accepted: seq<bool>)
    requires agent.Valid() && agent.proc == cmd && cmd.process.None? && !agent.expectExit
    modifies agent, fs, cmd
    ensures code == ExitCode(child.wait)
    ensures accepted == AcceptedSeq(old(fs.disk), old(agent.data.config.configurationFiles), child.requests)
    ensures fs.disk == DiskAfter(old(fs.disk), old(agent.data.config.configurationFiles), child.requests)
    ensures expected == agent.expectExit
    ensures expected <==> true in accepted
    ensures agent.Valid() && agent.proc == null && !agent.data.running && agent.data.pid == 0 && agent.data.uptime.None?
    ensures agent.data.config == old(agent.data.config) && agent.data.log == old(agent.data.log)
    ensures agent.data.logOffset == old(agent.data.logOffset) && agent.data.manual == old(agent.data.manual)
    ensures !(true in accepted) ==> agent.data.files == old(agent.data.files)
    ensures agent.manualSends == old(agent.manualSends) && agent.pushes >= old(agent.pushes) + 2
    ensures cmd.process == Some(child.pid)
  {
    ghost var disk0 := fs.disk;
    ghost var cfg := agent.data.config.configurationFiles;
    ghost var data0 := agent.data;
    cmd.Start(child.pid);
    agent.CheckProc(child.startedAt);
    accepted := [];
    var j := 0;
    while j < |child.requests|
      invariant 0 <= j <= |child.requests|
      invariant accepted == AcceptedSeq(disk0, cfg, child.requests[..j])
      invariant fs.disk == DiskAfter(disk0, cfg, child.requests[..j])
      invariant agent.Valid() && agent.proc == cmd && agent.data.running
      invariant agent.data.config == data0.config && agent.data.log == data0.log
      invariant agent.data.logOffset == data0.logOffset && agent.data.manual == data0.manual
      invariant !(true in accepted) ==> agent.data.files == data0.files
      invariant agent.manualSends == old(agent.manualSends) && agent.pushes >= old(agent.pushes) + 1
      invariant cmd.process == Some(child.pid)
      invariant agent.expectExit <==> true in accepted
    {
      var req := child.requests[j];
      var ok := Accepted(fs.disk, agent.data.config.configurationFiles, req.body);
      var _ := agent.Configure(req.body, fs, req.signalFails);
      assert child.requests[..j + 1][..j] == child.requests[..j];
      assert fs.disk == AfterConfigure(DiskAfter(disk0, cfg, child.requests[..j]), cfg, req.body);
      accepted := accepted + [ok];
      assert true in accepted <==> true in accepted[..j] || ok by {
        assert accepted == accepted[..j] + [ok];
      }
      j := j + 1;
    }
    assert child.requests[..j] == child.requests;
    code := ExitCode(child.wait);
    agent.SetProc(null, child.exitedAt);
    expected := agent.expectExit;
  }

  /**
    One pass of the loop up to the exit strategy: a new command is installed
    (clearing expectExit), and if it starts the child runs to its exit and
    the command is cleared again.
   */
  method LaunchChild(agent: Agent, child: WpChild, fs: FileSystem) returns (code: int, expected: bool)
    requires agent.Valid()
    modifies agent, fs
    ensures agent.Valid() && agent.data.config == old(agent.data.config)
    ensures child.started ==> code == ExitCode(child.wait) && agent.proc == null && !agent.data.running
    ensures child.started ==>
              && fs.disk == DiskAfter(old(fs.disk), old(agent.data.config.configurationFiles), child.requests)
              && (expected <==> Expects(old(fs.disk), old(agent.data.config.configurationFiles), child.requests))
    ensures child.started && |child.requests| == 0 ==> !expected
  {
    var cmd := new Cmd();
    agent.SetProc(cmd, child.startedAt);
    if !child.started {
      return 0, false;
    }
    var accepted;
    code, expected, accepted := RunChild(agent, cmd, child, fs);
  }

  /** How the loop ends after a child's exit, if it does: proxy exits with the code, an unknown OnExit panics, and "ignore" keeps waiting unless released. */
  function Outcome(expected: bool, onExit: string, released: bool, code: int): (stop: Option<End>)
    ensures stop.None? <==> ExitStrategy(expected, onExit) == Relaunch || (ExitStrategy(expected, onExit) == AwaitManual && released)
  {
    match ExitStrategy(expected, onExit)
    case ExitWith => Some(ExitedWith(code))
    case PanicUnknown => Some(Panicked("unknown onexit"))
    case AwaitManual => if released then None else Some(StillRunning)
    case Relaunch => None
  }

  /**
    RunProcess over the given children. A relaunch after an expected exit or
    with OnExit "restart" takes the next backoff delay, never reset; with
    "ignore" the loop relaunches at once once released; "proxy" ends the
    supervisor with the child's code and any other OnExit panics. An exit is
    expected only if a configure request was accepted during that child's
    life: each new child clears the flag. Configure requests handled
    between two children are not part of the trace.
   */
  method RunProcess(agent: Agent, onExit: string, lookupOk: bool, children: seq<WpChild>, fs: FileSystem)
    returns (end: End, codes: seq<int>, expected: seq<bool>, delays: seq<Delay>, ghost disks: seq<Disk>)
    requires agent.Valid()
    modifies agent, fs
    ensures !lookupOk ==> end == Fatal("program not found in path") && codes == []
    ensures |codes| == |expected| == |delays| <= |children|
    ensures forall k :: 0 <= k < |codes| ==> children[k].started && codes[k] == ExitCode(children[k].wait)
    ensures |disks| == |expected| + 1 && disks[0] == old(fs.disk)
    ensures forall k {:trigger children[k]} :: 0 <= k < |expected| ==>
              && disks[k + 1] == DiskAfter(disks[k], old(agent.data.config.configurationFiles), children[k].requests)
              && (expected[k] <==> Expects(disks[k], old(agent.data.config.configurationFiles), children[k].requests))
    ensures delays == WpDelays(onExit, expected)
    ensures forall k :: 0 <= k < |expected| ==>
              expected[k] || onExit == OnExitRestart || (onExit == OnExitIgnore && children[k].released)
    ensures lookupOk && end.Fatal? ==> |codes| < |children| && !children[|codes|].started && end == Fatal("program failed to start")
    ensures end.ExitedWith? ==>
              onExit == OnExitProxy && |codes| < |children| && end.code == ExitCode(children[|codes|].wait)
              && agent.proc == null && !agent.data.running
    ensures end.Panicked? ==> !KnownOnExit(onExit) && end == Panicked("unknown onexit")
    ensures end.StillRunning? ==> |codes| == |children| || (onExit == OnExitIgnore && !children[|codes|].released)
  {
    codes, expected, delays, disks := [], [], [], [fs.disk];
    if !lookupOk {
      return Fatal("program not found in path"), codes, expected, delays, disks;
    }
    ghost var cfg := agent.data.config.configurationFiles;
    var attempt := 0;
    var i := 0;
    while i < |children|
      invariant i == |codes| == |expected| == |delays| <= |children|
      invariant agent.Valid() && agent.data.config.configurationFiles == cfg
      invariant |disks| == i + 1 && disks[0] == old(fs.disk) && fs.disk == disks[i]
      invariant delays == WpDelays(onExit, expected) && attempt == WpBackoffs(onExit, expected)
      invariant forall k {:trigger children[k]} {:trigger expected[k]} {:trigger codes[k]} :: 0 <= k < i ==>
                  && children[k].started && codes[k] == ExitCode(children[k].wait)
                  && disks[k + 1] == DiskAfter(disks[k], cfg, children[k].requests)
                  && (expected[k] <==> Expects(disks[k], cfg, children[k].requests))
                  && (expected[k] || onExit == OnExitRestart || (onExit == OnExitIgnore && children[k].released))
    {
      var child := children[i];
      var code, exp := LaunchChild(agent, child, fs);
      if !child.started {
        return Fatal("program failed to start"), codes, expected, delays, disks;
      }
      var stop := Outcome(exp, onExit, child.released, code);
      if stop.Some? {
        return stop.value, codes, expected, delays, disks;
      }
      var delay := if ExitStrategy(exp, onExit) == Relaunch then Backoff(attempt) else Immediately;
      delays := delays + [delay];
      if delay.Backoff? {
        attempt := attempt + 1;
      }
      disks := disks + [fs.disk];
      ghost var before := expected;
      codes, expected := codes + [code], expected + [exp];
      assert expected[..|expected| - 1] == before;
      i := i + 1;
    }
    end := StillRunning;
  }
}
