/**
  agent/proc.go, an older supervisor left beside the current one in the
  same package: a request goroutine that gates "start" and "restart", a
  signal proxy, and a relaunch loop whose exit strategy reads
  expectingRestart and OnExit. It publishes through the agent's setRunning.
 */
module StaleProc {

  import opened Supervision
  import opened AgentConfig
  import opened CurrentAgent
  import opened AgentRules

  /** What the request goroutine does with one request. */
  datatype RequestOutcome =
    | CantStart                  // "start" while no manual restart is awaited: logged, dropped
    | StartChild                 // "start" while awaited: the blocked loop is released
    | CantRestart                // "restart" with no running child or no wait channel: logged, dropped
    | RestartChild               // "restart": the restart signal goes to the child, racing the kill timer
    | UnknownRequest             // anything else: logged, dropped

  /** The request goroutine's gate. */
  function GateRequest(kind: string, awaiting: bool, running: bool, hasWaitChan: bool): (o: RequestOutcome)
    ensures o == StartChild <==> kind == "start" && awaiting
    ensures o == CantStart <==> kind == "start" && !awaiting
    ensures o == RestartChild <==> kind == "restart" && running && hasWaitChan
    ensures o == CantRestart <==> kind == "restart" && !(running && hasWaitChan)
    ensures o == UnknownRequest <==> kind != "start" && kind != "restart"
  {
    if kind == "start" then
      if awaiting then StartChild else CantStart
    else if kind == "restart" then
      if running && hasWaitChan then RestartChild else CantRestart
    else UnknownRequest
  }

  /**
    One child of the loop: whether Start succeeded, its pid, what Wait
    reported, and whether a "start" request released the loop afterwards
    when OnExit is "ignore".
   */
  datatype StaleChild = StaleChild(started: bool, pid: int, startedAt: int, exitedAt: int, wait: WaitResult, released: bool)

  class Supervisor {
    const agent: Agent
    const onExit: string
    var proc: Option<int>                 // the current child's pid; None for a nil proc
    var hasWaitChan: bool                 // the `running` channel has been made
    var expectingRestart: bool
    var awaitingManualRestart: bool
    var attempt: nat                      // the backoff's attempt counter
    var childSignals: seq<Option<Signal>> // signals sent to children; None is a nil os.Signal

    /** The state runProc sets up after the program lookup. */
    constructor (agent: Agent, onExit: string)
      ensures this.agent == agent && this.onExit == onExit
      ensures proc == None && !hasWaitChan && !expectingRestart && !awaitingManualRestart
      ensures attempt == 0 && childSignals == []
    {
      this.agent := agent;
      this.onExit := onExit;
      proc := None;
      hasWaitChan := false;
      expectingRestart := false;
      awaitingManualRestart := false;
      attempt := 0;
      childSignals := [];
    }

    /** The request goroutine handling one request; a restart sends the configured restart signal. */
    method HandleRequest(kind: string) returns (outcome: RequestOutcome)
      modifies this
      ensures outcome == GateRequest(kind, old(awaitingManualRestart), agent.IsRunning(), old(hasWaitChan))
      ensures childSignals == old(childSignals) + (if outcome == RestartChild then [agent.data.config.goRestartSignal] else [])
      ensures proc == old(proc) && hasWaitChan == old(hasWaitChan) && attempt == old(attempt)
      ensures expectingRestart == old(expectingRestart) && awaitingManualRestart == old(awaitingManualRestart)
    {
      outcome := GateRequest(kind, awaitingManualRestart, agent.IsRunning(), hasWaitChan);
      if outcome == RestartChild {
        childSignals := childSignals + [agent.data.config.goRestartSignal];
      }
    }

    /** The signal proxy: a signal goes to the child when there is one; otherwise the relay rule decides. */
    method ProxySignal(sig: Signal) returns (action: SignalAction)
      modifies this
      ensures action == RouteSignal(old(proc).Some?, sig)
      ensures childSignals == old(childSignals) + (if action.Forward? then [Some(sig)] else [])
      ensures proc == old(proc) && hasWaitChan == old(hasWaitChan) && attempt == old(attempt)
      ensures expectingRestart == old(expectingRestart) && awaitingManualRestart == old(awaitingManualRestart)
    {
      action := RouteSignal(proc.Some?, sig);
      if action.Forward? {
        childSignals := childSignals + [Some(sig)];
      }
    }

    /**
      One pass of runProc's loop up to the exit strategy: the child is
      installed and published as running, and once Wait returns it is
      cleared and its exit code is published.
     */
    method RunChild(child: StaleChild) returns (code: int)
      requires child.started
      modifies this, agent
      ensures code == ExitCode(child.wait)
      ensures proc.None? && hasWaitChan && !agent.IsRunning()
      ensures agent.data == old(agent.data).(running := false, changedAt := child.exitedAt, pid := 0, exitCode := code)
      ensures expectingRestart == old(expectingRestart) && awaitingManualRestart == old(awaitingManualRestart)
      ensures attempt == old(attempt) && childSignals == old(childSignals)
      ensures agent.procState == ProcExited && agent.pushes == old(agent.pushes) + 2
      ensures agent.procReqs == old(agent.procReqs) && agent.procSigs == old(agent.procSigs)
    {
      proc := Some(child.pid);
      agent.SetRunning(true, child.pid, child.startedAt);
      hasWaitChan := true;
      code := ExitCode(child.wait);
      proc := None;
      agent.SetRunning(false, code, child.exitedAt);
    }

    /**
      runProc's loop over the given children. Every relaunch after OnExit
      "restart" takes the next backoff delay, never reset; after "ignore" the
      loop waits for a "start" request and relaunches at once; "proxy" ends
      the supervisor with the child's code and any other OnExit panics. The
      exit is published (no child, not running, its code) before the
      strategy is chosen, and the awaiting flag, once set, stays set.
     */
    method RunProc(lookupOk: bool, children: seq<StaleChild>) returns (end: End, codes: seq<int>, delays: seq<Delay>)
      modifies this, agent
      ensures !lookupOk ==> end == Fatal("program not found in path") && codes == []
      ensures |delays| == |codes| <= |children|
      ensures forall i :: 0 <= i < |codes| ==> children[i].started && codes[i] == ExitCode(children[i].wait)
      ensures onExit == OnExitRestart ==> forall i :: 0 <= i < |delays| ==> delays[i] == Backoff(old(attempt) + i)
      ensures onExit == OnExitIgnore ==> forall i :: 0 <= i < |delays| ==> delays[i] == Immediately && children[i].released
      ensures codes != [] ==> onExit == OnExitRestart || onExit == OnExitIgnore
      ensures lookupOk && end.Fatal? ==> |codes| < |children| && !children[|codes|].started && end == Fatal("program failed to start")
      ensures end.ExitedWith? ==>
                onExit == OnExitProxy && |codes| < |children| && end.code == ExitCode(children[|codes|].wait)
                && proc.None? && !agent.IsRunning() && agent.data.exitCode == end.code
      ensures end.Panicked? ==> !KnownOnExit(onExit) && end == Panicked("unknown onexit") && |codes| < |children|
      ensures end.StillRunning? ==> |codes| == |children| || (onExit == OnExitIgnore && !children[|codes|].released)
      ensures lookupOk && children != [] ==> !expectingRestart
      ensures old(awaitingManualRestart) ==> awaitingManualRestart
      ensures awaitingManualRestart ==> old(awaitingManualRestart) || onExit == OnExitIgnore
    {
      codes, delays := [], [];
      if !lookupOk {
        return Fatal("program not found in path"), codes, delays;
      }
      ghost var attempt0 := attempt;
      var i := 0;
      while i < |children|
        invariant i == |codes| == |delays| <= |children|
        invariant forall k :: 0 <= k < |codes| ==> children[k].started && codes[k] == ExitCode(children[k].wait)
        invariant onExit == OnExitRestart ==> attempt == attempt0 + i
        invariant onExit == OnExitRestart ==> forall k :: 0 <= k < |delays| ==> delays[k] == Backoff(attempt0 + k)
        invariant onExit == OnExitIgnore ==> forall k :: 0 <= k < |delays| ==> delays[k] == Immediately && children[k].released
        invariant codes != [] ==> onExit == OnExitRestart || onExit == OnExitIgnore
        invariant i > 0 ==> !expectingRestart
        invariant old(awaitingManualRestart) ==> awaitingManualRestart
        invariant awaitingManualRestart ==> old(awaitingManualRestart) || onExit == OnExitIgnore
      {
        var child := children[i];
        expectingRestart := false;
        if !child.started {
          return Fatal("program failed to start"), codes, delays;
        }
        var code := RunChild(child);
        match ExitStrategy(expectingRestart, onExit) {
          case Relaunch =>
            delays := delays + [Backoff(attempt)];
            attempt := attempt + 1;
          case ExitWith =>
            return ExitedWith(code), codes, delays;
          case AwaitManual =>
            awaitingManualRestart := true;
            if !child.released {
              return StillRunning, codes, delays;
            }
            delays := delays + [Immediately];
          case PanicUnknown =>
            return Panicked("unknown onexit"), codes, delays;
        }
        codes := codes + [code];
        i := i + 1;
      }
      end := StillRunning;
    }
  }
}
