/**
  The decisions of the current agent's process supervisor
  (agent/agent_proc.go) and of its HTTP front (agent/agent_http.go), as
  functions of what happened. runProcOnce's select loop is a fold of `Step`
  over the events it receives: requests from procReqs, signals from
  procSigs and the child's exit from the wait goroutine.
 */
module AgentRules {

  import opened Supervision
  import opened AgentConfig

  /** The values of the atomic procState. */
  const ProcRunning: int := 1
  const ProcExited: int := 0
  const ProcChanging: int := -1

  /** What runProcOnce's select loop receives. */
  datatype ProcEvent =
    | Request(kind: string)        // a request read from procReqs
    | Received(sig: Signal)        // a signal read from procSigs
    | ChildExited(wait: WaitResult) // the wait goroutine's report

  /** What the loop does besides changing its phase. */
  datatype ProcAction =
    | QueueInterrupt          // the restart goroutine: manual flag set, os.Interrupt sent on procSigs
    | IgnoreRequest(kind: string)
    | ArmKillTimer            // kill the child unless it exits within RestartTimeout
    | SignalChild(sig: Signal)

  /** Where one run of runProcOnce is. */
  datatype Phase =
    | Selecting(manualRestart: bool, exitCode: Option<int>) // in the select loop; Some(code) once the exit was consumed
    | AwaitingRestart(code: int)                           // OnExit "ignore": ranging over procReqs
    | Returned(code: int)                                  // runProcOnce returned code
    | Exited(code: int)                                    // os.Exit(code)

  /** The child has not exited yet. */
  predicate Alive(ph: Phase)
  {
    ph.Selecting? && ph.exitCode.None?
  }

  /** runProcOnce is over: it returned or the supervisor exited. */
  predicate Finished(ph: Phase)
  {
    ph.Returned? || ph.Exited?
  }

  /** The child's exit code, once it has exited. */
  function PhaseCode(ph: Phase): int
    requires !Alive(ph)
  {
    match ph
    case Selecting(_, exitCode) => exitCode.value
    case AwaitingRestart(code) => code
    case Returned(code) => code
    case Exited(code) => code
  }

  /**
    What runProcOnce does when the wait goroutine reports the exit code: a
    requested manual restart returns it whatever OnExit says; otherwise
    "restart" returns it, "proxy" exits the supervisor with it, "ignore"
    waits for a restart request, and any other value (which ValidateConfig
    rules out) falls back into the select loop.
   */
  function ExitDecision(onExit: string, manualRestart: bool, code: int): (ph: Phase)
    ensures manualRestart ==> ph == Returned(code)
    ensures !manualRestart ==> (ph == Returned(code) <==> onExit == OnExitRestart)
    ensures !manualRestart ==> (ph == Exited(code) <==> onExit == OnExitProxy)
    ensures !manualRestart ==> (ph == AwaitingRestart(code) <==> onExit == OnExitIgnore)
    ensures !manualRestart ==> (ph == Selecting(false, Some(code)) <==> !KnownOnExit(onExit))
    ensures !Alive(ph) && PhaseCode(ph) == code
  {
    if manualRestart then Returned(code)
    else if onExit == OnExitRestart then Returned(code)
    else if onExit == OnExitProxy then Exited(code)
    else if onExit == OnExitIgnore then AwaitingRestart(code)
    else Selecting(false, Some(code))
  }

  /** One event handled by runProcOnce. */
  function Step(onExit: string, ph: Phase, ev: ProcEvent): (Phase, seq<ProcAction>)
  {
    match ph
    case Selecting(manual, exitCode) =>
      (match ev
       case Request(kind) =>
         if kind == "restart" then (Selecting(true, exitCode), [QueueInterrupt])
         else (ph, [IgnoreRequest(kind)])
       case Received(sig) =>
         (ph, (if sig == Interrupt then [ArmKillTimer] else []) + [SignalChild(sig)])
       case ChildExited(w) =>
         if exitCode.Some? then (ph, [])
         else (ExitDecision(onExit, manual, ExitCode(w)), []))
    case AwaitingRestart(code) =>
      (match ev
       case Request(kind) =>
         if kind == "restart" then (Returned(code), []) else (ph, [IgnoreRequest(kind)])
       case _ => (ph, [])) // procSigs and wait are not read while blocked on procReqs
    case _ => (ph, [])
  }

  /** The events handled in order, from phase `ph`: the phase reached and everything done. */
  function Run(onExit: string, ph: Phase, events: seq<ProcEvent>): (Phase, seq<ProcAction>)
    decreases |events|
  {
    if events == [] then (ph, [])
    else
      var before := Run(onExit, ph, events[..|events| - 1]);
      var after := Step(onExit, before.0, events[|events| - 1]);
      (after.0, before.1 + after.1)
  }

  /** Once runProcOnce has returned or the supervisor has exited, nothing further happens. */
  lemma {:induction false} FinishedStays(onExit: string, ph: Phase, events: seq<ProcEvent>)
    requires Finished(ph)
    ensures Run(onExit, ph, events) == (ph, [])
    decreases |events|
  {
    if events != [] {
      FinishedStays(onExit, ph, events[..|events| - 1]);
      assert Step(onExit, ph, events[|events| - 1]) == (ph, []);
      assert Run(onExit, ph, events).1 == [] + [];
    } else {
      assert Run(onExit, ph, events) == (ph, []);
    }
  }

  /** runProcOnce returns (or the supervisor exits) at the first event that finishes it: later events change nothing. */
  lemma {:induction false} RunStops(onExit: string, ph: Phase, events: seq<ProcEvent>, i: nat)
    requires i <= |events| && Finished(Run(onExit, ph, events[..i]).0)
    ensures Run(onExit, ph, events) == Run(onExit, ph, events[..i])
    decreases |events|
  {
    if i < |events| {
      var n := |events|;
      var front := events[..n - 1];
      assert front[..i] == events[..i];
      RunStops(onExit, ph, front, i);
      var done := Run(onExit, ph, front);
      assert Step(onExit, done.0, events[n - 1]) == (done.0, []);
      assert done.1 + [] == done.1;
    } else {
      assert events[..i] == events;
    }
  }

  /**
    One event and the child's state: it stays alive until its exit is
    reported, the report ends its life with ExitCode's code, and after that
    the code stays what it was.
   */
  lemma StepKeepsExit(onExit: string, ph: Phase, ev: ProcEvent)
    ensures Alive(ph) && !ev.ChildExited? ==> Alive(Step(onExit, ph, ev).0)
    ensures Alive(ph) && !ev.ChildExited? ==> Step(onExit, ph, ev).0.manualRestart == (ph.manualRestart || ev == Request("restart"))
    ensures Alive(ph) && ev.ChildExited? ==>
              Step(onExit, ph, ev).0 == ExitDecision(onExit, ph.manualRestart, ExitCode(ev.wait))
    ensures !Alive(ph) ==> !Alive(Step(onExit, ph, ev).0) && PhaseCode(Step(onExit, ph, ev).0) == PhaseCode(ph)
    ensures Alive(ph) && ev.Request? ==>
              Step(onExit, ph, ev).1 == if ev.kind == "restart" then [QueueInterrupt] else [IgnoreRequest(ev.kind)]
  {
  }

  /** Some "restart" request is among the events. */
  predicate RestartRequested(events: seq<ProcEvent>)
  {
    exists i :: 0 <= i < |events| && events[i] == Request("restart")
  }

  /** No event is the child's exit. */
  predicate NoExit(events: seq<ProcEvent>)
  {
    forall i :: 0 <= i < |events| ==> !events[i].ChildExited?
  }

  /** The signals among the events, in order. */
  function ReceivedSignals(events: seq<ProcEvent>): seq<Signal>
    decreases |events|
  {
    if events == [] then []
    else ReceivedSignals(events[..|events| - 1])
         + (if events[|events| - 1].Received? then [events[|events| - 1].sig] else [])
  }

  /** The signals sent to the child, in order. */
  function SentSignals(actions: seq<ProcAction>): seq<Signal>
    decreases |actions|
  {
    if actions == [] then []
    else SentSignals(actions[..|actions| - 1])
         + (if actions[|actions| - 1].SignalChild? then [actions[|actions| - 1].sig] else [])
  }

  /** How many of the events are os.Interrupt signals. */
  function Interrupts(events: seq<ProcEvent>): nat
    decreases |events|
  {
    if events == [] then 0
    else Interrupts(events[..|events| - 1]) + (if events[|events| - 1] == Received(Interrupt) then 1 else 0)
  }

  /** How many kill timers the actions arm. */
  function KillTimers(actions: seq<ProcAction>): nat
    decreases |actions|
  {
    if actions == [] then 0
    else KillTimers(actions[..|actions| - 1]) + (if actions[|actions| - 1] == ArmKillTimer then 1 else 0)
  }

  /** How many "restart" requests are among the events. */
  function RestartRequests(events: seq<ProcEvent>): nat
    decreases |events|
  {
    if events == [] then 0
    else RestartRequests(events[..|events| - 1]) + (if events[|events| - 1] == Request("restart") then 1 else 0)
  }

  /** The kinds of the requests other than "restart" among the events, in order. */
  function OtherRequests(events: seq<ProcEvent>): seq<string>
    decreases |events|
  {
    if events == [] then []
    else OtherRequests(events[..|events| - 1])
         + (var ev := events[|events| - 1]; if ev.Request? && ev.kind != "restart" then [ev.kind] else [])
  }

  /** How many times the actions queue os.Interrupt for a manual restart. */
  function QueuedInterrupts(actions: seq<ProcAction>): nat
    decreases |actions|
  {
    if actions == [] then 0
    else QueuedInterrupts(actions[..|actions| - 1]) + (if actions[|actions| - 1] == QueueInterrupt then 1 else 0)
  }

  /** The kinds of the requests the actions log and ignore, in order. */
  function IgnoredRequests(actions: seq<ProcAction>): seq<string>
    decreases |actions|
  {
    if actions == [] then []
    else IgnoredRequests(actions[..|actions| - 1])
         + (if actions[|actions| - 1].IgnoreRequest? then [actions[|actions| - 1].kind] else [])
  }

  lemma {:induction false} SentSignalsAppend(a: seq<ProcAction>, b: seq<ProcAction>)
    ensures SentSignals(a + b) == SentSignals(a) + SentSignals(b)
    ensures KillTimers(a + b) == KillTimers(a) + KillTimers(b)
    decreases |b|
  {
    if b == [] {
      assert a + b == a;
    } else {
      var n := |b|;
      assert (a + b)[..|a + b| - 1] == a + b[..n - 1];
      SentSignalsAppend(a, b[..n - 1]);
    }
  }

  lemma {:induction false} RequestsAppend(a: seq<ProcAction>, b: seq<ProcAction>)
    ensures QueuedInterrupts(a + b) == QueuedInterrupts(a) + QueuedInterrupts(b)
    ensures IgnoredRequests(a + b) == IgnoredRequests(a) + IgnoredRequests(b)
    decreases |b|
  {
    if b == [] {
      assert a + b == a;
    } else {
      var n := |b|;
      assert (a + b)[..|a + b| - 1] == a + b[..n - 1];
      RequestsAppend(a, b[..n - 1]);
    }
  }

  /** A "restart" request is among the events when it is among the earlier ones or is the last one. */
  lemma RestartRequestedLast(events: seq<ProcEvent>)
    requires events != []
    ensures RestartRequested(events) <==>
            RestartRequested(events[..|events| - 1]) || events[|events| - 1] == Request("restart")
  {
    var n := |events|;
    var front := events[..n - 1];
    if RestartRequested(front) {
      var i :| 0 <= i < n - 1 && front[i] == Request("restart");
      assert events[i] == front[i];
    }
    if RestartRequested(events) && events[n - 1] != Request("restart") {
      var i :| 0 <= i < n && events[i] == Request("restart");
      assert front[i] == events[i];
    }
  }

  /**
    While the child lives, runProcOnce stays in its select loop, and its
    manual-restart flag is set exactly when it was set before or a "restart"
    request has come in.
   */
  lemma {:induction false} StaysSelecting(onExit: string, manual: bool, events: seq<ProcEvent>)
    requires NoExit(events)
    ensures Run(onExit, Selecting(manual, None), events).0 == Selecting(manual || RestartRequested(events), None)
    decreases |events|
  {
    if events != [] {
      var n := |events|;
      var front := events[..n - 1];
      assert NoExit(front) by {
        forall i | 0 <= i < |front| ensures !front[i].ChildExited? {
          assert front[i] == events[i];
        }
      }
      StaysSelecting(onExit, manual, front);
      RestartRequestedLast(events);
    }
  }

  /**
    While the child lives, each "restart" request queues one os.Interrupt
    for the child, and every other request is logged and ignored, in order.
   */
  lemma {:induction false} HandlesEveryRequest(onExit: string, manual: bool, events: seq<ProcEvent>)
    requires NoExit(events)
    ensures QueuedInterrupts(Run(onExit, Selecting(manual, None), events).1) == RestartRequests(events)
    ensures IgnoredRequests(Run(onExit, Selecting(manual, None), events).1) == OtherRequests(events)
    decreases |events|
  {
    if events != [] {
      var n := |events|;
      var front := events[..n - 1];
      assert NoExit(front) by {
        forall i | 0 <= i < |front| ensures !front[i].ChildExited? {
          assert front[i] == events[i];
        }
      }
      HandlesEveryRequest(onExit, manual, front);
      StaysSelecting(onExit, manual, front);
      var before := Run(onExit, Selecting(manual, None), front);
      var after := Step(onExit, before.0, events[n - 1]);
      assert Run(onExit, Selecting(manual, None), events).1 == before.1 + after.1;
      RequestsAppend(before.1, after.1);
      StepHandlesRequest(onExit, manual || RestartRequested(front), events[n - 1]);
    }
  }

  /**
    The select loop before the child's exit: it stays in select with the
    manual flag set exactly when a "restart" request came in, each such
    request queues one os.Interrupt, and every other request is ignored.
   */
  lemma SelectingWhileAlive(onExit: string, manual: bool, events: seq<ProcEvent>)
    requires NoExit(events)
    ensures Run(onExit, Selecting(manual, None), events).0 == Selecting(manual || RestartRequested(events), None)
    ensures QueuedInterrupts(Run(onExit, Selecting(manual, None), events).1) == RestartRequests(events)
    ensures IgnoredRequests(Run(onExit, Selecting(manual, None), events).1) == OtherRequests(events)
  {
    StaysSelecting(onExit, manual, events);
    HandlesEveryRequest(onExit, manual, events);
  }

  /** One event while the child lives: a "restart" request queues one os.Interrupt, any other request is ignored, and a signal does neither. */
  lemma StepHandlesRequest(onExit: string, manual: bool, ev: ProcEvent)
    requires !ev.ChildExited?
    ensures QueuedInterrupts(Step(onExit, Selecting(manual, None), ev).1) == if ev == Request("restart") then 1 else 0
    ensures IgnoredRequests(Step(onExit, Selecting(manual, None), ev).1) ==
              if ev.Request? && ev.kind != "restart" then [ev.kind] else []
  {
    var acts := Step(onExit, Selecting(manual, None), ev).1;
    if ev.Received? {
      var timer: seq<ProcAction> := if ev.sig == Interrupt then [ArmKillTimer] else [];
      assert acts == timer + [SignalChild(ev.sig)];
      RequestsAppend(timer, [SignalChild(ev.sig)]);
      assert [SignalChild(ev.sig)][..0] == [];
      if timer != [] {
        assert timer[..0] == [];
      }
    } else {
      assert acts[..0] == [];
    }
  }

  /** One event while the child lives: a signal is sent on, after arming a kill timer if it is os.Interrupt. */
  lemma StepForwards(onExit: string, manual: bool, ev: ProcEvent)
    requires !ev.ChildExited?
    ensures SentSignals(Step(onExit, Selecting(manual, None), ev).1) == if ev.Received? then [ev.sig] else []
    ensures KillTimers(Step(onExit, Selecting(manual, None), ev).1) == if ev == Received(Interrupt) then 1 else 0
  {
    var acts := Step(onExit, Selecting(manual, None), ev).1;
    if ev.Received? {
      var timer: seq<ProcAction> := if ev.sig == Interrupt then [ArmKillTimer] else [];
      assert acts == timer + [SignalChild(ev.sig)];
      SentSignalsAppend(timer, [SignalChild(ev.sig)]);
      assert [SignalChild(ev.sig)][..0] == [];
      if timer != [] {
        assert timer[..0] == [];
      }
    } else if ev.kind == "restart" {
      assert acts[..0] == [];
    } else {
      assert acts[..0] == [];
    }
  }

  /**
    While the child lives, every signal received is sent on to it, in order,
    and nothing else is; each os.Interrupt among them arms one kill timer.
   */
  lemma {:induction false} ForwardsEverySignal(onExit: string, manual: bool, events: seq<ProcEvent>)
    requires NoExit(events)
    ensures SentSignals(Run(onExit, Selecting(manual, None), events).1) == ReceivedSignals(events)
    ensures KillTimers(Run(onExit, Selecting(manual, None), events).1) == Interrupts(events)
    decreases |events|
  {
    if events != [] {
      var n := |events|;
      var front := events[..n - 1];
      assert NoExit(front) by {
        forall i | 0 <= i < |front| ensures !front[i].ChildExited? {
          assert front[i] == events[i];
        }
      }
      ForwardsEverySignal(onExit, manual, front);
      StaysSelecting(onExit, manual, front);
      var before := Run(onExit, Selecting(manual, None), front);
      var after := Step(onExit, before.0, events[n - 1]);
      assert Run(onExit, Selecting(manual, None), events).1 == before.1 + after.1;
      SentSignalsAppend(before.1, after.1);
      StepForwards(onExit, manual || RestartRequested(front), events[n - 1]);
    }
  }

  /**
    The child's exit is decided by ExitDecision, with the manual flag set
    exactly when a "restart" request came in before it.
   */
  lemma ExitIsDecided(onExit: string, events: seq<ProcEvent>, j: nat)
    requires j < |events| && events[j].ChildExited? && NoExit(events[..j])
    ensures Run(onExit, Selecting(false, None), events[..j + 1]).0
            == ExitDecision(onExit, RestartRequested(events[..j]), ExitCode(events[j].wait))
  {
    assert events[..j + 1][..j] == events[..j];
    StaysSelecting(onExit, false, events[..j]);
  }

  /**
    With OnExit "ignore", after the exit only a "restart" request matters:
    the first one returns the exit code; signals are not read and nothing is
    sent to the child.
   */
  lemma {:induction false} AwaitingOutcome(onExit: string, code: int, events: seq<ProcEvent>)
    ensures Run(onExit, AwaitingRestart(code), events).0
            == if RestartRequested(events) then Returned(code) else AwaitingRestart(code)
    ensures SentSignals(Run(onExit, AwaitingRestart(code), events).1) == []
    decreases |events|
  {
    if events != [] {
      var n := |events|;
      var front := events[..n - 1];
      AwaitingOutcome(onExit, code, front);
      var before := Run(onExit, AwaitingRestart(code), front);
      var after := Step(onExit, before.0, events[n - 1]);
      assert Run(onExit, AwaitingRestart(code), events).1 == before.1 + after.1;
      SentSignalsAppend(before.1, after.1);
      RestartRequestedLast(events);
      if after.1 != [] {
        assert SentSignals(after.1) == [] by {
          assert after.1 == [IgnoreRequest(events[n - 1].kind)];
          assert after.1[..0] == [];
        }
      }
    }
  }

  /**
    The attempt counter of runProc's backoff after the given exit codes: a
    clean exit (code 0) resets it, any other code advances it by one.
   */
  function Attempts(codes: seq<int>): nat
    decreases |codes|
  {
    if codes == [] then 0
    else if codes[|codes| - 1] == 0 then 0
    else Attempts(codes[..|codes| - 1]) + 1
  }

  /** The delay runProc takes after `code`, the earlier codes being `history`. */
  function DelayAfter(history: seq<int>, code: int): (d: Delay)
    ensures d == Immediately <==> code == 0
    ensures code != 0 ==> d == Backoff(Attempts(history))
  {
    if code == 0 then Immediately else Backoff(Attempts(history))
  }

  /** The delays runProc takes after each of the exit codes, in order. */
  function Delays(codes: seq<int>): (r: seq<Delay>)
    ensures |r| == |codes|
    ensures forall i :: 0 <= i < |codes| ==> r[i] == DelayAfter(codes[..i], codes[i])
    decreases |codes|
  {
    if codes == [] then []
    else
      var front := codes[..|codes| - 1];
      assert forall i :: 0 <= i < |front| ==> front[..i] == codes[..i];
      Delays(front) + [DelayAfter(front, codes[|codes| - 1])]
  }

  /** The backoff is reset only by a clean exit: after it the next failure waits the first backoff duration. */
  lemma SuccessResets(codes: seq<int>, code: int)
    requires code != 0
    ensures Delays(codes + [0] + [code])[|codes| + 1] == Backoff(0)
  {
    assert (codes + [0] + [code])[..|codes| + 1] == codes + [0];
  }

  /**
    The backoff counts the failures since the last clean exit: after a clean
    exit (or from the start) followed only by failures, it stands at the
    number of those failures.
   */
  lemma {:induction false} FailureStreak(codes: seq<int>, i: nat)
    requires i <= |codes|
    requires i == 0 || codes[i - 1] == 0
    requires forall k :: i <= k < |codes| ==> codes[k] != 0
    ensures Attempts(codes) == |codes| - i
    decreases |codes|
  {
    if |codes| > i {
      var front := codes[..|codes| - 1];
      assert forall k :: i <= k < |front| ==> front[k] == codes[k];
      if i > 0 {
        assert front[i - 1] == codes[i - 1];
      }
      FailureStreak(front, i);
    } else if i > 0 {
      assert codes[|codes| - 1] == 0;
    }
  }

  /** What an older supervisor loop does once a child has exited. */
  datatype Strategy = Relaunch | ExitWith | AwaitManual | PanicUnknown

  /**
    The exit-strategy chain of the older supervisors (agent/proc.go and
    wp/proc.go): an expected exit or OnExit "restart" relaunches after a
    backoff delay, "proxy" exits, "ignore" waits for a manual restart, and
    anything else panics.
   */
  function ExitStrategy(expectingRestart: bool, onExit: string): (s: Strategy)
    ensures s == Relaunch <==> expectingRestart || onExit == OnExitRestart
    ensures s == ExitWith <==> !expectingRestart && onExit == OnExitProxy
    ensures s == AwaitManual <==> !expectingRestart && onExit == OnExitIgnore
    ensures s == PanicUnknown <==> !expectingRestart && !KnownOnExit(onExit)
  {
    if expectingRestart || onExit == OnExitRestart then Relaunch
    else if onExit == OnExitProxy then ExitWith
    else if onExit == OnExitIgnore then AwaitManual
    else PanicUnknown
  }

  /** The handlers of the current agent's router. */
  datatype Handler = VeloxJS | SyncState | RestartHandler | RefreshHandler | SaveHandler | StaticFiles

  /** agent/agent_http.go router: chosen by the base name of the request path alone. */
  function Route(path: string): (h: Handler)
    ensures h == VeloxJS <==> Base(path) == "velox.js"
    ensures h == SyncState <==> Base(path) == "sync"
    ensures h == RestartHandler <==> Base(path) == "restart"
    ensures h == RefreshHandler <==> Base(path) == "refresh"
    ensures h == SaveHandler <==> Base(path) == "save"
  {
    match Base(path)
    case "velox.js" => VeloxJS
    case "sync" => SyncState
    case "restart" => RestartHandler
    case "refresh" => RefreshHandler
    case "save" => SaveHandler
    case _ => StaticFiles
  }

  /** Whatever directories precede it, the last element alone picks the handler. */
  lemma RouteByLastElement(dir: string, name: string)
    requires name != [] && NoSlash(name)
    ensures Route(dir + "/" + name) == Route(name)
  {
    BaseOfLastElement(dir, name);
  }

  /**
    serveSave's whitelist check: every submitted name must be one of the
    configured files; the first one that is not stops the check.
   */
  method Whitelisted(names: set<string>, configured: seq<string>) returns (allowed: bool)
    ensures allowed <==> forall f :: f in names ==> f in configured
  {
    var todo := names;
    while todo != {}
      invariant todo <= names
      invariant forall f :: f in names && f !in todo ==> f in configured
      decreases |todo|
    {
      var f :| f in todo;
      var found := false;
      var i := 0;
      while i < |configured|
        invariant 0 <= i <= |configured|
        invariant !found ==> forall j :: 0 <= j < i ==> configured[j] != f
        invariant found ==> f in configured
      {
        if f == configured[i] {
          found := true;
          break;
        }
        i := i + 1;
      }
      if !found {
        return false;
      }
      todo := todo - {f};
    }
    return true;
  }
}
