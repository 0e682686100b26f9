/**
  main.go of the root revision: the command-line check, and the run loop
  that launches the program, waits for it and either ends the supervisor
  with its exit code or, when the agent expected the exit, relaunches after
  the next backoff delay. The agent never sets expectExit in this revision,
  so the first exit of the first child ends the supervisor.
 */
module RootMain {

  import opened Supervision
  import opened RootConfig
  import opened RootAgent

  /** What the command line leads to. */
  datatype CliText = HelpText | VersionText
  datatype CliOutcome =
    | PrintAndExit(text: CliText, code: int)   // the text goes to stdout, then the process exits
    | LoadConfig(path: string)                 // the argument names the TOML file to load

  /** The command-line check: no argument prints the help, `-v` or `--version` the version, both with status 0. */
  function Cli(args: seq<string>): (o: CliOutcome)
    ensures o.PrintAndExit? ==> o.code == 0
    ensures o == PrintAndExit(HelpText, 0) <==> |args| < 2
    ensures o == PrintAndExit(VersionText, 0) <==> |args| >= 2 && (args[1] == "-v" || args[1] == "--version")
    ensures o.LoadConfig? <==> |args| >= 2 && args[1] != "-v" && args[1] != "--version"
    ensures o.LoadConfig? ==> o.path == args[1]
  {
    if |args| < 2 then PrintAndExit(HelpText, 0)
    else if args[1] == "-v" || args[1] == "--version" then PrintAndExit(VersionText, 0)
    else LoadConfig(args[1])
  }

  /** One launch of the program: whether Start succeeded, its pid, and what Wait reported. */
  datatype RootChild = RootChild(started: bool, pid: int, wait: WaitResult)

  /**
    The run loop over the given children. A child that fails to start is
    fatal; after Wait an unexpected exit ends the supervisor with the
    child's code, and an expected one relaunches after the next backoff
    delay, which is never reset.
   */
  method RunLoop(agent: Agent, children: seq<RootChild>) returns (end: End, codes: seq<int>, delays: seq<Delay>)
    modifies agent
    ensures |codes| == |delays| <= |children|
    ensures forall k :: 0 <= k < |codes| ==> children[k].started && codes[k] == ExitCode(children[k].wait)
    ensures forall k :: 0 <= k < |delays| ==> delays[k] == Backoff(k)
    ensures codes != [] ==> old(agent.expectExit)
    ensures end.Fatal? ==> |codes| < |children| && !children[|codes|].started && end == Fatal("program failed to start")
    ensures end.ExitedWith? ==>
              !old(agent.expectExit) && |codes| < |children| && children[|codes|].started
              && end.code == ExitCode(children[|codes|].wait)
    ensures end.StillRunning? ==> |codes| == |children|
    ensures end.Fatal? || end.ExitedWith? || end.StillRunning?
    ensures agent.expectExit == old(agent.expectExit) && agent.data == old(agent.data)
    ensures children != [] ==> agent.proc != null
  {
    codes, delays := [], [];
    var i := 0;
    while i < |children|
      invariant i == |codes| == |delays| <= |children|
      invariant forall k :: 0 <= k < |codes| ==> children[k].started && codes[k] == ExitCode(children[k].wait)
      invariant forall k :: 0 <= k < |delays| ==> delays[k] == Backoff(k)
      invariant codes != [] ==> old(agent.expectExit)
      invariant agent.expectExit == old(agent.expectExit) && agent.data == old(agent.data)
      invariant i > 0 ==> agent.proc != null
    {
      var child := children[i];
      var cmd := new Cmd();
      agent.SetProc(cmd);
      if !child.started {
        return Fatal("program failed to start"), codes, delays;
      }
      cmd.Start(child.pid);
      var code := ExitCode(child.wait);
      if !agent.expectExit {
        return ExitedWith(code), codes, delays;
      }
      delays := delays + [Backoff(i)];
      codes := codes + [code];
      i := i + 1;
    }
    end := StillRunning;
  }

  /**
    main after the configuration is loaded: a program the lookup cannot
    find is fatal; otherwise a fresh agent supervises the children. Since
    nothing sets expectExit, a started first child's exit code is the
    supervisor's own and nothing is ever relaunched.
   */
  method Supervise(c: RootSettings, now: int, lookupOk: bool, children: seq<RootChild>) returns (end: End, codes: seq<int>)
    ensures !lookupOk ==> end == Fatal("program not found in path")
    ensures codes == []
    ensures lookupOk && children == [] ==> end == StillRunning
    ensures lookupOk && children != [] && children[0].started ==> end == ExitedWith(ExitCode(children[0].wait))
    ensures lookupOk && children != [] && !children[0].started ==> end == Fatal("program failed to start")
  {
    if !lookupOk {
      return Fatal("program not found in path"), [];
    }
    var agent := new Agent(c, now);
    var delays;
    end, codes, delays := RunLoop(agent, children);
  }
}
