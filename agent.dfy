/**
  The current agent (agent/agent.go, agent/agent_proc.go and
  agent/agent_http.go): the state it publishes, the goroutines that update
  it, the process supervisor and the HTTP handlers that touch the disk.
  Channel traffic is explicit: requests and signals sent on procReqs and
  procSigs are appended to sequences, and what runProcOnce receives is a
  sequence of events.
 */
module CurrentAgent {

  import opened Supervision
  import opened AgentConfig
  import opened AgentMsg
  import opened ConfigFiles
  import opened OffsetLog
  import opened AgentRules

  /** The capacity the agent gives its log map. */
  const LogMaxSize: int := 10000

  /** The `data` record the agent publishes to the web UI. Times are abstract instants. */
  datatype Data = Data(
    config: Settings,
    changedAt: int,
    running: bool,
    manual: bool,
    pid: int,
    exitCode: int,
    files: map<string, string>,
    logOffset: int,
    logMaxSize: int,
    log: map<int, Msg>)

  /** One child that runProc launches: whether Start succeeded, its pid, when it started and exited, and what its select loop receives. */
  datatype Child = Child(started: bool, pid: int, startedAt: int, exitedAt: int, events: seq<ProcEvent>)

  /** What serveSave needs of one submitted file to write it: the file is new, or it can be read, holds other text and can be written. */
  predicate Savable(disk: Disk, f: string, contents: string)
  {
    f !in disk || (disk[f].contents.Some? && disk[f].contents.value != contents && disk[f].writable)
  }

  /** The file after ioutil.WriteFile: the new text, with the old permissions or, for a new file, writable ones. */
  function Saved(disk: Disk, f: string, contents: string): (file: File)
    ensures file.contents == Some(contents)
    ensures f in disk ==> file.writable == disk[f].writable
    ensures f !in disk ==> file.writable
  {
    if f in disk then File(Some(contents), disk[f].writable) else File(Some(contents), true)
  }

  /** The disk after the submitted files named in `done` were written. */
  function SaveAll(disk: Disk, files: map<string, string>, done: set<string>): Disk
    requires done <= files.Keys
  {
    disk + map f | f in done :: Saved(disk, f, files[f])
  }

  lemma SaveAllStep(disk: Disk, files: map<string, string>, done: set<string>, f: string)
    requires done <= files.Keys && f in files && f !in done
    ensures SaveAll(disk, files, done + {f}) == SaveAll(disk, files, done)[f := Saved(disk, f, files[f])]
  {
  }

  /**
    The error serveSave gives when a submitted file cannot be saved, and the
    file that causes it: an existing file that cannot be read, one that
    already holds the submitted text, or one that cannot be written.
   */
  predicate WriteFailure(disk: Disk, files: map<string, string>, resp: Response)
  {
    || (resp == HttpError("failed to read file", 500)
        && exists f :: f in files && f in disk && disk[f].contents.None?)
    || (resp == HttpError("no change", 400)
        && exists f :: f in files && f in disk && disk[f].contents == Some(files[f]))
    || (resp == HttpError("failed to write changes", 500)
        && exists f :: f in files && f in disk && !disk[f].writable)
  }

  /**
    serveSave's write loop, over the submitted files in map order: an
    existing file is read first and must hold other text; each file is then
    written. It succeeds exactly when every submitted file can be saved; on
    a failure the files handled before it stay written.
   */
  method WriteFiles(files: map<string, string>, fs: FileSystem) returns (err: Option<Response>)
    modifies fs
    ensures err.None? <==> forall f :: f in files ==> Savable(old(fs.disk), f, files[f])
    ensures err.None? ==> fs.disk == SaveAll(old(fs.disk), files, files.Keys)
    ensures err.Some? ==> WriteFailure(old(fs.disk), files, err.value)
    ensures err.Some? ==> exists done :: done <= files.Keys && fs.disk == SaveAll(old(fs.disk), files, done)
  {
    assert SaveAll(fs.disk, files, {}) == fs.disk;
    var todo := files.Keys;
    ghost var done: set<string> := {};
    while todo != {}
      invariant todo <= files.Keys && done == files.Keys - todo
      invariant fs.disk == SaveAll(old(fs.disk), files, done)
      invariant forall f :: f in done ==> Savable(old(fs.disk), f, files[f])
      decreases |todo|
    {
      var f :| f in todo;
      var contents := files[f];
      assert (f in fs.disk) == (f in old(fs.disk));
      assert f in fs.disk ==> fs.disk[f] == old(fs.disk)[f];
      if f in fs.disk {
        var b := ReadFile(fs.disk, f);
        if b.None? {
          return Some(HttpError("failed to read file", 500));
        }
        if b.value == contents {
          return Some(HttpError("no change", 400));
        }
        if !fs.disk[f].writable {
          return Some(HttpError("failed to write changes", 500));
        }
      }
      SaveAllStep(old(fs.disk), files, done, f);
      fs.disk := fs.disk[f := Saved(fs.disk, f, contents)];
      todo := todo - {f};
      done := done + {f};
    }
    assert done == files.Keys;
    return None;
  }

  class Agent {
    var data: Data
    var procState: int
    var procReqs: seq<string>  // sent on the procReqs channel
    var procSigs: seq<Signal>  // sent on the procSigs channel
    var pushes: nat            // velox Push notifications

    /** The initial state Run sets up before starting its goroutines. */
    constructor (c: Settings)
      ensures data == Data(c, 0, false, c.onExit == OnExitIgnore, 0, 0, map[], 0, LogMaxSize, map[])
      ensures procState == ProcChanging && !IsRunning()
      ensures procReqs == [] && procSigs == [] && pushes == 0
    {
      data := Data(c, 0, false, c.onExit == OnExitIgnore, 0, 0, map[], 0, LogMaxSize, map[]);
      procState := ProcChanging;
      procReqs := [];
      procSigs := [];
      pushes := 0;
    }

    /** running(): a child is running exactly when procState is procRunning. */
    predicate IsRunning()
      reads this
    {
      procState == ProcRunning
    }

    /**
      setRunning: publishes that a child started with pid `value` or exited
      with code `value`, at `now`; nothing else in the record changes.
     */
    method SetRunning(running: bool, value: int, now: int)
      modifies this
      ensures data == old(data).(running := running, changedAt := now,
                                 pid := if running then value else 0,
                                 exitCode := if running then 0 else value)
      ensures procState == (if running then ProcRunning else ProcExited)
      ensures IsRunning() == running
      ensures pushes == old(pushes) + 1
      ensures procReqs == old(procReqs) && procSigs == old(procSigs)
    {
      data := data.(running := running, changedAt := now);
      if running {
        procState := ProcRunning;
        data := data.(pid := value, exitCode := 0);
      } else {
        procState := ProcExited;
        data := data.(pid := 0, exitCode := value);
      }
      pushes := pushes + 1;
    }

    /** restart: a "restart" request is sent to the supervisor. */
    method Restart()
      modifies this
      ensures procReqs == old(procReqs) + ["restart"]
      ensures data == old(data) && procState == old(procState) && procSigs == old(procSigs) && pushes == old(pushes)
    {
      procReqs := procReqs + ["restart"];
    }

    /**
      readFiles: every configured path that can be read and whose text
      differs from the map's entry is written into the map; `changed` tells
      whether the map now differs from before.
     */
    method ReadFiles(fs: FileSystem) returns (changed: bool)
      modifies this
      ensures data == old(data).(files := Refreshed(old(data.files), old(data.config.configurationFiles), fs.disk))
      ensures changed <==> data.files != old(data.files)
      ensures pushes == old(pushes) + 1
      ensures procState == old(procState) && procReqs == old(procReqs) && procSigs == old(procSigs)
    {
      changed := false;
      var paths := data.config.configurationFiles;
      var i := 0;
      while i < |paths|
        invariant 0 <= i <= |paths|
        invariant data == old(data).(files := Refreshed(old(data.files), paths[..i], fs.disk))
        invariant changed <==> exists j :: 0 <= j < i && Differs(old(data.files), paths[j], fs.disk)
        invariant pushes == old(pushes) && procState == old(procState)
        invariant procReqs == old(procReqs) && procSigs == old(procSigs)
      {
        var path := paths[i];
        RefreshStep(old(data.files), paths, i, fs.disk);
        assert paths[..i + 1][..i] == paths[..i];
        var b := ReadFile(fs.disk, path);
        if b.Some? {
          var existing := Get(data.files, path);
          if b.value != existing {
            data := data.(files := data.files[path := b.value]);
            changed := true;
          }
        }
        i := i + 1;
      }
      assert paths[..i] == paths;
      RefreshChanges(old(data.files), paths, fs.disk);
      pushes := pushes + 1;
    }

    /**
      readLog: each message from the queue is stored under the current
      offset, the offset is raised by one, and once it has reached the
      maximum size the key `LogMaxSize - LogOffset` is deleted.
     */
    method ReadLog(msgs: seq<Msg>)
      modifies this
      ensures data == old(data).(log := StoreAll(old(data.log), old(data.logOffset), old(data.logMaxSize), msgs),
                                 logOffset := old(data.logOffset) + |msgs|)
      ensures pushes == old(pushes) + |msgs|
      ensures procState == old(procState) && procReqs == old(procReqs) && procSigs == old(procSigs)
    {
      var i := 0;
      while i < |msgs|
        invariant 0 <= i <= |msgs|
        invariant data == old(data).(log := StoreAll(old(data.log), old(data.logOffset), old(data.logMaxSize), msgs[..i]),
                                     logOffset := old(data.logOffset) + i)
        invariant pushes == old(pushes) + i
        invariant procState == old(procState) && procReqs == old(procReqs) && procSigs == old(procSigs)
      {
        data := data.(log := data.log[data.logOffset := msgs[i]]);
        data := data.(logOffset := data.logOffset + 1);
        if data.logOffset >= data.logMaxSize {
          data := data.(log := data.log - {data.logMaxSize - data.logOffset});
        }
        pushes := pushes + 1;
        assert msgs[..i + 1][..i] == msgs[..i];
        i := i + 1;
      }
      assert msgs[..i] == msgs;
    }

    /**
      The signal relay Run starts: with a running child the signal is sent
      on procSigs; otherwise an interrupt exits the supervisor with code 0
      and any other signal is dropped.
     */
    method RelaySignal(sig: Signal) returns (action: SignalAction)
      modifies this
      ensures action == RouteSignal(old(IsRunning()), sig)
      ensures procSigs == old(procSigs) + (if action.Forward? then [sig] else [])
      ensures data == old(data) && procState == old(procState) && procReqs == old(procReqs) && pushes == old(pushes)
    {
      action := RouteSignal(IsRunning(), sig);
      if action.Forward? {
        procSigs := procSigs + [sig];
      }
    }

    /**
      runProcOnce for one started child: it publishes the start, handles the
      events in order until it returns or exits the supervisor, and the wait
      goroutine publishes the exit before the exit is decided.
     */
    method RunProcOnce(events: seq<ProcEvent>, pid: int, startedAt: int, exitedAt: int)
      returns (phase: Phase, actions: seq<ProcAction>)
      modifies this
      ensures (phase, actions) == Run(old(data.config.onExit), Selecting(false, None), events)
      ensures IsRunning() <==> Alive(phase)
      ensures Alive(phase) ==>
                data == old(data).(running := true, changedAt := startedAt, pid := pid, exitCode := 0)
                && pushes == old(pushes) + 1
      ensures !Alive(phase) ==>
                data == old(data).(running := false, changedAt := exitedAt, pid := 0, exitCode := PhaseCode(phase))
                && pushes == old(pushes) + 2
      ensures procReqs == old(procReqs) && procSigs == old(procSigs)
    {
      var onExit := data.config.onExit;
      SetRunning(true, pid, startedAt);
      ghost var live := data;
      phase, actions := Selecting(false, None), [];
      var i := 0;
      while i < |events| && !Finished(phase)
        invariant 0 <= i <= |events|
        invariant (phase, actions) == Run(onExit, Selecting(false, None), events[..i])
        invariant IsRunning() <==> Alive(phase)
        invariant Alive(phase) ==> data == live && pushes == old(pushes) + 1
        invariant !Alive(phase) ==>
                    data == live.(running := false, changedAt := exitedAt, pid := 0, exitCode := PhaseCode(phase))
                    && pushes == old(pushes) + 2
        invariant procReqs == old(procReqs) && procSigs == old(procSigs)
      {
        var ev := events[i];
        var next := Step(onExit, phase, ev);
        StepKeepsExit(onExit, phase, ev);
        if Alive(phase) && ev.ChildExited? {
          SetRunning(false, ExitCode(ev.wait), exitedAt);
        }
        assert events[..i + 1][..i] == events[..i];
        phase, actions := next.0, actions + next.1;
        i := i + 1;
      }
      if i < |events| {
        RunStops(onExit, Selecting(false, None), events, i);
      } else {
        assert events[..i] == events;
      }
    }

    /**
      runProc: a program that cannot be found is fatal; then each child is
      run in turn. A clean exit resets the backoff and relaunches at once, a
      failure relaunches after the next backoff delay, a child that fails to
      start is fatal and an exit with OnExit "proxy" ends the supervisor with
      the child's code. The loop never ends by itself: when the given
      children run out, or the last one is still running or awaiting a
      restart, the supervisor is still running.
     */
    method RunProc(lookupOk: bool, children: seq<Child>) returns (end: End, codes: seq<int>, delays: seq<Delay>)
      modifies this
      ensures !lookupOk ==> end == Fatal("program not found in path") && codes == []
      ensures delays == Delays(codes)
      ensures |codes| <= |children|
      ensures forall k :: 0 <= k < |codes| ==>
                children[k].started && Run(old(data.config.onExit), Selecting(false, None), children[k].events).0 == Returned(codes[k])
      ensures lookupOk && end.Fatal? ==>
                |codes| < |children| && !children[|codes|].started && end == Fatal("program failed to start")
      ensures end.ExitedWith? ==>
                |codes| < |children| && children[|codes|].started
                && Run(old(data.config.onExit), Selecting(false, None), children[|codes|].events).0 == Exited(end.code)
      ensures end.StillRunning? ==>
                |codes| == |children|
                || (children[|codes|].started
                    && !Finished(Run(old(data.config.onExit), Selecting(false, None), children[|codes|].events).0))
      ensures !end.Panicked?
    {
      codes, delays := [], [];
      if !lookupOk {
        return Fatal("program not found in path"), codes, delays;
      }
      var onExit := data.config.onExit;
      var attempt := 0;
      var i := 0;
      while i < |children|
        invariant i == |codes| <= |children|
        invariant delays == Delays(codes) && attempt == Attempts(codes)
        invariant forall k :: 0 <= k < |codes| ==>
                    children[k].started && Run(onExit, Selecting(false, None), children[k].events).0 == Returned(codes[k])
        invariant data.config == old(data.config)
      {
        var child := children[i];
        if !child.started {
          return Fatal("program failed to start"), codes, delays;
        }
        var phase, _ := RunProcOnce(child.events, child.pid, child.startedAt, child.exitedAt);
        match phase {
          case Returned(code) =>
            var d: Delay;
            if code == 0 {
              attempt := 0;
              d := Immediately;
            } else {
              d := Backoff(attempt);
              attempt := attempt + 1;
            }
            assert (codes + [code])[..|codes|] == codes;
            codes, delays := codes + [code], delays + [d];
          case Exited(code) =>
            return ExitedWith(code), codes, delays;
          case _ =>
            return StillRunning, codes, delays;
        }
        i := i + 1;
      }
      end := StillRunning;
    }

    /** serveRestart: sends a "restart" request and answers 200. */
    method ServeRestart() returns (resp: Response)
      modifies this
      ensures resp == Ok200
      ensures procReqs == old(procReqs) + ["restart"]
      ensures data == old(data) && procSigs == old(procSigs) && pushes == old(pushes)
    {
      Restart();
      resp := Ok200;
    }

    /** serveRefresh: reloads the configuration files and answers 200. */
    method ServeRefresh(fs: FileSystem) returns (resp: Response)
      modifies this
      ensures resp == Ok200
      ensures data == old(data).(files := Refreshed(old(data.files), old(data.config.configurationFiles), fs.disk))
      ensures pushes == old(pushes) + 1 && procReqs == old(procReqs) && procSigs == old(procSigs)
    {
      var _ := ReadFiles(fs);
      resp := Ok200;
    }

    /**
      serveSave with the decoded request body (None when it is not a JSON
      object of strings). It answers 200 exactly when the body decoded, names
      at least one file, names only configured files and every named file can
      be saved; the files are then written and readFiles runs. Each check
      that fails gives its own error and leaves the published record as it
      was.
     */
    method ServeSave(body: Option<map<string, string>>, fs: FileSystem) returns (resp: Response)
      modifies this, fs
      ensures body.None? ==> resp == HttpError("json error", 400) && fs.disk == old(fs.disk)
      ensures body == Some(map[]) ==> resp == HttpError("no files", 400) && fs.disk == old(fs.disk)
      ensures body.Some? && body.value != map[]
              && !(forall f :: f in body.value ==> f in old(data.config.configurationFiles)) ==>
                resp == HttpError("invalid file", 400) && fs.disk == old(fs.disk)
      ensures resp.status == 200 <==>
                body.Some? && body.value != map[]
                && (forall f :: f in body.value ==> f in old(data.config.configurationFiles))
                && (forall f :: f in body.value ==> Savable(old(fs.disk), f, body.value[f]))
      ensures resp.status == 200 ==>
                resp == Ok200
                && fs.disk == SaveAll(old(fs.disk), body.value, body.value.Keys)
                && data == old(data).(files := Refreshed(old(data.files), old(data.config.configurationFiles), fs.disk))
                && pushes == old(pushes) + 1
      ensures resp.status != 200 ==> data == old(data) && pushes == old(pushes)
      ensures resp.status != 200 && body.Some? && body.value != map[]
              && (forall f :: f in body.value ==> f in old(data.config.configurationFiles)) ==>
                WriteFailure(old(fs.disk), body.value, resp)
                && exists done :: done <= body.value.Keys && fs.disk == SaveAll(old(fs.disk), body.value, done)
      ensures procState == old(procState) && procReqs == old(procReqs) && procSigs == old(procSigs)
    {
      if body.None? {
        return HttpError("json error", 400);
      }
      var files := body.value;
      if |files| == 0 {
        assert files == map[];
        return HttpError("no files", 400);
      }
      assert files != map[];
      var allowed := Whitelisted(files.Keys, data.config.configurationFiles);
      if !allowed {
        return HttpError("invalid file", 400);
      }
      var err := WriteFiles(files, fs);
      if err.Some? {
        return err.value;
      }
      var _ := ReadFiles(fs);
      resp := Ok200;
    }
  }
}
