/**
  The `wp` revision of the agent (wp/agent.go): the published record, the
  child command (a Cmd) it shares with the relaunch loop, setProc and checkProc,
  the configure handler, and the readFiles and readLog goroutines.
 */
module WpAgent {

  import opened Supervision
  import opened AgentConfig
  import opened AgentMsg
  import opened ConfigFiles
  import opened OffsetLog
  import opened AgentRules

  /** The record the agent publishes. Uptime is None for Go's zero time. */
  datatype WpData = WpData(
    config: Settings,
    uptime: Option<int>,
    running: bool,
    manual: bool,
    pid: int,
    files: map<string, string>,
    logOffset: int,
    logMaxSize: int,
    log: map<int, Msg>)

  /** The decoded body of a configure request. */
  datatype ConfigureBody = ConfigureBody(file: string, contents: string)

  /** os.OpenFile with O_RDWR and no O_CREATE: only an existing file that can be read and written opens. */
  predicate Openable(disk: Disk, f: string)
  {
    f in disk && disk[f].contents.Some? && disk[f].writable
  }

  /** A configure request that passes every check and writes its file. */
  predicate Accepted(disk: Disk, configured: seq<string>, body: Option<ConfigureBody>)
  {
    && body.Some?
    && body.value.file in configured
    && Openable(disk, body.value.file)
    && disk[body.value.file].contents.value != body.value.contents
  }

  class Agent {
    const hasManualChan: bool   // the manualRestart channel was made
    var manualSends: nat        // values sent on manualRestart
    var proc: Cmd?
    var expectExit: bool
    var data: WpData
    var pushes: nat             // velox Push notifications

    /** The published Running flag shows whether a child command is installed. */
    predicate Valid()
      reads this
    {
      data.running == (proc != null)
    }

    /** NewAgent: the manualRestart channel exists exactly for OnExit "ignore", and Manual mirrors it. */
    constructor (c: Settings)
      ensures hasManualChan == (c.onExit == OnExitIgnore)
      ensures data == WpData(c, None, false, hasManualChan, 0, map[], 0, 10000, map[])
      ensures proc == null && !expectExit && manualSends == 0 && pushes == 0
      ensures Valid()
    {
      hasManualChan := c.onExit == OnExitIgnore;
      manualSends := 0;
      proc := null;
      expectExit := false;
      data := WpData(c, None, false, c.onExit == OnExitIgnore, 0, map[], 0, 10000, map[]);
      pushes := 0;
    }

    /**
      checkProc: Running shows whether a command is installed; with a
      started Process the pid is published and the uptime is set only if it
      is still zero, otherwise pid and uptime are zeroed.
     */
    method CheckProc(now: int)
      modifies this
      ensures Valid()
      ensures proc != null && proc.process.Some? ==>
                data == old(data).(running := true, pid := proc.process.value,
                                   uptime := if old(data.uptime).None? then Some(now) else old(data.uptime))
      ensures !(proc != null && proc.process.Some?) ==>
                data == old(data).(running := proc != null, pid := 0, uptime := None)
      ensures proc == old(proc) && expectExit == old(expectExit) && manualSends == old(manualSends)
      ensures pushes == old(pushes) + 1
    {
      data := data.(running := proc != null);
      if proc != null && proc.process.Some? {
        data := data.(pid := proc.process.value);
        if data.uptime.None? {
          data := data.(uptime := Some(now));
        }
      } else {
        data := data.(pid := 0, uptime := None);
      }
      pushes := pushes + 1;
    }

    /**
      setProc: installing a command clears expectExit; clearing it (a nil
      command) leaves expectExit as it was. checkProc then publishes.
     */
    method SetProc(p: Cmd?, now: int)
      modifies this
      ensures proc == p && Valid()
      ensures expectExit == (if p != null then false else old(expectExit))
      ensures p != null && p.process.Some? ==>
                data == old(data).(running := true, pid := p.process.value,
                                   uptime := if old(data.uptime).None? then Some(now) else old(data.uptime))
      ensures !(p != null && p.process.Some?) ==>
                data == old(data).(running := p != null, pid := 0, uptime := None)
      ensures manualSends == old(manualSends) && pushes == old(pushes) + 1
    {
      if p != null {
        expectExit := false;
        proc := p;
      } else {
        proc := null;
      }
      CheckProc(now);
    }

    /**
      readFiles: every configured path that can be read overwrites its entry;
      the others keep theirs.
     */
    method ReadFiles(fs: FileSystem)
      modifies this
      ensures data == old(data).(files := Loaded(old(data.files), old(data.config.configurationFiles), fs.disk))
      ensures pushes == old(pushes) + 1
      ensures proc == old(proc) && expectExit == old(expectExit) && manualSends == old(manualSends)
    {
      var paths := data.config.configurationFiles;
      var i := 0;
      while i < |paths|
        invariant 0 <= i <= |paths|
        invariant data == old(data).(files := Loaded(old(data.files), paths[..i], fs.disk))
        invariant pushes == old(pushes) && proc == old(proc) && expectExit == old(expectExit)
        invariant manualSends == old(manualSends)
      {
        assert paths[..i + 1][..i] == paths[..i];
        var b := ReadFile(fs.disk, paths[i]);
        if b.Some? {
          data := data.(files := data.files[paths[i] := b.value]);
        }
        i := i + 1;
      }
      assert paths[..i] == paths;
      pushes := pushes + 1;
    }

    /** readLog, as in every revision: store at the offset, raise it, delete key `LogMaxSize - LogOffset` once it has reached the maximum. */
    method ReadLog(msgs: seq<Msg>)
      modifies this
      ensures data == old(data).(log := StoreAll(old(data.log), old(data.logOffset), old(data.logMaxSize), msgs),
                                 logOffset := old(data.logOffset) + |msgs|)
      ensures pushes == old(pushes) + |msgs|
      ensures proc == old(proc) && expectExit == old(expectExit) && manualSends == old(manualSends)
    {
      var i := 0;
      while i < |msgs|
        invariant 0 <= i <= |msgs|
        invariant data == old(data).(log := StoreAll(old(data.log), old(data.logOffset), old(data.logMaxSize), msgs[..i]),
                                     logOffset := old(data.logOffset) + i)
        invariant pushes == old(pushes) + i
        invariant proc == old(proc) && expectExit == old(expectExit) && manualSends == old(manualSends)
      {
        data := data.(log := data.log[data.logOffset := msgs[i]]);
        data := data.(logOffset := data.logOffset + 1);
        if data.logOffset >= data.logMaxSize {
          data := data.(log := data.log - {data.logMaxSize - data.logOffset});
        }
        pushes := pushes + 1;
        assert msgs[..i + 1][..i] == msgs[..i];
        i := i + 1;
      }
      assert msgs[..i] == msgs;
    }

    /**
      configure with the decoded body (None when it is not valid JSON). A
      request that names a configured file that opens and holds other text
      is written and the files are reloaded; with no child running the
      manualRestart channel (if any) is signalled and 200 returned; with a
      child running expectExit is set and the restart signal is sent, and a
      failed signal gives 500. None is the handler's nil-pointer panic when
      the installed command has not started yet. Every other request is
      answered with its error and changes nothing.
     */
    method Configure(body: Option<ConfigureBody>, fs: FileSystem, signalFails: bool) returns (resp: Option<Response>)
      requires Valid()
      modifies this, fs, proc
      ensures Valid() && proc == old(proc)
      ensures body.None? ==> resp == Some(HttpError("configure json error", 400))
      ensures body.Some? && body.value.file !in old(data.config.configurationFiles) ==> resp == Some(HttpError("invalid file", 400))
      ensures body.Some? && body.value.file in old(data.config.configurationFiles) && !Openable(old(fs.disk), body.value.file) ==>
                resp == Some(HttpError("failed to open file", 500))
      ensures body.Some? && body.value.file in old(data.config.configurationFiles) && Openable(old(fs.disk), body.value.file)
              && old(fs.disk)[body.value.file].contents.value == body.value.contents ==>
                resp == Some(HttpError("no change", 400))
      ensures !Accepted(old(fs.disk), old(data.config.configurationFiles), body) ==>
                fs.disk == old(fs.disk) && data == old(data) && expectExit == old(expectExit)
                && manualSends == old(manualSends) && pushes == old(pushes)
      ensures Accepted(old(fs.disk), old(data.config.configurationFiles), body) ==>
                fs.disk == old(fs.disk)[body.value.file := File(Some(body.value.contents), true)]
                && data == old(data).(files := Loaded(old(data.files), old(data.config.configurationFiles), fs.disk))
                && pushes == old(pushes) + 1
      ensures Accepted(old(fs.disk), old(data.config.configurationFiles), body) && !old(data.running) ==>
                resp == Some(Ok200) && expectExit == old(expectExit)
                && manualSends == old(manualSends) + (if hasManualChan then 1 else 0)
      ensures Accepted(old(fs.disk), old(data.config.configurationFiles), body) && old(data.running) ==>
                expectExit && manualSends == old(manualSends)
                && resp == (if proc.process.None? then None
                            else if signalFails then Some(HttpError("failed to signal process", 500))
                            else Some(Ok200))
                && proc.signals == old(proc.signals) + (if proc.process.Some? && !signalFails then [old(data.config.goRestartSignal)] else [])
      ensures fs.disk.Keys == old(fs.disk.Keys)
      ensures proc != null ==> proc.process == old(proc.process)
      ensures proc != null && !Accepted(old(fs.disk), old(data.config.configurationFiles), body) ==> proc.signals == old(proc.signals)
    {
      if body.None? {
        return Some(HttpError("configure json error", 400));
      }
      var req := body.value;
      var allowed := Whitelisted({req.file}, data.config.configurationFiles);
      if !allowed {
        assert req.file in {req.file};
        return Some(HttpError("invalid file", 400));
      }
      var onDisk := req.file in fs.disk;   // os.Stat
      if !Openable(fs.disk, req.file) {
        return Some(HttpError("failed to open file", 500));
      }
      if onDisk {
        var b := fs.disk[req.file].contents.value;
        if b == req.contents {
          return Some(HttpError("no change", 400));
        }
      }
      fs.disk := fs.disk[req.file := File(Some(req.contents), fs.disk[req.file].writable)];
      ReadFiles(fs);
      if !data.running {
        if hasManualChan {
          manualSends := manualSends + 1;
        }
        return Some(Ok200);
      }
      expectExit := true;
      if proc.process.None? {
        return None;
      }
      if signalFails {
        return Some(HttpError("failed to signal process", 500));
      }
      proc.signals := proc.signals + [data.config.goRestartSignal];
      resp := Some(Ok200);
    }
  }

  /** The handlers of the wp router. */
  datatype WpHandler = WpVeloxJS | WpSync | WpConfigure | WpStatic

  /** wp/agent.go router: chosen by the base name of the request path alone. */
  function WpRoute(path: string): (h: WpHandler)
    ensures h == WpVeloxJS <==> Base(path) == "velox.js"
    ensures h == WpSync <==> Base(path) == "sync"
    ensures h == WpConfigure <==> Base(path) == "configure"
  {
    match Base(path)
    case "velox.js" => WpVeloxJS
    case "sync" => WpSync
    case "configure" => WpConfigure
    case _ => WpStatic
  }
}
