/**
  The root revision's agent (agent.go): the log writer attached to the
  child's pipes, the published record, setProc, the configure stub, and the
  readFiles and readLog goroutines. Its router is the same base-name switch
  as the `wp` router (WpAgent.WpRoute).
 */
module RootAgent {

  import opened Supervision
  import opened AgentMsg
  import opened ConfigFiles
  import opened OffsetLog
  import opened RootConfig

  /** The size of the log window. */
  const MaxLogSize: int := 10000

  /** The record the agent publishes; Uptime is the clock reading when the agent was made. */
  datatype RootData = RootData(
    config: RootSettings,
    uptime: int,
    files: map<string, string>,
    logSize: int,
    log: map<int, Msg>)

  /** A writer that sends each non-empty write whole, tagged with its pipe. */
  class LogQueuer {
    const pipe: string
    const queue: MsgChan

    constructor (pipe: string, queue: MsgChan)
      ensures this.pipe == pipe && this.queue == queue
    {
      this.pipe := pipe;
      this.queue := queue;
    }

    /**
      logQueuer.Write: a non-empty write becomes exactly one message holding
      all of it, an empty one sends nothing; the whole length is reported
      and there is never an error.
     */
    method Write(p: string) returns (n: int, err: Option<string>)
      modifies queue
      ensures n == |p| && err == None
      ensures |queue.sent| == |old(queue.sent)| + (if p == [] then 0 else 1)
      ensures queue.sent[..|old(queue.sent)|] == old(queue.sent)
      ensures Concat(Buffs(queue.sent[|old(queue.sent)|..])) == p
      ensures forall i :: |old(queue.sent)| <= i < |queue.sent| ==> queue.sent[i].pipe == pipe
    {
      n := |p|;
      err := None;
      ghost var before := queue.sent;
      if n > 0 {
        queue.sent := queue.sent + [Msg(pipe, p)];
        assert queue.sent[|before|..] == [Msg(pipe, p)];
        assert Buffs([Msg(pipe, p)]) == [p];
        assert Concat([p]) == p + Concat([]);
      } else {
        assert queue.sent[|before|..] == [];
      }
    }
  }

  class Agent {
    var proc: Cmd?
    var expectExit: bool   // declared, and never set by this revision
    var data: RootData
    var pushes: nat        // velox Push notifications

    /** newAgent: the configuration, the uptime, an empty file map and an empty log. */
    constructor (c: RootSettings, now: int)
      ensures data == RootData(c, now, map[], 0, map[])
      ensures proc == null && !expectExit && pushes == 0
    {
      proc := null;
      expectExit := false;
      data := RootData(c, now, map[], 0, map[]);
      pushes := 0;
    }

    /** setProc: the command is installed; nothing is published. */
    method SetProc(p: Cmd)
      modifies this
      ensures proc == p
      ensures data == old(data) && expectExit == old(expectExit) && pushes == old(pushes)
    {
      proc := p;
    }

    /** configure: not implemented in this revision; always 506 and nothing changes. */
    method Configure() returns (resp: Response)
      ensures resp.status == 506 && resp.body == "not implemented\n"
    {
      resp := HttpError("not implemented", 506);
    }

    /** readFiles: every configured path that can be read overwrites its entry; the others keep theirs. */
    method ReadFiles(fs: FileSystem)
      modifies this
      ensures data == old(data).(files := Loaded(old(data.files), old(data.config.configurationFiles), fs.disk))
      ensures pushes == old(pushes) + 1
      ensures proc == old(proc) && expectExit == old(expectExit)
    {
      var paths := data.config.configurationFiles;
      var i := 0;
      while i < |paths|
        invariant 0 <= i <= |paths|
        invariant data == old(data).(files := Loaded(old(data.files), paths[..i], fs.disk))
        invariant pushes == old(pushes) && proc == old(proc) && expectExit == old(expectExit)
      {
        assert paths[..i + 1][..i] == paths[..i];
        var b := ReadFile(fs.disk, paths[i]);
        if b.Some? {
          data := data.(files := data.files[paths[i] := b.value]);
        }
        i := i + 1;
      }
      assert paths[..i] == paths;
      pushes := pushes + 1;
    }

    /** readLog: store at LogSize, raise it, delete key `MaxLogSize - LogSize` once it has reached the maximum. */
    method ReadLog(msgs: seq<Msg>)
      modifies this
      ensures data == old(data).(log := StoreAll(old(data.log), old(data.logSize), MaxLogSize, msgs),
                                 logSize := old(data.logSize) + |msgs|)
      ensures pushes == old(pushes) + |msgs|
      ensures proc == old(proc) && expectExit == old(expectExit)
    {
      var i := 0;
      while i < |msgs|
        invariant 0 <= i <= |msgs|
        invariant data == old(data).(log := StoreAll(old(data.log), old(data.logSize), MaxLogSize, msgs[..i]),
                                     logSize := old(data.logSize) + i)
        invariant pushes == old(pushes) + i
        invariant proc == old(proc) && expectExit == old(expectExit)
      {
        data := data.(log := data.log[data.logSize := msgs[i]]);
        data := data.(logSize := data.logSize + 1);
        if data.logSize >= MaxLogSize {
          data := data.(log := data.log - {MaxLogSize - data.logSize});
        }
        pushes := pushes + 1;
        assert msgs[..i + 1][..i] == msgs[..i];
        i := i + 1;
      }
      assert msgs[..i] == msgs;
    }
  }
}
