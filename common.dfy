/**
  Types shared by the three revisions of the supervisor: optional values,
  results, operating-system signals, what waiting on a child reports, the
  signal-relay rule, the backoff delay and the abstract disk.
 */
module Supervision {

  datatype Option<T> = None | Some(value: T)

  datatype Result<T> = Ok(value: T) | Err(msg: string)

  /** An operating-system signal. The supervisor tells only os.Interrupt and os.Kill apart. */
  datatype Signal = Interrupt | Kill | Other(name: string)

  /** What exec.Cmd.Wait reports about a child. */
  datatype WaitResult =
    | Clean                          // a nil error
    | ExitError(status: Option<int>) // an *exec.ExitError; Some(s) when its Sys() is a syscall.WaitStatus with ExitStatus() == s
    | OtherError                     // any other error

  /**
    The exit-code translation that every revision performs after Wait:
    0 for a clean wait, the WaitStatus' ExitStatus() when there is one
    (it is -1 for a child killed by a signal, so the code is not always
    non-negative), and 1 when nothing better is known.
   */
  function ExitCode(w: WaitResult): (code: int)
    ensures w.Clean? ==> code == 0
    ensures w.ExitError? && w.status.Some? ==> code == w.status.value
    ensures w.OtherError? || w == ExitError(None) ==> code == 1
    ensures code == 0 <==> w.Clean? || w == ExitError(Some(0))
  {
    match w
    case Clean => 0
    case ExitError(status) => if status.Some? then status.value else 1
    case OtherError => 1
  }

  /** A failed wait whose status is unknown is never reported as a success. */
  lemma UnknownFailureIsNonZero(w: WaitResult)
    requires !w.Clean? && !(w.ExitError? && w.status.Some?)
    ensures ExitCode(w) != 0
  {
  }

  /** What the signal relay does with one signal. */
  datatype SignalAction =
    | Forward(sig: Signal)         // hand it to the child
    | ExitSupervisor(code: int)    // os.Exit(code)
    | Drop(sig: Signal)            // logged as ignored

  /**
    The signal-relay rule shared by all revisions: while there is a child the
    signal goes to it; with no child an interrupt ends the supervisor with
    code 0 and anything else is dropped.
   */
  function RouteSignal(hasChild: bool, sig: Signal): (a: SignalAction)
    ensures a.Forward? <==> hasChild
    ensures a.ExitSupervisor? <==> !hasChild && sig == Interrupt
    ensures a.Drop? <==> !hasChild && sig != Interrupt
    ensures a.Forward? ==> a.sig == sig
    ensures a.Drop? ==> a.sig == sig
    ensures a.ExitSupervisor? ==> a.code == 0
  {
    if hasChild then Forward(sig)
    else if sig == Interrupt then ExitSupervisor(0)
    else Drop(sig)
  }

  /**
    The delay taken before a relaunch. The jpillora/backoff value is an
    attempt counter: Backoff(n) is the (n+1)-th duration it hands out since it
    was created or last reset; the durations themselves are not modelled.
   */
  datatype Delay = Immediately | Backoff(attempt: nat)

  /** How a supervisor run ends, or that it is still going when the modelled history runs out. */
  datatype End =
    | Fatal(reason: string)    // log.Fatalf before or at a spawn
    | ExitedWith(code: int)    // os.Exit(code)
    | Panicked(reason: string) // panic(...)
    | StillRunning             // the loop goes on

  /** A file on disk: its contents when it can be read, and whether it can be written. */
  datatype File = File(contents: Option<string>, writable: bool)

  /** The disk as the supervisor sees it: a path that is absent does not exist. */
  type Disk = map<string, File>

  /** ioutil.ReadFile: succeeds exactly for an existing, readable path. */
  function ReadFile(disk: Disk, path: string): (r: Option<string>)
    ensures r.Some? <==> path in disk && disk[path].contents.Some?
    ensures r.Some? ==> r.value == disk[path].contents.value
  {
    if path in disk then disk[path].contents else None
  }

  /** The disk, shared by whoever reads or writes files. */
  class FileSystem {
    var disk: Disk

    constructor (disk: Disk)
      ensures this.disk == disk
    {
      this.disk := disk;
    }
  }

  /** An exec.Cmd: its Process once Start has succeeded, and the signals sent to it. */
  class Cmd {
    var process: Option<int>
    var signals: seq<Option<Signal>>  // None is a nil os.Signal

    /** exec.Command: not started yet. */
    constructor ()
      ensures process == None && signals == []
    {
      process := None;
      signals := [];
    }

    /** A successful Start: the Process exists with the given pid. */
    method Start(pid: int)
      modifies this
      ensures process == Some(pid) && signals == old(signals)
    {
      process := Some(pid);
    }
  }

  /**
    The `quoted` helper (agent/config.go, and the same function in main.go):
    with at least two bytes the first and the last are dropped, whatever they
    are; a shorter input comes back as it is.
   */
  function Quoted(data: string): (r: string)
    ensures |data| >= 2 ==> |r| == |data| - 2 && data == [data[0]] + r + [data[|data| - 1]]
    ensures |data| < 2 ==> r == data
  {
    if |data| >= 2 then data[1..|data| - 1] else data
  }

  /** Wrapping any text in any two delimiters and unquoting gives the text back; the delimiters are never checked. */
  lemma QuotedStripsAnyDelimiters(open: char, s: string, close: char)
    ensures Quoted([open] + s + [close]) == s
  {
    var data := [open] + s + [close];
    assert data[1..|data| - 1] == s;
  }

  /** `s` holds no '/'. */
  predicate NoSlash(s: string)
  {
    forall i :: 0 <= i < |s| ==> s[i] != '/'
  }

  /** `p` without its trailing slashes. */
  function TrimSlashes(p: string): (r: string)
    ensures |r| <= |p| && r == p[..|r|]
    ensures r == [] || r[|r| - 1] != '/'
    ensures forall i :: |r| <= i < |p| ==> p[i] == '/'
  {
    if p != [] && p[|p| - 1] == '/' then TrimSlashes(p[..|p| - 1]) else p
  }

  /** What follows the last '/' of `p` (all of `p` when it has none). */
  function AfterLastSlash(p: string): (r: string)
    ensures NoSlash(r)
  {
    if p == [] then []
    else if p[|p| - 1] == '/' then []
    else AfterLastSlash(p[..|p| - 1]) + [p[|p| - 1]]
  }

  /**
    filepath.Base on a slash-separated path: "." for the empty path, "/" for
    a path of slashes only, and otherwise the last element once trailing
    slashes are dropped.
   */
  function Base(path: string): (b: string)
    ensures path == [] ==> b == "."
    ensures b != []
    ensures b == "/" || NoSlash(b)
  {
    if path == [] then "."
    else
      var e := AfterLastSlash(TrimSlashes(path));
      if e == [] then "/" else e
  }

  /** Only the last element of a path decides its base, whatever directories precede it. */
  lemma {:induction false} BaseOfLastElement(dir: string, name: string)
    requires name != [] && NoSlash(name)
    ensures Base(dir + "/" + name) == name
    ensures Base(name) == name
  {
    var p := dir + "/" + name;
    assert TrimSlashes(p) == p;
    assert TrimSlashes(name) == name;
    AfterLastSlashOf(dir + "/", name);
    AfterLastSlashOf([], name);
    assert [] + name == name;
  }

  lemma {:induction false} AfterLastSlashOf(front: string, name: string)
    requires front == [] || front[|front| - 1] == '/'
    requires NoSlash(name)
    ensures AfterLastSlash(front + name) == name
    decreases |name|
  {
    var p := front + name;
    if name == [] {
      assert p == front;
    } else {
      var n := |name|;
      assert p[|p| - 1] == name[n - 1] != '/';
      assert p[..|p| - 1] == front + name[..n - 1];
      AfterLastSlashOf(front, name[..n - 1]);
      assert name == name[..n - 1] + [name[n - 1]];
    }
  }

  /** Trailing slashes do not change the base of a non-empty path. */
  lemma BaseIgnoresTrailingSlash(p: string)
    requires p != []
    ensures Base(p + "/") == Base(p)
  {
    assert (p + "/")[..|p|] == p;
  }

  /** An HTTP answer: its status code and body text. */
  datatype Response = Response(status: int, body: string)

  /** http.Error: the status and the message followed by a newline. */
  function HttpError(msg: string, status: int): (r: Response)
    ensures r.status == status && r.body == msg + "\n"
  {
    Response(status, msg + "\n")
  }

  /** The answer of a handler that only calls WriteHeader(200) (or returns without writing). */
  const Ok200: Response := Response(200, "")

  /** Reading a Go map: a missing key reads as the zero value "". */
  function Get(m: map<string, string>, k: string): string
  {
    if k in m then m[k] else ""
  }
}
