# webproc supervision core in Dafny

webproc runs one program as a child process. It relays signals to it,
decides what to do when it exits (relaunch, exit with its code, or wait for
a manual restart), keeps a window of its output lines for a web UI, and
lets that UI edit the program's configuration files. The repository holds
three revisions of this supervisor, and each has its own modules here:

| revision | source files | modules |
|---|---|---|
| current `agent` package | agent/agent.go, agent/agent_proc.go, agent/agent_http.go, agent/config.go, agent/msg.go | `CurrentAgent`, `AgentRules`, `AgentConfig`, `AgentMsg` |
| older loop in the same package | agent/proc.go | `StaleProc` |
| `wp` package | wp/agent.go, wp/proc.go | `WpAgent`, `WpProc` |
| root `main` package | agent.go, main.go | `RootAgent`, `RootConfig`, `RootMain` |

Several modules share definitions:
- `Supervision` holds the exit-code translation, the signal rule, the disk, `exec.Cmd`, `quoted`, `filepath.Base` and `http.Error`.
- `OffsetLog` holds the offset-keyed log map that every revision's `readLog` maintains.
- `ConfigFiles` holds the two ways `readFiles` merges files from disk: by change in the current agent, by overwrite in the older ones.

How the model represents the program:
- State that the source updates in place is a class field, and its loops are `while` loops with invariants.
- What a goroutine receives on a channel is a sequence of events.
- What is sent on a channel is appended to a sequence field.
- The web UI's velox `Push` is counted in a `pushes` field.
- The backoff is an attempt counter: `Delay` is `Immediately` or `Backoff(attempt)`.
- Clock readings (`now`, `startedAt`, `exitedAt`), the program lookup and `Start`'s success are parameters.
- `stripAnsi` and `time.ParseDuration` are parameters too.
- The disk maps each path to its text (`None` when it cannot be read) and whether it can be written.
- Go strings and byte slices are `string`; one char stands for one byte.

The current agent's `runProcOnce` select loop has its own specification. It is a pure fold of `AgentRules.Step` over the events the loop receives (`AgentRules.Run`). The method `CurrentAgent.Agent.RunProcOnce` is proved to compute that fold, and the lemmas in `AgentRules` state what the fold does.

Three behaviours of the code that the model keeps as written:
- `ExitStatus()` is passed through as it is, so an exit code may be negative (for example -1 for a child killed by a signal).
- The log map is not bounded by its maximum size; see "## Findings".
- Only the current agent resets the backoff after a clean exit. `agent/proc.go`, `wp/proc.go` and `main.go` never reset it.

## Model

| member | source | states |
|---|---|---|
| Supervision.ExitCode | agent/agent_proc.go:82-90 | a nil wait error gives 0; an ExitError with a status gives that status, whatever its sign; any other error gives 1. The code is 0 exactly for a clean exit or status 0. The same translation is at agent/proc.go:119-127, wp/proc.go:64-72 and main.go:121-129 |
| Supervision.UnknownFailureIsNonZero | agent/agent_proc.go:83-84 | a failure that carries no exit status never reads as success |
| Supervision.RouteSignal | agent/agent.go:115-125 | with a child, the signal is forwarded unchanged; without one, Interrupt exits the supervisor with 0 and every other signal is dropped. One iff per outcome |
| Supervision.Quoted | agent/config.go:124-129 | with two or more chars, the first and last are dropped whatever they are; shorter input comes back unchanged (main.go:164-169 is the same) |
| Supervision.QuotedStripsAnyDelimiters | agent/config.go:125-126 | any text wrapped in any two delimiters is recovered exactly |
| Supervision.Base | agent/agent_http.go:20 | filepath.Base: "." for the empty path; never empty; either "/" or free of slashes |
| Supervision.BaseOfLastElement | agent/agent_http.go:20 | the base of `dir/name` is `name`, whatever `dir` is |
| Supervision.BaseIgnoresTrailingSlash | agent/agent_http.go:20 | a trailing slash does not change the base |
| Supervision.HttpError | agent/agent_http.go:50 | http.Error: the given status, with the message and a newline as body |
| Supervision.ReadFile | agent/agent.go:160 | ioutil.ReadFile succeeds exactly on an existing readable path, and returns its text |
| Supervision.Cmd.Start | wp/proc.go:57 | a started command has a Process with the given pid; signals already sent are kept (main.go:115 starts the command the same way) |
| AgentMsg.Split | agent/msg.go:20 | bytes.Split on newline: one more piece than there are newlines, no piece holds a newline, and joining the pieces with newlines gives the input back |
| AgentMsg.LinesConcat | agent/msg.go:19-31 | concatenating the lines one Write produces gives the stripped input back |
| AgentMsg.LinesShape | agent/msg.go:22-28 | no line is empty; a newline occurs in a line only as its last char; every line but the last ends in a newline |
| AgentMsg.LinesCount | agent/msg.go:17-31 | the number of lines is the number of newlines, plus one when the input does not end in a newline; empty input gives no lines |
| AgentMsg.WrittenMessages | agent/msg.go:19-31 | the texts of the messages of one Write put together are exactly the stripped input, and every message carries the writer's pipe |
| AgentMsg.SendsAll | agent/msg.go:21-30 | after its last piece, the loop over the split pieces has sent exactly the tagged lines of the input |
| AgentMsg.MsgQueuer.Write | agent/msg.go:15-33 | returns the stripped length and no error; the channel receives exactly the tagged lines of the stripped input, after what it already held |
| AgentConfig.RestartSignalFor | agent/config.go:87-92 | Kill exactly for "SIGKILL", Interrupt for any other name |
| AgentConfig.Defaulted | agent/config.go:67-92 | empty Host becomes 0.0.0.0, Port 0 becomes 8080, an unknown Log becomes both, an unknown OnExit becomes proxy, RestartTimeout 0 becomes 30 s; the restart signal is derived from its name; every other value is kept |
| AgentConfig.DefaultedIsValid | agent/config.go:63-94 | with program arguments present, the defaults give a configuration with every field usable |
| AgentConfig.ValidIsKept | agent/config.go:63-94 | a configuration that is already usable is left exactly as it is |
| AgentConfig.DefaultedIdempotent | agent/config.go:63-94 | validating twice is the same as validating once |
| AgentConfig.Config.Validate | agent/config.go:63-94 | empty ProgramArgs gives the error and changes nothing; otherwise no error, and the record becomes its defaulted form |
| AgentConfig.Config.UnmarshalOnExit | agent/config.go:98-101 | OnExit becomes the unquoted text, unchecked; never an error |
| AgentConfig.Config.SetOnExit | agent/config.go:103-110 | after Set(s), String() gives s back; nothing else changes |
| AgentConfig.Config.UnmarshalLog | agent/config.go:112-115 | Log becomes the unquoted text, unchecked; never an error |
| AgentConfig.Config.UnmarshalRestartTimeout | agent/config.go:117-122 | the parsed duration of the unquoted text is stored; on a parse error, 0 is stored and the error is returned |
| ConfigFiles.RefreshedEntries | agent/agent.go:157-178 | after the current readFiles, every configured readable path shows its text on disk and every other path shows what it showed before. A key is present exactly when it was before, or when a configured readable path brought a text other than "" (a readable empty file with no entry is not inserted) |
| ConfigFiles.RefreshChanges | agent/agent.go:164-173 | the map changes exactly when some configured path can be read and its text differs from what the map showed |
| ConfigFiles.RefreshStep | agent/agent.go:166-170 | a path writes only if its text differs from the original map; one that differs but does not write was already written by an earlier path |
| ConfigFiles.LoadedEntries | wp/agent.go:223-235 | after the older readFiles, every configured readable path holds its text on disk, unreadable paths keep their entries, and no other key is added |
| ConfigFiles.RefreshedShowsLoaded | agent/agent.go:166-171 | read through a missing-key-as-"" lookup, the change-only merge and the overwrite merge show the same map |
| OffsetLog.StoreEvictsNoPositiveKey | agent/agent.go:185-187 | the key a store deletes is never positive, so a positive key other than the one written is kept |
| OffsetLog.StoreAllKeepsPositiveKeys | agent/agent.go:180-191 | after any number of stores, positive keys below the start offset keep their messages and every positive key written holds the message stored there |
| OffsetLog.StoreAllKeysFromEmpty | agent/agent.go:183-187 | from the empty log at offset 0, the keys are exactly 0 to n-1, except key 0 once n has reached the maximum |
| OffsetLog.AsWrittenExceedsMax | agent/agent.go:186 | as written, max + 2 messages from empty leave more than max entries |
| OffsetLog.StoreAllWindowIsWindow | agent/agent.go:185-187 | with the corrected key, the live keys are exactly the offsets written, until max messages have been written, and then the latest max - 1; each holds its message, so the log stays below max entries |
| OffsetLog.WindowKeys | agent/agent.go:185-187 | with the corrected key, a key is live exactly when it is an offset already written and greater than n - max |
| OffsetLog.WindowValues | agent/agent.go:183-184 | with the corrected key, every live key holds the message written at that offset |
| AgentRules.ExitDecision | agent/agent_proc.go:135-161 | a requested manual restart returns the code whatever OnExit is; otherwise restart returns it, proxy exits with it, ignore awaits a restart request, and an unknown OnExit stays in the select loop. One iff each; the phase always carries the code |
| AgentRules.FinishedStays | agent/agent_proc.go:138-148 | once runProcOnce has returned or the supervisor has exited, later events change nothing and do nothing |
| AgentRules.RunStops | agent/agent_proc.go:99-163 | handling events stops at the first return or exit: the rest of the trace has no effect |
| AgentRules.StepKeepsExit | agent/agent_proc.go:99-148 | the child stays alive until its exit is reported; the report leads to the exit decision with its code; afterwards the code never changes. While the child lives, a "restart" request queues exactly one os.Interrupt and any other request is only logged |
| AgentRules.SelectingWhileAlive | agent/agent_proc.go:101-112 | before the exit, the loop stays in select and the manual flag is set exactly when a "restart" request arrived; the os.Interrupts queued are exactly one per "restart" request, and the requests ignored are exactly the other ones, in order |
| AgentRules.StaysSelecting | agent/agent_proc.go:101-108 | before the exit, the loop stays in select, and the manual flag is set exactly when it was set or a "restart" request arrived |
| AgentRules.HandlesEveryRequest | agent/agent_proc.go:101-112 | before the exit, the number of os.Interrupts queued equals the number of "restart" requests, and the ignored requests are the other requests in order |
| AgentRules.StepHandlesRequest | agent/agent_proc.go:101-112 | one event before the exit queues one os.Interrupt exactly when it is a "restart" request, and ignores exactly the other requests |
| AgentRules.RequestsAppend | agent/agent_proc.go:101-112 | the interrupts queued and the requests ignored over two stretches of actions add up |
| AgentRules.StepForwards | agent/agent_proc.go:113-134 | one received signal is sent to the child, and an Interrupt also arms one kill timer; a request sends nothing |
| AgentRules.ForwardsEverySignal | agent/agent_proc.go:113-134 | before the exit, the signals sent to the child are exactly the signals received, in order, and one kill timer is armed per Interrupt |
| AgentRules.ExitIsDecided | agent/agent_proc.go:135-143 | the first exit event leads to ExitDecision with the exit code and whether a restart was requested before it |
| AgentRules.AwaitingOutcome | agent/agent_proc.go:149-160 | with ignore, after the exit only a "restart" request matters: it returns the code; no signal reaches the child |
| AgentRules.DelayAfter | agent/agent_proc.go:46-53 | no delay exactly after code 0; otherwise the backoff at the number of failures since the last clean exit |
| AgentRules.Delays | agent/agent_proc.go:44-54 | one delay per exit code, each decided by the codes before it |
| AgentRules.SuccessResets | agent/agent_proc.go:46-48 | a failure right after a clean exit takes the first backoff step again |
| AgentRules.FailureStreak | agent/agent_proc.go:49-52 | after a clean exit (or from the start), n failures leave the backoff at attempt n |
| AgentRules.ExitStrategy | agent/proc.go:133-151 | an expected exit or restart relaunches; otherwise proxy exits, ignore awaits a manual restart and anything else panics. One iff each (wp/proc.go:76-91 is the same chain) |
| AgentRules.Route | agent/agent_http.go:19-35 | velox.js, sync, restart, refresh and save each go to their handler exactly when the base name is theirs; everything else goes to static files |
| AgentRules.RouteByLastElement | agent/agent_http.go:20 | the handler depends only on the last path element |
| AgentRules.Whitelisted | agent/agent_http.go:57-70 | true exactly when every submitted name is a configured file |
| CurrentAgent.Saved | agent/agent_http.go:72-91 | a written file holds the new text and keeps its permissions; a new file is writable |
| CurrentAgent.WriteFiles | agent/agent_http.go:71-95 | succeeds exactly when every submitted file is new, or readable, holding other text and writable; then every file is written. A failure gives the error of a file that causes it, and leaves the files before it written |
| CurrentAgent.Agent.constructor | agent/agent.go:58-68 | procState is procChanging, so not running; Manual exactly for ignore; empty files and log; offset 0; maximum 10000 |
| CurrentAgent.Agent.SetRunning | agent/agent.go:132-147 | start: running, its pid, exit code 0, procRunning. Exit: not running, pid 0, its code, procExited. ChangedAt is set; everything else is unchanged and one push is made |
| CurrentAgent.Agent.Restart | agent/agent.go:153-155 | one "restart" request is sent and nothing else changes |
| CurrentAgent.Agent.ReadFiles | agent/agent.go:157-178 | the files become the change-only merge of the configured paths; `changed` is true exactly when the map changed; one push |
| CurrentAgent.Agent.ReadLog | agent/agent.go:180-191 | the log becomes the as-written stores of the messages from the current offset; the offset rises by their number; one push each |
| CurrentAgent.Agent.RelaySignal | agent/agent.go:115-125 | applies the signal rule with whether a child is running; a forwarded signal is sent on procSigs |
| CurrentAgent.Agent.RunProcOnce | agent/agent_proc.go:57-164 | computes the fold of the events from the select phase. While the child lives it is published as running with its pid; once it has exited, as exited with its code, before the exit is decided |
| CurrentAgent.Agent.RunProc | agent/agent_proc.go:36-55 | a missing program is fatal; each returned child gives its code, and the delays are the backoff rule of those codes; a child that fails to start is fatal; proxy ends with the child's code; the loop never panics |
| CurrentAgent.Agent.ServeRestart | agent/agent_http.go:37-40 | 200, after one "restart" request |
| CurrentAgent.Agent.ServeRefresh | agent/agent_http.go:42-45 | 200, after readFiles |
| CurrentAgent.Agent.ServeSave | agent/agent_http.go:47-102 | json error, no files, invalid file and each write error give their responses. 200 exactly when the body decoded, is non-empty, names only configured files and every file can be saved; then all are written, readFiles runs and one push is made; otherwise the record is unchanged |
| StaleProc.GateRequest | agent/proc.go:42-76 | start acts exactly while a manual restart is awaited; restart acts exactly with a running child and a wait channel; any other kind is dropped. One iff each |
| StaleProc.Supervisor.constructor | agent/proc.go:36-41 | no child, no wait channel, neither flag set, backoff at 0 |
| StaleProc.Supervisor.HandleRequest | agent/proc.go:42-76 | applies the gate; an acted-on restart sends the configured restart signal to the child |
| StaleProc.Supervisor.ProxySignal | agent/proc.go:78-93 | applies the signal rule with whether there is a child; a forwarded signal goes to the child |
| StaleProc.Supervisor.RunChild | agent/proc.go:107-131 | the child is published as running, then cleared and published as exited with its code, before the strategy is chosen: two pushes, the state ends as exited, and no request or signal is queued to the agent |
| StaleProc.Supervisor.RunProc | agent/proc.go:95-153 | a missing program or a child that fails to start is fatal. With restart, the delays are consecutive backoff steps that are never reset. With ignore, each relaunch is immediate once released. Proxy ends with the code after publishing the exit; an unknown OnExit panics. expectingRestart is always false at the decision, and the awaiting flag is never cleared |
| WpAgent.Agent.constructor | wp/agent.go:54-102 | the manualRestart channel exists exactly for ignore and Manual mirrors it; no command; zero uptime; empty maps; maximum 10000 |
| WpAgent.Agent.CheckProc | wp/agent.go:119-133 | Running shows whether a command is installed. A started one publishes its pid and keeps an uptime already set; otherwise pid and uptime are zero. One push |
| WpAgent.Agent.SetProc | wp/agent.go:104-117 | installing a command clears expectExit; clearing it leaves expectExit as it was; then checkProc |
| WpAgent.Agent.ReadFiles | wp/agent.go:223-235 | the files become the overwrite merge of the configured paths; one push |
| WpAgent.Agent.ReadLog | wp/agent.go:237-248 | the log becomes the as-written stores from the current offset; the offset rises by their number |
| WpAgent.Agent.Configure | wp/agent.go:153-221 | json error, invalid file, failed to open and no change each give their response and change nothing. An accepted file is written and reloaded. Not running: manualRestart is signalled if it exists, then 200. Running: expectExit is set and the restart signal is sent (500 if that fails; a panic if the command has no Process) |
| WpAgent.WpRoute | wp/agent.go:139-151 | velox.js, sync and configure each go to their handler exactly when the base name is theirs; everything else goes to static files. agent.go:99-111 is the same switch |
| WpProc.ProxySignal | wp/proc.go:31-46 | applies the signal rule with whether a started command is installed; a forwarded signal goes to that command |
| WpProc.AfterConfigure | wp/agent.go:153-205 | a configure request changes the disk only when it is accepted, and then the named file holds the submitted text; no path appears or disappears |
| WpProc.AcceptedSeq | wp/agent.go:153-205 | one verdict per configure request, each judged against the disk the earlier requests left |
| WpProc.AcceptedOnlyValid | wp/agent.go:158-173 | an accepted request decoded and names a configured file; handling requests keeps the disk's paths |
| WpProc.WpDelays | wp/proc.go:75-79 | one delay per relaunch |
| WpProc.WpDelaysShape | wp/proc.go:75-91 | a relaunch takes a backoff step exactly when its exit was expected or OnExit is restart, and is immediate otherwise; the attempts strictly increase (never reset) and stay below the counter; with restart they are 0, 1, 2, … |
| WpProc.Outcome | wp/proc.go:75-91 | the loop goes on exactly when the strategy relaunches (an expected exit or restart), or awaits a manual restart and was released; every other case stops it |
| WpProc.RunChild | wp/proc.go:56-73 | the code is the child's. The verdict of each configure request handled during its life is AcceptedSeq from the disk and configured files at its start, and the disk ends as those requests leave it. The exit is expected exactly when one was accepted. Afterwards the agent has no command, is not running, and pid and uptime are zero; configuration, log and manual flag are unchanged, the files change only when a request was accepted, and at least two pushes happened |
| WpProc.LaunchChild | wp/proc.go:50-74 | a started child runs to its exit and is cleared, threading the disk through its configure requests; its exit is expected exactly when one of them was accepted, so never with no requests; the configuration never changes |
| WpProc.RunProcess | wp/proc.go:23-93 | a missing program or a child that fails to start is fatal. Each child's exit is expected exactly when one of the configure requests handled during its life was accepted, each judged against the disk as the configure requests handled during the earlier children's lives left it. The delays are WpDelays of the expected flags (see WpDelaysShape). A child whose exit was not expected is relaunched only with restart, or with ignore once released; proxy ends with the code and anything else panics |
| RootAgent.LogQueuer.Write | agent.go:34-40 | a non-empty write sends exactly one message holding all of it, with the writer's pipe; an empty one sends nothing; returns the full length and no error |
| RootAgent.Agent.constructor | agent.go:65-89 | the configuration, the uptime at creation, empty files and log, LogSize 0, no command and expectExit false |
| RootAgent.Agent.SetProc | agent.go:91-97 | installs the command and changes nothing else |
| RootAgent.Agent.Configure | agent.go:113-115 | always 506 "not implemented" |
| RootAgent.Agent.ReadFiles | agent.go:117-129 | the files become the overwrite merge of the configured paths; one push |
| RootAgent.Agent.ReadLog | agent.go:131-142 | the log becomes the as-written stores with maximum 10000; LogSize rises by the number of messages |
| RootConfig.Config.UnmarshalOnExit | main.go:148-151 | OnExit becomes the unquoted text, unchecked; never an error |
| RootConfig.Config.UnmarshalLog | main.go:153-156 | Log becomes the unquoted text, unchecked; never an error |
| RootConfig.Config.UnmarshalRestartTimeout | main.go:158-162 | the parsed duration is stored; on error, 0 is stored and the error returned |
| RootMain.Cli | main.go:63-71 | fewer than two arguments prints the help; -v or --version prints the version; both exit 0; otherwise the first argument is the configuration path |
| RootMain.RunLoop | main.go:110-138 | a child that fails to start is fatal; an unexpected exit ends with the child's code; an expected one relaunches after backoff step k for the k-th relaunch, never reset; expectExit is never changed |
| RootMain.Supervise | main.go:91-138 | a missing program is fatal; with a fresh agent nothing is ever relaunched: a started first child's exit code is the supervisor's own |

## Left out

- Goroutines, channel blocking and locks: each goroutine's decisions are modelled, and what it receives is a given sequence. Interleavings are not modelled. This covers the race between a restart's kill timer and the child's exit (agent/agent_proc.go:116-129, agent/proc.go:59-71), and `setRunning(false)` racing the select loop.
- The kill timer itself: arming it is an action, and whether it fires is not modelled.
- Backoff durations (jitter, growth factor, maximum): only the attempt number is modelled.
- `time.Sleep` pauses.
- Process plumbing: `exec.LookPath`, `Start`, `Wait`, environment, working directory and stdio writers. Lookup success, start success, the pid and the wait result are inputs.
- `os.Exit`, `log.Fatalf` and `panic` are outcomes of the loops (`End`). They are not process termination.
- `stripAnsi` and `time.ParseDuration` are not part of this model; they are parameters.
- The HTTP stack: the listener, cookieauth, ipfilter, requestlog, the static file server, go-bindata assets and velox's SyncHandler and JS. A velox Push is a counter.
- Request bodies arrive already decoded (`None` for a JSON error).
- `LoadConfig` and main.go:73-89: file stat, read and `toml.Unmarshal` are not modelled. Only the field hooks that `toml.Unmarshal` calls are.
- wp/config.go is not part of this model. The wp revision is modelled with the current agent's configuration record, whose fields it uses.
- File permissions are not modelled. In particular, the mode of a newly created file (the literal `os.FileMode(600)`, agent/agent_http.go:72) is not modelled: a created file is readable and writable.
- Disk failures other than "cannot be read" and "cannot be written": for example, a failing `os.Stat`, `Seek` or `Truncate`.
- Disk failures in wp configure: the `failed to read file` and `failed to write changes` branches (wp/agent.go:188-204) cannot occur, because a file that opens for read-write is modelled as readable and writable.
- wp configure opens with `O_RDWR` and no `O_CREATE`, so a configured file that does not exist gives `failed to open file`, as in the source.
- Integer width: Go's `int`/`int64` are unbounded integers here. The log offset cannot overflow in practice.
- The request log middleware's writes into the log channel.
- The supervisor's own log lines: `a.log` and `a.verb` also write into the message queue through a `msgQueuer` named "agent" (agent/agent.go:56-57, wp/agent.go:60-62). Which lines they write is not modelled; ReadLog takes the messages as given.
- The `Sig` stub methods.
- The JavaScript web UI.
- CurrentAgent.Agent.RunProc: the loop is given a finite list of children. When the list runs out, the result is `StillRunning` rather than an endless loop.
- StaleProc.Supervisor.HandleRequest: the kill on restart timeout, `a.proc.Process.Kill()` (agent/proc.go:66), reads a field that the package's agent struct does not declare. Only the restart signal is modelled.
- WpProc.RunProcess: configure requests handled between two children are not modelled. This covers the request that releases an ignore wait (wp/agent.go:207-209 sends on `manualRestart` only after writing the file) and any request handled during a backoff sleep. Their writes are missing from `disks`, so a later child's verdicts can differ from the source's (for example, resubmitting the text the releasing request wrote gives "no change" in the source but may be accepted here). `released` is a given input rather than derived from those requests.
- WpAgent.Agent.Configure: the nil-pointer panic when the installed command has no Process yet is modelled only as the response `None`.

## Findings

| source | as written | input that shows it | evidently intended | confidence | as-written member | corrected member |
|---|---|---|---|---|---|---|
| agent/agent.go:186 (also wp/agent.go:243 and agent.go:137) | after raising the offset, readLog deletes key `LogMaxSize - LogOffset`. That key is never positive, so only key 0 is ever removed | LogMaxSize 10000 and 10002 messages from the empty log: keys 1 to 10001 all remain, 10001 entries | delete key `LogOffset - LogMaxSize` (the oldest offset once the log is full), so it never holds more than LogMaxSize entries | not executed | OffsetLog.AsWrittenExceedsMax | OffsetLog.StoreAllWindowIsWindow |
