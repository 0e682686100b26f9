/**
  agent/config.go: the current agent's configuration record, its
  validation with defaults, and the TOML/flag hooks of its OnExit, Log and
  Duration fields. Durations are nanosecond counts, as Go's time.Duration.
 */
module AgentConfig {

  import opened Supervision

  const LogBoth: string := "both"
  const LogWebUI: string := "webui"
  const LogProxy: string := "proxy"

  const OnExitRestart: string := "restart"
  const OnExitIgnore: string := "ignore"
  const OnExitProxy: string := "proxy"

  const DefaultHost: string := "0.0.0.0"
  const DefaultPort: int := 8080
  const Second: int := 1_000_000_000
  const DefaultRestartTimeout: int := 30 * Second

  /** The values a Config holds at one moment. */
  datatype Settings = Settings(
    host: string,
    port: int,
    user: string,
    pass: string,
    allowedIPs: seq<string>,
    programArgs: seq<string>,
    log: string,
    onExit: string,
    configurationFiles: seq<string>,
    verifyProgramArgs: seq<string>,
    restartSignal: string,
    goRestartSignal: Option<Signal>, // None stands for a nil os.Signal
    restartTimeout: int)

  predicate KnownLog(v: string)
  {
    v == LogBoth || v == LogProxy || v == LogWebUI
  }

  predicate KnownOnExit(v: string)
  {
    v == OnExitProxy || v == OnExitIgnore || v == OnExitRestart
  }

  /** The signal a restart sends: os.Kill for "SIGKILL", os.Interrupt for any other name. */
  function RestartSignalFor(name: string): (sig: Signal)
    ensures sig == Kill <==> name == "SIGKILL"
    ensures sig == Kill || sig == Interrupt
  {
    if name == "SIGKILL" then Kill else Interrupt
  }

  /** A configuration the agent can run with: every defaulted field holds a usable value. */
  predicate Valid(s: Settings)
  {
    && s.programArgs != []
    && s.host != ""
    && s.port != 0
    && KnownLog(s.log)
    && KnownOnExit(s.onExit)
    && s.restartTimeout != 0
    && s.goRestartSignal == Some(RestartSignalFor(s.restartSignal))
  }

  /**
    The defaults ValidateConfig applies: each field that is unset or holds an
    unknown value gets its default, every other value is kept, the Go signal
    is derived from the signal name, and the fields it does not validate are
    left alone.
   */
  function Defaulted(s: Settings): (d: Settings)
    ensures s.host == "" ==> d.host == DefaultHost
    ensures s.host != "" ==> d.host == s.host
    ensures s.port == 0 ==> d.port == DefaultPort
    ensures s.port != 0 ==> d.port == s.port
    ensures KnownLog(d.log) && (KnownLog(s.log) ==> d.log == s.log) && (!KnownLog(s.log) ==> d.log == LogBoth)
    ensures KnownOnExit(d.onExit) && (KnownOnExit(s.onExit) ==> d.onExit == s.onExit)
    ensures !KnownOnExit(s.onExit) ==> d.onExit == OnExitProxy
    ensures s.restartTimeout == 0 ==> d.restartTimeout == 30 * Second
    ensures s.restartTimeout != 0 ==> d.restartTimeout == s.restartTimeout
    ensures d.goRestartSignal == Some(Kill) <==> s.restartSignal == "SIGKILL"
    ensures d.goRestartSignal.Some? && (d.goRestartSignal.value == Kill || d.goRestartSignal.value == Interrupt)
    ensures d.user == s.user && d.pass == s.pass && d.allowedIPs == s.allowedIPs
    ensures d.programArgs == s.programArgs && d.configurationFiles == s.configurationFiles
    ensures d.verifyProgramArgs == s.verifyProgramArgs && d.restartSignal == s.restartSignal
  {
    s.(host := if s.host == "" then DefaultHost else s.host,
       port := if s.port == 0 then DefaultPort else s.port,
       log := if KnownLog(s.log) then s.log else LogBoth,
       onExit := if KnownOnExit(s.onExit) then s.onExit else OnExitProxy,
       restartTimeout := if s.restartTimeout == 0 then DefaultRestartTimeout else s.restartTimeout,
       goRestartSignal := Some(RestartSignalFor(s.restartSignal)))
  }

  /** With program arguments present, the defaults always give a configuration the agent can run with. */
  lemma DefaultedIsValid(s: Settings)
    requires s.programArgs != []
    ensures Valid(Defaulted(s))
  {
  }

  /** A configuration that is already valid is left exactly as it is. */
  lemma ValidIsKept(s: Settings)
    requires Valid(s)
    ensures Defaulted(s) == s
  {
  }

  /** Validating twice is validating once. */
  lemma DefaultedIdempotent(s: Settings)
    ensures Defaulted(Defaulted(s)) == Defaulted(s)
  {
  }

  /** The agent's configuration record, a Config that ValidateConfig and the decoding hooks update through a pointer. */
  class Config {
    var value: Settings

    constructor (s: Settings)
      ensures value == s
    {
      value := s;
    }

    /**
      ValidateConfig: without program arguments it reports an error and
      changes nothing; otherwise it applies the defaults and reports none.
     */
    method Validate() returns (err: Option<string>)
      modifies this
      ensures err.Some? <==> old(value).programArgs == []
      ensures err.Some? ==> err.value == "required property ProgramArgs is missing" && value == old(value)
      ensures err.None? ==> value == Defaulted(old(value))
    {
      if |value.programArgs| == 0 {
        return Some("required property ProgramArgs is missing");
      }
      if value.host == "" {
        value := value.(host := DefaultHost);
      }
      if value.port == 0 {
        value := value.(port := DefaultPort);
      }
      if !KnownLog(value.log) {
        value := value.(log := LogBoth);
      }
      if !KnownOnExit(value.onExit) {
        value := value.(onExit := OnExitProxy);
      }
      if value.restartTimeout == 0 {
        value := value.(restartTimeout := DefaultRestartTimeout);
      }
      if value.restartSignal == "SIGKILL" {
        value := value.(goRestartSignal := Some(Kill));
      } else {
        value := value.(goRestartSignal := Some(Interrupt));
      }
      err := None;
    }

    /** OnExit.UnmarshalTOML: the unquoted text is stored as it is, unchecked; never an error. */
    method UnmarshalOnExit(data: string) returns (err: Option<string>)
      modifies this
      ensures value == old(value).(onExit := Quoted(data)) && err == None
    {
      value := value.(onExit := Quoted(data));
      err := None;
    }

    /** OnExit.Set (the command-line flag hook): stores its argument, which String then gives back. */
    method SetOnExit(s: string) returns (err: Option<string>)
      modifies this
      ensures OnExitString() == s && err == None
      ensures value == old(value).(onExit := s)
    {
      value := value.(onExit := s);
      err := None;
    }

    /** OnExit.String. */
    function OnExitString(): string
      reads this
    {
      value.onExit
    }

    /** Log.UnmarshalTOML: the unquoted text is stored as it is, unchecked; never an error. */
    method UnmarshalLog(data: string) returns (err: Option<string>)
      modifies this
      ensures value == old(value).(log := Quoted(data)) && err == None
    {
      value := value.(log := Quoted(data));
      err := None;
    }

    /**
      Duration.UnmarshalTOML: the unquoted text goes to time.ParseDuration
      (not part of this model, so a parameter giving nanoseconds or an
      error); its value is stored even on error, when it is 0, and its error
      is returned.
     */
    method UnmarshalRestartTimeout(data: string, parseDuration: string -> Result<int>) returns (err: Option<string>)
      modifies this
      ensures parseDuration(Quoted(data)).Ok? ==>
                value == old(value).(restartTimeout := parseDuration(Quoted(data)).value) && err == None
      ensures parseDuration(Quoted(data)).Err? ==>
                value == old(value).(restartTimeout := 0) && err == Some(parseDuration(Quoted(data)).msg)
    {
      var str := Quoted(data);
      match parseDuration(str)
      case Ok(ns) =>
        value := value.(restartTimeout := ns);
        err := None;
      case Err(msg) =>
        value := value.(restartTimeout := 0);
        err := Some(msg);
    }
  }
}
