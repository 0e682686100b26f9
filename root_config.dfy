/**
  main.go's configuration record (the root revision of the program) and the
  TOML hooks of its OnExit, Log and Duration fields. The Log and OnExit
  values are the same strings as in the agent package. Durations are
  nanosecond counts, as Go's time.Duration.
 */
module RootConfig {

  import opened Supervision

  /** The values a main.go Config holds at one moment. */
  datatype RootSettings = RootSettings(
    host: string,
    port: int,
    user: string,
    pass: string,
    program: string,
    arguments: seq<string>,
    log: string,
    onExit: string,
    configurationFiles: seq<string>,
    verifyProgram: string,
    verifyArguments: seq<string>,
    restartSignal: string,
    restartTimeout: int)

  /** The Config that toml.Unmarshal fills through its field hooks. */
  class Config {
    var value: RootSettings

    constructor (s: RootSettings)
      ensures value == s
    {
      value := s;
    }

    /** OnExit.UnmarshalTOML: the text without its delimiters is stored unchecked; never an error. */
    method UnmarshalOnExit(data: string) returns (err: Option<string>)
      modifies this
      ensures value == old(value).(onExit := Quoted(data)) && err == None
    {
      value := value.(onExit := Quoted(data));
      err := None;
    }

    /** Log.UnmarshalTOML: the text without its delimiters is stored unchecked; never an error. */
    method UnmarshalLog(data: string) returns (err: Option<string>)
      modifies this
      ensures value == old(value).(log := Quoted(data)) && err == None
    {
      value := value.(log := Quoted(data));
      err := None;
    }

    /**
      Duration.UnmarshalTOML: time.ParseDuration (not part of this model,
      a parameter giving nanoseconds or an error) reads the text without its
      delimiters; its value is stored even on error, when it is 0, and its
      error is returned.
     */
    method UnmarshalRestartTimeout(data: string, parseDuration: string -> Result<int>) returns (err: Option<string>)
      modifies this
      ensures parseDuration(Quoted(data)).Ok? ==>
                value == old(value).(restartTimeout := parseDuration(Quoted(data)).value) && err == None
      ensures parseDuration(Quoted(data)).Err? ==>
                value == old(value).(restartTimeout := 0) && err == Some(parseDuration(Quoted(data)).msg)
    {
      match parseDuration(Quoted(data))
      case Ok(ns) =>
        value := value.(restartTimeout := ns);
        err := None;
      case Err(msg) =>
        value := value.(restartTimeout := 0);
        err := Some(msg);
    }
  }
}
