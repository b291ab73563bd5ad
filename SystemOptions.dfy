/**
 * The standard server options `system_cb` reads before it creates the
 * system: the log level, the log file, the host name, the system name and
 * the port. A bad log level or port makes `system_cb` give up (it returns
 * no system); here that is a `Failure` carrying the offending value.
 */
module SystemOptions {
  import opened Wrappers
  import opened Decimal
  import opened CStrings
  import opened CupsOptions

  /** `pappl_loglevel_t`; `Unspec` when no level was asked for. */
  datatype LogLevel = Unspec | Debug | Info | Warn | Error | Fatal

  /** The value of the "log-level" option that selects each level. */
  function LevelName(l: LogLevel): string
    requires l != Unspec
  {
    match l
    case Debug => "debug"
    case Info => "info"
    case Warn => "warn"
    case Error => "error"
    case Fatal => "fatal"
  }

  /** Why `system_cb` gave up. */
  datatype OptionError = BadLogLevel(value: string) | BadServerPort(value: string)

  /** The option values `system_cb` goes on to create the system with. */
  datatype Settings = Settings(
    logLevel: LogLevel,
    logFile: Option<string>,
    hostname: Option<string>,
    systemName: Option<string>,
    port: int)

  /**
   * The log level for an optional "log-level" value: the five names,
   * compared case-sensitively; no value means unspecified.
   */
  function ParseLogLevel(val: Option<string>): (r: Result<LogLevel, OptionError>)
    ensures val.None? ==> r == Success(Unspec)
    ensures r.Failure? ==> val.Some? && r.error == BadLogLevel(val.value)
    ensures r.Success? && val.Some? ==> r.value != Unspec && val.value == LevelName(r.value)
  {
    match val
    case None => Success(Unspec)
    case Some(v) =>
      if v == "fatal" then Success(Fatal)
      else if v == "error" then Success(Error)
      else if v == "warn" then Success(Warn)
      else if v == "info" then Success(Info)
      else if v == "debug" then Success(Debug)
      else Failure(BadLogLevel(v))
  }

  /** Every level is selected by its own name and by nothing else. */
  lemma ParseLogLevelExactly(val: Option<string>, l: LogLevel)
    ensures ParseLogLevel(val) == Success(l) <==>
      (if l == Unspec then val == None else val == Some(LevelName(l)))
  {
  }

  /**
   * The port for an optional "server-port" value: 0 without one; a value
   * that does not start with a digit (the empty one included) is refused;
   * otherwise `atoi` of it.
   */
  function ParseServerPort(val: Option<string>): (r: Result<int, OptionError>)
    ensures val.None? ==> r == Success(0)
    ensures r.Failure? <==> val.Some? && (val.value == [] || !IsDigit(val.value[0]))
    ensures r.Failure? ==> r.error == BadServerPort(val.value)
    ensures r.Success? ==> r.value >= 0
  {
    match val
    case None => Success(0)
    case Some(v) =>
      if v == [] || !IsDigit(v[0]) then Failure(BadServerPort(v))
      else Success(Atoi(v))
  }

  /** A port written in decimal is read back, even with text after the digits. */
  lemma ServerPortRoundTrip(n: nat, rest: string)
    requires rest == [] || !IsDigit(rest[0])
    ensures ParseServerPort(Some(NatToString(n) + rest)) == Success(n)
  {
    AtoiNatToString(n, rest);
  }

  /**
   * The option handling of `system_cb`: the log level is checked before
   * the port, the three text options are taken as given.
   */
  function ReadSettings(options: seq<Pair>): (r: Result<Settings, OptionError>)
    ensures ParseLogLevel(GetOption("log-level", options)).Failure? ==>
      r == Failure(ParseLogLevel(GetOption("log-level", options)).error)
    ensures ParseLogLevel(GetOption("log-level", options)).Success? && ParseServerPort(GetOption("server-port", options)).Failure? ==>
      r == Failure(ParseServerPort(GetOption("server-port", options)).error)
    ensures r.Success? <==>
      ParseLogLevel(GetOption("log-level", options)).Success? && ParseServerPort(GetOption("server-port", options)).Success?
    ensures r.Success? ==>
      && r.value.logLevel == ParseLogLevel(GetOption("log-level", options)).value
      && r.value.port == ParseServerPort(GetOption("server-port", options)).value
      && r.value.logFile == GetOption("log-file", options)
      && r.value.hostname == GetOption("server-hostname", options)
      && r.value.systemName == GetOption("system-name", options)
  {
    match ParseLogLevel(GetOption("log-level", options))
    case Failure(e) => Failure(e)
    case Success(level) =>
      match ParseServerPort(GetOption("server-port", options))
      case Failure(e) => Failure(e)
      case Success(port) =>
        Success(Settings(level, GetOption("log-file", options), GetOption("server-hostname", options),
                         GetOption("system-name", options), port))
  }

  /** With no options at all the system gets the defaults: unspecified level, port 0. */
  lemma NoOptionsDefaults()
    ensures ReadSettings([]) == Success(Settings(Unspec, None, None, None, 0))
  {
  }

  /** Level names are case-sensitive: "DEBUG" is refused. */
  lemma UpperCaseLevelRefused()
    ensures ReadSettings([Pair("log-level", "DEBUG")]) == Failure(BadLogLevel("DEBUG"))
  {
    assert EqualIgnoringCase("log-level", "log-level");
  }
}
