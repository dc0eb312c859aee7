/**
  The Microlog logger of package nanolog (main.go).

  A logger holds a user prefix, an integer severity threshold (`filter`) and
  an interactivity flag found at construction by probing standard output.
  Each of Error, Warn, Info and Debug emits one composed line when the
  threshold admits its level; Fatal always composes its line and panics with
  it. The composed line is returned instead of being printed or panicked with,
  and the message is the already formatted result of `fmt.Sprintf`.
 */
module Nanolog {
  import opened GoStrings

  datatype Option<T> = None | Some(value: T)

  datatype Result<T, E> = Success(value: T) | Failure(error: E)

  /** The errors the logger reports. */
  datatype LogError =
    | ProbeError(errno: int)     // the terminal probe failed with something other than ENOTTY
    | InvalidLevel(level: int)   // New was given a filter above 7
    | UnknownLevel(name: Bytes)  // NamedFilter was given a name outside the table

  /** Outcome of the terminal probe `unix.IoctlGetTermios` on standard output. */
  datatype Probe =
    | Terminal               // the probe succeeded: output is interactive
    | NotATerminal           // the probe failed with ENOTTY: output is captured
    | ProbeFailed(errno: int) // failed with any errno but ENOTTY, which is NotATerminal

  /** The five severities; Fatal has no rank and is never filtered. */
  datatype Level = Fatal | Error | Warn | Info | Debug

  const LevelError := 4
  const LevelWarn := 5
  const LevelInfo := 6
  const LevelDebug := 7
  const MaxLine := 47 * 1024

  // Decorations for interactive output: ANSI colours.
  const InFatalPrefix: Bytes := "\U{1B}[1;31m"
  const InErrorPrefix: Bytes := "\U{1B}[1;31m"
  const InWarnPrefix: Bytes := "\U{1B}[1;33m"
  const InInfoPrefix: Bytes := ""
  const InDebugPrefix: Bytes := "\U{1B}[1;36m"
  const InSuffix: Bytes := "\U{1B}[m"

  // Decorations for non-interactive output: syslog priorities. Fatal has none,
  // the service manager is expected to assign it a level of its own.
  const UnFatalPrefix: Bytes := ""
  const UnErrorPrefix: Bytes := "<3>"
  const UnWarnPrefix: Bytes := "<4>"
  const UnInfoPrefix: Bytes := "<6>"
  const UnDebugPrefix: Bytes := "<7>"
  const UnSuffix: Bytes := ""

  const TruncatedMarker: Bytes := " (truncated)"

  /** The names NamedFilter accepts; the name at index i selects threshold i + 3. */
  const Levels: seq<Bytes> := ["crit", "error", "warn", "info", "debug"]

  /** The ANSI colour that starts an interactive line: none for Info, an
      escape sequence for every other level. */
  function InPrefix(l: Level): (p: Bytes)
    ensures p == [] <==> l == Level.Info
    ensures p != [] ==> p[0] == '\U{1B}' && LF !in p
  {
    match l
    case Fatal => InFatalPrefix
    case Error => InErrorPrefix
    case Warn => InWarnPrefix
    case Info => InInfoPrefix
    case Debug => InDebugPrefix
  }

  /** The syslog priority that starts a non-interactive line: none for
      Fatal, "<N>" for every other level. */
  function UnPrefix(l: Level): (p: Bytes)
    ensures LF !in p
    ensures p == [] <==> l == Level.Fatal
    ensures p != [] ==> |p| == 3 && p[0] == '<' && p[2] == '>'
  {
    match l
    case Fatal => UnFatalPrefix
    case Error => UnErrorPrefix
    case Warn => UnWarnPrefix
    case Info => UnInfoPrefix
    case Debug => UnDebugPrefix
  }

  /** Whether a logger whose threshold is `filter` emits at level `l`: every
      level but Fatal needs a threshold at least its rank. */
  predicate Enabled(l: Level, filter: int): (b: bool)
    ensures l == Level.Fatal ==> b
    ensures filter < LevelError ==> (b <==> l == Level.Fatal)
    ensures filter >= LevelDebug ==> b
  {
    match l
    case Fatal => true
    case Error => filter >= LevelError
    case Warn => filter >= LevelWarn
    case Info => filter >= LevelInfo
    case Debug => filter >= LevelDebug
  }

  /** The line-length safeguard: a message longer than MaxLine bytes is cut to
      its first MaxLine bytes and marked. */
  function Truncate(message: Bytes): (r: Bytes)
    ensures |r| <= MaxLine + |TruncatedMarker|
    ensures |message| <= MaxLine ==> r == message
  {
    if |message| > MaxLine then message[..MaxLine] + TruncatedMarker else message
  }

  /** The line a logger with the given flag and user prefix composes for
      `message` at level `l`. */
  function Compose(l: Level, interactive: bool, userPrefix: Bytes, message: Bytes): (line: Bytes)
    ensures |line| > 0 && line[|line| - 1] == LF
  {
    if interactive then
      InPrefix(l) + userPrefix + message + InSuffix + [LF]
    else
      var body := ReplaceAllNewline(Truncate(message), [LF] + UnPrefix(l));
      UnPrefix(l) + userPrefix + body + UnSuffix + [LF]
  }

  /** The position of the first occurrence of `name` in `table`. */
  function IndexOf(table: seq<Bytes>, name: Bytes): (r: Option<nat>)
    ensures r.Some? <==> name in table
    ensures r.Some? ==> r.value < |table| && table[r.value] == name && name !in table[..r.value]
  {
    if table == [] then None
    else if table[0] == name then Some(0)
    else
      match IndexOf(table[1..], name)
      case None => None
      case Some(i) => assert table[1..][..i] == table[1..i + 1]; Some(i + 1)
  }

  /** The state New gives a logger: its `interactive` flag and its threshold. */
  datatype Config = Config(interactive: bool, filter: int)

  /** New as main.go writes it: the probe error comes first, then a filter
      above 7 is rejected; filter 0 picks a default, but any other filter is
      left unstored and the threshold keeps its zero value. */
  function SetupAsWritten(probe: Probe, filter: int): (r: Result<Config, LogError>)
    ensures r.Success? <==> !probe.ProbeFailed? && filter <= LevelDebug
    ensures probe.ProbeFailed? ==> r == Failure(ProbeError(probe.errno))
    ensures r.Success? ==> r.value.interactive == probe.Terminal?
    ensures !probe.ProbeFailed? && filter > LevelDebug ==> r == Failure(InvalidLevel(filter))
    ensures r.Success? ==> (r.value.filter != 0 <==> filter == 0)
    ensures r.Success? && filter == 0 ==> r.value.filter == if probe.Terminal? then LevelInfo else LevelDebug
    ensures r.Success? && filter != 0 ==> r.value.filter == 0
  {
    if probe.ProbeFailed? then Failure(ProbeError(probe.errno))
    else if filter > 7 then Failure(InvalidLevel(filter))
    else
      var interactive := probe.Terminal?;
      Success(Config(interactive, if filter == 0 then (if interactive then 6 else 7) else 0))
  }

  /** New as evidently intended, and as the model's Microlog.New does it: the
      same checks in the same order, and an explicit filter of 7 or less is
      kept as the threshold. */
  function Setup(probe: Probe, filter: int): (r: Result<Config, LogError>)
    ensures r.Success? <==> !probe.ProbeFailed? && filter <= LevelDebug
    ensures probe.ProbeFailed? ==> r == Failure(ProbeError(probe.errno))
    ensures !probe.ProbeFailed? && filter > LevelDebug ==> r == Failure(InvalidLevel(filter))
    ensures r.Success? ==> r.value.interactive == probe.Terminal?
    ensures r.Success? && filter != 0 ==> r.value.filter == filter
    ensures r.Success? && filter == 0 ==> r.value.filter == if probe.Terminal? then LevelInfo else LevelDebug
  {
    if probe.ProbeFailed? then Failure(ProbeError(probe.errno))
    else if filter > 7 then Failure(InvalidLevel(filter))
    else
      var interactive := probe.Terminal?;
      Success(Config(interactive, if filter == 0 then (if interactive then 6 else 7) else filter))
  }

  class Microlog {
    var userPrefix: Bytes
    var filter: int
    var interactive: bool

    /** The zero value `Microlog{userPrefix: userPrefix}`. */
    constructor (userPrefix: Bytes)
      ensures this.userPrefix == userPrefix && filter == 0 && !interactive
    {
      this.userPrefix := userPrefix;
      filter := 0;
      interactive := false;
    }

    /** New: probe the terminal, validate the filter, resolve the default;
        an explicit filter is kept as the threshold (see SetupAsWritten for
        the code that drops it). */
    static method New(userPrefix: Bytes, filter: int, probe: Probe) returns (r: Result<Microlog, LogError>)
      ensures r.Success? <==> Setup(probe, filter).Success?
      ensures r.Failure? ==> r.error == Setup(probe, filter).error
      ensures r.Success? ==> fresh(r.value) && r.value.userPrefix == userPrefix
      ensures r.Success? ==> Config(r.value.interactive, r.value.filter) == Setup(probe, filter).value
    {
      var ml := new Microlog(userPrefix);
      match probe {
        case Terminal => ml.interactive := true;
        case NotATerminal =>
        case ProbeFailed(errno) => return Failure(ProbeError(errno));
      }
      if filter > 7 {
        return Failure(InvalidLevel(filter));
      }
      if filter == 0 {
        if ml.interactive {
          ml.filter := 6;
        } else {
          ml.filter := 7;
        }
      } else {
        ml.filter := filter;
      }
      return Success(ml);
    }

    /** Filter: overwrite the threshold, unchecked. */
    method Filter(filter: int)
      modifies this`filter
      ensures this.filter == filter
      ensures userPrefix == old(userPrefix) && interactive == old(interactive)
    {
      this.filter := filter;
    }

    /** NamedFilter: look `name` up in Levels; on a match set the threshold to
        its index plus 3, otherwise report the name and keep the threshold. */
    method NamedFilter(name: Bytes) returns (err: Option<LogError>)
      modifies this`filter
      ensures err.None? <==> name in Levels
      ensures err.None? ==> filter == IndexOf(Levels, name).value + 3
      ensures err.Some? ==> err.value == UnknownLevel(name) && filter == old(filter)
      ensures userPrefix == old(userPrefix) && interactive == old(interactive)
    {
      for i := 0 to |Levels|
        invariant name !in Levels[..i]
        invariant filter == old(filter)
      {
        if name != Levels[i] {
          continue;
        }
        assert Levels[..i + 1] == Levels[..i] + [Levels[i]];
        filter := i + 3;
        return None;
      }
      assert Levels[..|Levels|] == Levels;
      return Some(UnknownLevel(name));
    }

    /** Fatal: the payload of the panic; the threshold is not consulted. */
    method Fatal(message: Bytes) returns (panicked: Bytes)
      ensures panicked == Compose(Level.Fatal, interactive, userPrefix, message)
    {
      panicked := Compose(Level.Fatal, interactive, userPrefix, message);
    }

    /** Error: the printed line, if the threshold admits level 4. */
    method Error(message: Bytes) returns (printed: Option<Bytes>)
      ensures printed.Some? <==> Enabled(Level.Error, filter)
      ensures printed.Some? ==> printed.value == Compose(Level.Error, interactive, userPrefix, message)
    {
      if filter < LevelError {
        return None;
      }
      printed := Some(Compose(Level.Error, interactive, userPrefix, message));
    }

    /** Warn: the printed line, if the threshold admits level 5. */
    method Warn(message: Bytes) returns (printed: Option<Bytes>)
      ensures printed.Some? <==> Enabled(Level.Warn, filter)
      ensures printed.Some? ==> printed.value == Compose(Level.Warn, interactive, userPrefix, message)
    {
      if filter < LevelWarn {
        return None;
      }
      printed := Some(Compose(Level.Warn, interactive, userPrefix, message));
    }

    /** Info: the printed line, if the threshold admits level 6. */
    method Info(message: Bytes) returns (printed: Option<Bytes>)
      ensures printed.Some? <==> Enabled(Level.Info, filter)
      ensures printed.Some? ==> printed.value == Compose(Level.Info, interactive, userPrefix, message)
    {
      if filter < LevelInfo {
        return None;
      }
      printed := Some(Compose(Level.Info, interactive, userPrefix, message));
    }

    /** Debug: the printed line, if the threshold admits level 7. */
    method Debug(message: Bytes) returns (printed: Option<Bytes>)
      ensures printed.Some? <==> Enabled(Level.Debug, filter)
      ensures printed.Some? ==> printed.value == Compose(Level.Debug, interactive, userPrefix, message)
    {
      if filter < LevelDebug {
        return None;
      }
      printed := Some(Compose(Level.Debug, interactive, userPrefix, message));
    }
  }
}
