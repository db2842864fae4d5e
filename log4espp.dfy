/**
 * The default back end of the logging macros: which levels are compiled
 * in, the run-time level read from the `LOG4ESPP` environment variable,
 * and the threshold tests that decide whether a message is written.
 *
 * Levels carry thresholds from TRACE = 6 down to FATAL = 1, OFF = 0; a
 * level is on when the logger's level is at least its threshold.
 */
module Log4espp {
  import opened Wrappers

  datatype Level = Trace | Debug | Info | Warn | Error | Fatal | Off

  function Threshold(x: Level): nat
  {
    match x
    case Trace => 6
    case Debug => 5
    case Info => 4
    case Warn => 3
    case Error => 2
    case Fatal => 1
    case Off => 0
  }

  /** The six levels messages can be written at. */
  const MessageLevels: set<Level> := {Trace, Debug, Info, Warn, Error, Fatal}

  /**
   * The compile-time cascade: the first of `LOG4ESPP_LEVEL_TRACE`, ...,
   * `LOG4ESPP_LEVEL_OFF` that is defined decides which message macros are
   * compiled in; with none defined, all are.
   */
  function EnabledLevels(defined: set<Level>): set<Level>
  {
    if Trace in defined then {Trace, Debug, Info, Warn, Error, Fatal}
    else if Debug in defined then {Debug, Info, Warn, Error, Fatal}
    else if Info in defined then {Info, Warn, Error, Fatal}
    else if Warn in defined then {Warn, Error, Fatal}
    else if Error in defined then {Error, Fatal}
    else if Fatal in defined then {Fatal}
    else if Off in defined then {}
    else {Trace, Debug, Info, Warn, Error, Fatal}
  }

  /**
   * Defining a level enables exactly that level and the more severe ones;
   * when several are defined the most verbose wins; with none defined, all
   * six are enabled.
   */
  lemma CascadeEnablesMoreSevere(defined: set<Level>, x: Level)
    requires x in defined && forall z :: z in defined ==> Threshold(z) <= Threshold(x)
    ensures forall y :: y in EnabledLevels(defined) <==> y in MessageLevels && Threshold(y) <= Threshold(x)
  {
    match x
    case Trace =>
    case Debug => assert Trace !in defined;
    case Info => assert Trace !in defined && Debug !in defined;
    case Warn => assert Trace !in defined && Debug !in defined && Info !in defined;
    case Error => assert Trace !in defined && Debug !in defined && Info !in defined && Warn !in defined;
    case Fatal =>
      assert Trace !in defined && Debug !in defined && Info !in defined && Warn !in defined && Error !in defined;
    case Off =>
      assert Trace !in defined && Debug !in defined && Info !in defined && Warn !in defined && Error !in defined;
      assert Fatal !in defined;
  }

  lemma NoLevelEnablesAll()
    ensures EnabledLevels({}) == MessageLevels
  {
  }

  /** The name the environment variable is compared with. */
  function Name(x: Level): string
  {
    match x
    case Trace => "TRACE"
    case Debug => "DEBUG"
    case Info => "INFO"
    case Warn => "WARN"
    case Error => "ERROR"
    case Fatal => "FATAL"
    case Off => "OFF"
  }

  /** `tolower` in the C locale. */
  function ToLower(c: char): char
  {
    if 'A' <= c <= 'Z' then (c as int + 32) as char else c
  }

  /**
   * `strncasecmp(s, name, 3) == 0` for a C string `s` (no NUL inside):
   * the first three characters agree up to case, so a shorter `s` never
   * matches.
   */
  predicate CaseEq3(s: string, name: string)
    requires |name| >= 3
  {
    |s| >= 3 && forall q :: 0 <= q < 3 ==> ToLower(s[q]) == ToLower(name[q])
  }

  /** The level whose name the value starts with, if any. */
  function LevelNamed(s: string): (r: Option<Level>)
    ensures r.Some? ==> CaseEq3(s, Name(r.value))
    ensures r.None? ==> forall x :: !CaseEq3(s, Name(x))
  {
    if CaseEq3(s, "TRACE") then Some(Trace)
    else if CaseEq3(s, "DEBUG") then Some(Debug)
    else if CaseEq3(s, "INFO") then Some(Info)
    else if CaseEq3(s, "WARN") then Some(Warn)
    else if CaseEq3(s, "ERROR") then Some(Error)
    else if CaseEq3(s, "FATAL") then Some(Fatal)
    else if CaseEq3(s, "OFF") then Some(Off)
    else None
  }

  /** The seven names differ in their first three letters, whatever the case: a value names at most one level. */
  lemma NamesAreDistinct(s: string, x: Level, y: Level)
    requires CaseEq3(s, Name(x)) && CaseEq3(s, Name(y))
    ensures x == y
  {
    assert ToLower(Name(x)[0]) == ToLower(Name(y)[0]);
    assert ToLower(Name(x)[1]) == ToLower(Name(y)[1]);
    assert ToLower(Name(x)[2]) == ToLower(Name(y)[2]);
  }

  /**
   * Each of the seven comparisons succeeds exactly for the level the value
   * names, so the order in which they are made does not matter.
   */
  lemma EachNameSelectsOnlyItsLevel(s: string)
    ensures CaseEq3(s, "TRACE") <==> LevelNamed(s) == Some(Trace)
    ensures CaseEq3(s, "DEBUG") <==> LevelNamed(s) == Some(Debug)
    ensures CaseEq3(s, "INFO") <==> LevelNamed(s) == Some(Info)
    ensures CaseEq3(s, "WARN") <==> LevelNamed(s) == Some(Warn)
    ensures CaseEq3(s, "ERROR") <==> LevelNamed(s) == Some(Error)
    ensures CaseEq3(s, "FATAL") <==> LevelNamed(s) == Some(Fatal)
    ensures CaseEq3(s, "OFF") <==> LevelNamed(s) == Some(Off)
  {
    var r := LevelNamed(s);
    if r.Some? {
      if CaseEq3(s, "TRACE") { NamesAreDistinct(s, Trace, r.value); }
      if CaseEq3(s, "DEBUG") { NamesAreDistinct(s, Debug, r.value); }
      if CaseEq3(s, "INFO") { NamesAreDistinct(s, Info, r.value); }
      if CaseEq3(s, "WARN") { NamesAreDistinct(s, Warn, r.value); }
      if CaseEq3(s, "ERROR") { NamesAreDistinct(s, Error, r.value); }
      if CaseEq3(s, "FATAL") { NamesAreDistinct(s, Fatal, r.value); }
      if CaseEq3(s, "OFF") { NamesAreDistinct(s, Off, r.value); }
    }
  }

  /** Each level's own name, in any case, selects that level. */
  lemma NameSelectsLevel(x: Level, s: string)
    requires |s| >= 3 && forall q :: 0 <= q < 3 ==> ToLower(s[q]) == ToLower(Name(x)[q])
    ensures LevelNamed(s) == Some(x)
  {
    if LevelNamed(s).Some? {
      NamesAreDistinct(s, LevelNamed(s).value, x);
    }
  }

  /** The lines `LOG4ESPP_CONFIGURE` prints, the value read included. */
  function ConfigureMessages(env: Option<string>): seq<string>
  {
    ["configure logger"]
    + match env
      case Some(v) => ["logLevel = " + v]
      case None => ["no logging level specified (use e.g. LOG4ESPP=DEBUG), take default WARN"]
  }

  /** The line a message macro writes, with its prefix; TRACE messages say DEBUG. */
  function Prefix(x: Level): string
  {
    match x
    case Trace => "DEBUG: "
    case Debug => "DEBUG: "
    case Info => "INFO: "
    case Warn => "WARN: "
    case Error => "ERROR: "
    case Fatal => "FATAL: "
    case Off => ""
  }

  /** The logger's run-time level, shared by all loggers of the default back end. */
  class LogClass {
    var logLevel: int

    /** `LOG4ESPP_DEFINITION`: the level starts at 2, that is ERROR. */
    constructor ()
      ensures logLevel == Threshold(Error)
    {
      logLevel := 2;
    }

    /** `LOG4ESPP_X_ON`. */
    predicate On(x: Level)
      reads this
    {
      logLevel >= Threshold(x)
    }

    /** If a level is on, so is every more severe level. */
    lemma OnIsMonotone(x: Level, y: Level)
      requires On(x) && Threshold(y) <= Threshold(x)
      ensures On(y)
    {
    }

    /**
     * `LOG4ESPP_CONFIGURE` with `env` the value of `LOG4ESPP`, if set: the
     * seven comparisons in turn, each assigning its level's threshold; an
     * unset or unrecognised value leaves the level as it was. Returns the
     * lines printed.
     */
    method Configure(env: Option<string>) returns (printed: seq<string>)
      modifies this
      ensures printed == ConfigureMessages(env)
      ensures env.Some? && LevelNamed(env.value).Some? ==> logLevel == Threshold(LevelNamed(env.value).value)
      ensures env.None? || LevelNamed(env.value).None? ==> logLevel == old(logLevel)
    {
      printed := ["configure logger"];
      if env.Some? {
        var v := env.value;
        printed := printed + ["logLevel = " + v];
        EachNameSelectsOnlyItsLevel(v);
        if CaseEq3(v, "TRACE") { logLevel := 6; }
        if CaseEq3(v, "DEBUG") { logLevel := 5; }
        if CaseEq3(v, "INFO") { logLevel := 4; }
        if CaseEq3(v, "WARN") { logLevel := 3; }
        if CaseEq3(v, "ERROR") { logLevel := 2; }
        if CaseEq3(v, "FATAL") { logLevel := 1; }
        if CaseEq3(v, "OFF") { logLevel := 0; }
      } else {
        printed := printed + ["no logging level specified (use e.g. LOG4ESPP=DEBUG), take default WARN"];
      }
    }

    /**
     * `LOG4ESPP_X(logger, msg)`: compiled in only for enabled levels, and
     * then written exactly when the level is on.
     */
    function Message(enabled: set<Level>, x: Level, msg: string): (line: Option<string>)
      reads this
      requires x in MessageLevels
      ensures line.Some? <==> x in enabled && On(x)
      ensures line.Some? ==> line.value == Prefix(x) + msg
    {
      if x in enabled && logLevel >= Threshold(x) then Some(Prefix(x) + msg) else None
    }
  }

  /**
   * A message is written exactly when its level is no more verbose than the
   * most verbose level macro defined and than the run-time level.
   */
  lemma MessageNeedsBothThresholds(log: LogClass, defined: set<Level>, d: Level, x: Level, msg: string)
    requires x in MessageLevels
    requires d in defined && forall z :: z in defined ==> Threshold(z) <= Threshold(d)
    ensures log.Message(EnabledLevels(defined), x, msg).Some? <==> Threshold(x) <= Threshold(d) && Threshold(x) <= log.logLevel
  {
    CascadeEnablesMoreSevere(defined, d);
  }

  /**
   * After configuring with a level's name, that level and every more
   * severe one are on, and every less severe one is off.
   */
  lemma ConfiguredLevelIsOn(log: LogClass, x: Level, y: Level)
    requires log.logLevel == Threshold(x)
    ensures log.On(y) <==> Threshold(y) <= Threshold(x)
  {
  }
}
