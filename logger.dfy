/**
 * The level filter of `hackrf_mqtt::logger`: the ordered `LogLevel` enum,
 * the case-insensitive level parser, one translation unit's current level and
 * the decision, inside `log`, whether a record is written and to which
 * stream. Timestamps and message formatting are not part of this model.
 */
module Logger {

  datatype LogLevel = Debug | Info | Warning | Error | None

  /** The enumerator's underlying value: DEBUG = 0, ..., NONE = 4. */
  function Rank(l: LogLevel): (n: nat)
    ensures n < 5
  {
    match l
    case Debug => 0
    case Info => 1
    case Warning => 2
    case Error => 3
    case None => 4
  }

  /**
   * `a >= b` on the scoped enum, which compares underlying values: every
   * level reaches itself and DEBUG, NONE reaches every level, and only
   * DEBUG reaches nothing above DEBUG.
   */
  function AtLeast(a: LogLevel, b: LogLevel): (r: bool)
    ensures a == b ==> r
    ensures b == Debug || a == None ==> r
    ensures a == Debug ==> (r <==> b == Debug)
  {
    Rank(a) >= Rank(b)
  }

  /** The levels form a strict chain DEBUG < INFO < WARNING < ERROR < NONE. */
  lemma LevelsTotallyOrdered(a: LogLevel, b: LogLevel)
    ensures AtLeast(a, b) || AtLeast(b, a)
    ensures AtLeast(a, b) && AtLeast(b, a) ==> a == b
    ensures !AtLeast(Debug, Info) && !AtLeast(Info, Warning) && !AtLeast(Warning, Error) && !AtLeast(Error, None)
  {
  }

  /**
   * The filter is upward closed: whatever reaches the output at one level
   * also does at every higher level, and raising the current level never
   * lets more through.
   */
  lemma FilterUpwardClosed(level: LogLevel, higher: LogLevel, current: LogLevel, raised: LogLevel)
    requires AtLeast(higher, level) && AtLeast(raised, current)
    ensures AtLeast(level, current) ==> AtLeast(higher, current)
    ensures AtLeast(level, raised) ==> AtLeast(level, current)
  {
  }

  /** The upper-case spelling the parser accepts for each level. */
  function Name(l: LogLevel): string {
    match l
    case Debug => "DEBUG"
    case Info => "INFO"
    case Warning => "WARNING"
    case Error => "ERROR"
    case None => "NONE"
  }

  /**
   * `::toupper` in the "C" locale: the result is never a lower-case letter,
   * it is an upper-case letter exactly when `c` is a letter of either case,
   * and everything other than 'a'..'z' is left alone.
   */
  function UpperChar(c: char): (u: char)
    ensures !('a' <= u <= 'z')
    ensures 'A' <= u <= 'Z' <==> 'a' <= c <= 'z' || 'A' <= c <= 'Z'
    ensures !('a' <= c <= 'z') ==> u == c
    ensures 'a' <= c <= 'z' ==> u as int - 'A' as int == c as int - 'a' as int
  {
    if 'a' <= c <= 'z' then (c as int - 32) as char else c
  }

  /** Each lower-case letter becomes its own upper-case letter, position by position in the alphabet. */
  lemma UpperCaseAlphabet()
    ensures forall i :: 0 <= i < 26 ==>
      UpperChar("abcdefghijklmnopqrstuvwxyz"[i]) == "ABCDEFGHIJKLMNOPQRSTUVWXYZ"[i]
  {
  }

  /** The string after `std::transform(..., ::toupper)`. */
  function ToUpper(s: string): (r: string)
    ensures |r| == |s|
    ensures forall i :: 0 <= i < |s| ==> r[i] == UpperChar(s[i])
  {
    if s == [] then [] else [UpperChar(s[0])] + ToUpper(s[1..])
  }

  /** `a` and `b` are the same string up to ASCII letter case. */
  predicate SameIgnoringCase(a: string, b: string) {
    |a| == |b| && forall i :: 0 <= i < |a| ==> UpperChar(a[i]) == UpperChar(b[i])
  }

  /**
   * `string_to_log_level`: a level name in any letter case, otherwise INFO.
   * Whatever it returns other than INFO is the level whose name the
   * upper-cased input spells.
   */
  function StringToLogLevel(s: string): (l: LogLevel)
    ensures l == Info || ToUpper(s) == Name(l)
  {
    var u := ToUpper(s);
    if u == "DEBUG" then Debug
    else if u == "INFO" then Info
    else if u == "WARNING" then Warning
    else if u == "ERROR" then Error
    else if u == "NONE" then None
    else Info
  }

  /** Upper-casing `s` yields the name exactly when `s` spells it in any case. */
  lemma ToUpperMatchesName(s: string, l: LogLevel)
    ensures ToUpper(s) == Name(l) <==> SameIgnoringCase(s, Name(l))
  {
    var n := Name(l);
    NameIsUpperCase(l);
    if SameIgnoringCase(s, n) {
      assert forall i :: 0 <= i < |s| ==> ToUpper(s)[i] == UpperChar(n[i]) == n[i];
    }
  }

  /** Every level name is spelled in upper-case letters only. */
  lemma NameIsUpperCase(l: LogLevel)
    ensures forall i :: 0 <= i < |Name(l)| ==> 'A' <= Name(l)[i] <= 'Z'
  {
  }

  /** Every level name, whatever its letter case, parses to its level. */
  lemma ParseRecognisesNames(s: string, l: LogLevel)
    requires SameIgnoringCase(s, Name(l))
    ensures StringToLogLevel(s) == l
  {
    ToUpperMatchesName(s, l);
  }

  /** A string that spells no level name in any case parses to INFO. */
  lemma ParseDefaultsToInfo(s: string)
    requires forall l :: !SameIgnoringCase(s, Name(l))
    ensures StringToLogLevel(s) == Info
  {
    ToUpperMatchesName(s, Debug);
    ToUpperMatchesName(s, Info);
    ToUpperMatchesName(s, Warning);
    ToUpperMatchesName(s, Error);
    ToUpperMatchesName(s, None);
  }

  /** The converse: a result other than INFO comes only from that level's name. */
  lemma ParseResultSpelled(s: string)
    requires StringToLogLevel(s) != Info
    ensures SameIgnoringCase(s, Name(StringToLogLevel(s)))
  {
    ToUpperMatchesName(s, StringToLogLevel(s));
  }

  /** The parser ignores letter case altogether. */
  lemma ParseIgnoresCase(s: string, t: string)
    requires SameIgnoringCase(s, t)
    ensures StringToLogLevel(s) == StringToLogLevel(t)
  {
  }

  /** The macros' level tags: "WARN", the tag of LOG_WARN, is not a level name and parses to INFO. */
  lemma WarnTagIsNotALevel()
    ensures StringToLogLevel("WARN") == Info && StringToLogLevel("warn") == Info
  {
    assert ToUpper("WARN") == "WARN" && ToUpper("warn") == "WARN";
  }

  /** Level names in lower, capitalised and mixed case parse to their level. */
  lemma ParseMixedCaseExamples()
    ensures StringToLogLevel("debug") == Debug && StringToLogLevel("Error") == Error
    ensures StringToLogLevel("none") == None && StringToLogLevel("Info") == Info
  {
    assert ToUpper("debug") == "DEBUG" && ToUpper("Error") == "ERROR";
    assert ToUpper("none") == "NONE" && ToUpper("Info") == "INFO";
  }

  /** Alternating case is upper-cased letter by letter. */
  lemma ParseAlternatingCase()
    ensures StringToLogLevel("wArNiNg") == Warning
  {
    assert ToUpper("wArNiNg") == "WARNING";
  }

  /** Where `log` writes a record: nowhere, standard output or standard error. */
  datatype Destination = Suppressed | StdOut | StdErr

  /**
   * The output stream a record of `level` goes to once it passes the
   * filter: standard error for the severe levels WARNING and ERROR,
   * standard output for the rest.
   */
  function StreamFor(level: LogLevel): (d: Destination)
    ensures d != Suppressed
    ensures d == StdErr <==> AtLeast(level, Warning) && level != None
  {
    if level == Error || level == Warning then StdErr else StdOut
  }

  /**
   * One translation unit's `current_log_level`. The variable is declared
   * `static` in the header, so every source file that includes it holds a
   * copy of its own; this class is one such copy.
   */
  class LoggerState {
    var currentLevel: LogLevel

    /** The static initialiser: INFO until `init` is called. */
    constructor ()
      ensures currentLevel == Info
    {
      currentLevel := Info;
    }

    method Init(level: LogLevel)
      modifies this
      ensures currentLevel == level
    {
      currentLevel := level;
    }

    /** `init(const std::string&)`: the level the parser gives for `levelStr`. */
    method InitFromString(levelStr: string)
      modifies this
      ensures currentLevel == StringToLogLevel(levelStr)
    {
      Init(StringToLogLevel(levelStr));
    }

    /** The filter and the stream choice of `log`. */
    method Log(level: LogLevel) returns (d: Destination)
      ensures d != Suppressed <==> AtLeast(level, currentLevel)
      ensures d == StdErr <==> d != Suppressed && (level == Error || level == Warning)
      ensures currentLevel == None ==> (level != None <==> d == Suppressed)
    {
      if Rank(level) >= Rank(currentLevel) {
        d := StreamFor(level);
      } else {
        d := Suppressed;
      }
    }
  }
}
