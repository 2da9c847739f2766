// The S-Port runtime's command-line parser (_RT.setRuntimeOptions): an
// argument starting with '-' is an option, looked up case-insensitively in a
// fixed else-if chain; four options consume the next argument; the first
// other argument names the source file.  Java's exceptions (an empty
// argument, a missing option value, a malformed -trace number) end the parse
// with the options set so far.

module RuntimeOptions {
  import opened Util
  import Scopes

  /** The boolean options of _RT and _RT.Option. */
  datatype Switch =
    | VERBOSE | DEBUGGING | USE_CONSOLE | CODE_STEP_TRACING | BLOCK_TRACING | GOTOTRACING
    | THREAD_TRACING | LOOM_TRACING | QPS_TRACING | SML_TRACING | USE_VIRTUAL_THREAD

  /** The options that take the following argument as their value. */
  datatype Setting = RuntimeUserDir | Selectors | Listing | Trace

  /** What an option does. */
  datatype Action = SetSwitch(switch: Switch) | Take(setting: Setting) | NoEffect | Unknown

  /** The else-if chain, in source order. */
  const OptionTable: seq<(string, Action)> := [
    ("-VERBOSE", SetSwitch(VERBOSE)),
    ("-DEBUGGING", SetSwitch(DEBUGGING)),
    ("-USE_CONSOLE", SetSwitch(USE_CONSOLE)),
    ("-CODE_STEP_TRACING", SetSwitch(CODE_STEP_TRACING)),
    ("-BLOCK_TRACING", SetSwitch(BLOCK_TRACING)),
    ("-_GOTOTRACING", SetSwitch(GOTOTRACING)),
    ("-THREAD_TRACING", SetSwitch(THREAD_TRACING)),
    ("-LOOM_TRACING", SetSwitch(LOOM_TRACING)),
    ("-QPS_TRACING", SetSwitch(QPS_TRACING)),
    ("-SML_TRACING", SetSwitch(SML_TRACING)),
    ("-USE_VIRTUAL_THREAD", SetSwitch(USE_VIRTUAL_THREAD)),
    ("-RUNTIME_USER_DIR", Take(RuntimeUserDir)),
    ("-noexec", NoEffect),
    ("-nowarn", NoEffect),
    ("-select", Take(Selectors)),
    ("-listing", Take(Listing)),
    ("-keepJava", NoEffect),
    ("-output", NoEffect),
    ("-trace", Take(Trace))
  ]

  /** The first entry whose option equals `arg`, ignoring case. */
  function FirstMatch(table: seq<(string, Action)>, arg: string): (r: Option<nat>)
    ensures r.Some? ==> r.value < |table| && EqualsIgnoreCase(arg, table[r.value].0)
    ensures r.Some? ==> forall k :: 0 <= k < r.value ==> !EqualsIgnoreCase(arg, table[k].0)
    ensures r.None? ==> forall k :: 0 <= k < |table| ==> !EqualsIgnoreCase(arg, table[k].0)
  {
    if table == [] then None
    else if EqualsIgnoreCase(arg, table[0].0) then Some(0)
    else match FirstMatch(table[1..], arg)
      case Some(k) => Some(k + 1)
      case None => None
  }

  /** The branch of the chain an option argument takes. */
  function Classify(arg: string): Action
  {
    match FirstMatch(OptionTable, arg)
    case Some(k) => OptionTable[k].1
    case None => Unknown
  }

  /** The chain never classifies an option as Unknown that one of its entries
      spells, and classifies every other option as Unknown. */
  lemma ClassifyUnknown(arg: string)
    ensures Classify(arg) == Unknown <==> forall k :: 0 <= k < |OptionTable| ==> !EqualsIgnoreCase(arg, OptionTable[k].0)
  {
    var m := FirstMatch(OptionTable, arg);
    if m.Some? {
      assert OptionTable[m.value].1 != Unknown;
    }
  }

  // ---------------------------------------------------------------------------
  // Integer.decode and Integer.parseInt
  // ---------------------------------------------------------------------------

  /** Character.digit on ASCII: the value of `c` in `radix`, if it is a digit there. */
  function DigitValue(c: char, radix: nat): (r: Option<nat>)
    requires radix == 8 || radix == 10 || radix == 16
    ensures r.Some? ==> r.value < radix
  {
    var d: int :=
      if '0' <= c <= '9' then c as int - '0' as int
      else if 'a' <= c <= 'f' then c as int - 'a' as int + 10
      else if 'A' <= c <= 'F' then c as int - 'A' as int + 10
      else radix;
    if d < radix then Some(d) else None
  }

  /** The unsigned value of a non-empty digit string in `radix`. */
  function ParseRadix(s: string, radix: nat): Option<nat>
    requires radix == 8 || radix == 10 || radix == 16
  {
    if s == [] then None
    else
      var last := DigitValue(s[|s| - 1], radix);
      if last.None? then None
      else if |s| == 1 then last
      else match ParseRadix(s[..|s| - 1], radix)
        case Some(v) => Some(v * radix + last.value)
        case None => None
  }

  /** Decimal digits parse to what ParseDigits gives. */
  lemma {:induction false} ParseRadixDecimal(s: string)
    requires s != [] && AllDigits(s)
    ensures ParseRadix(s, 10) == Some(ParseDigits(s))
  {
    if |s| > 1 {
      var init := s[..|s| - 1];
      assert AllDigits(init) by {
        forall i | 0 <= i < |init| ensures IsDigit(init[i]) { assert init[i] == s[i]; }
      }
      ParseRadixDecimal(init);
      assert ParseDigits(s) == ParseDigits(init) * 10 + (s[|s| - 1] as int - '0' as int);
    } else {
      assert s[..0] == [];
    }
  }

  const MinInt := -0x8000_0000
  const MaxInt := 0x7FFF_FFFF

  predicate InIntRange(x: int) { MinInt <= x <= MaxInt }

  /** A signed value that Java's int holds, or the NumberFormatException. */
  function Signed(negative: bool, v: Option<nat>): (r: Option<int>)
    ensures r.Some? ==> InIntRange(r.value)
  {
    if v.None? then None
    else
      var x: int := if negative then 0 - v.value as int else v.value as int;
      if InIntRange(x) then Some(x) else None
  }

  /** Integer.decode: an optional sign, then "0x", "0X" or "#" for hexadecimal,
      a leading "0" (with more after it) for octal, else decimal; a sign after
      the radix prefix, no digits, a non-digit or a value outside int is a
      NumberFormatException (None).  Digits are ASCII. */
  function DecodeInt(nm: string): (r: Option<int>)
    ensures r.Some? ==> InIntRange(r.value)
  {
    if nm == [] then None
    else
      var negative := nm[0] == '-';
      var index := if nm[0] == '-' || nm[0] == '+' then 1 else 0;
      var rest := nm[index..];
      var (radix, digits) :=
        if StartsWith(rest, "0x") || StartsWith(rest, "0X") then (16, rest[2..])
        else if StartsWith(rest, "#") then (16, rest[1..])
        else if StartsWith(rest, "0") && |rest| > 1 then (8, rest[1..])
        else (10, rest);
      if StartsWith(digits, "-") || StartsWith(digits, "+") then None
      else Signed(negative, ParseRadix(digits, radix))
  }

  /** A decimal number without leading zeros decodes to itself: decode undoes
      Java's rendering of an int. */
  lemma DecodeIntRoundTrip(x: int)
    requires InIntRange(x)
    ensures DecodeInt(IntToString(x)) == Some(x)
  {
    var n: nat := if x < 0 then -x else x;
    var d := NatToString(n);
    NatToStringRoundTrip(n);
    ParseRadixDecimal(d);
    assert n == 0 ==> |d| == 1;
    if x < 0 {
      DecodeSignedDecimal(d);
    } else {
      DecodeDecimal(d);
    }
  }

  lemma DecodeDecimal(d: string)
    requires d != [] && AllDigits(d) && (d[0] == '0' ==> |d| == 1)
    ensures DecodeInt(d) == Signed(false, ParseRadix(d, 10))
  {
    DecimalHasNoPrefix(d);
    assert d[0..] == d;
  }

  lemma DecodeSignedDecimal(d: string)
    requires d != [] && AllDigits(d) && (d[0] == '0' ==> |d| == 1)
    ensures DecodeInt("-" + d) == Signed(true, ParseRadix(d, 10))
  {
    DecimalHasNoPrefix(d);
    assert ("-" + d)[1..] == d;
  }

  /** Digits without a leading zero carry no radix prefix and no sign. */
  lemma DecimalHasNoPrefix(d: string)
    requires d != [] && AllDigits(d) && (d[0] == '0' ==> |d| == 1)
    ensures !StartsWith(d, "0x") && !StartsWith(d, "0X") && !StartsWith(d, "#")
    ensures !(StartsWith(d, "0") && |d| > 1)
    ensures !StartsWith(d, "-") && !StartsWith(d, "+")
  {
    assert IsDigit(d[0]);
    if |d| > 1 { assert IsDigit(d[1]); }
  }

  /** Integer.parseInt in radix 10: an optional sign followed by digits. */
  function ParseInt(s: string): (r: Option<int>)
    ensures r.Some? ==> InIntRange(r.value)
  {
    if s == [] then None
    else if s[0] == '-' || s[0] == '+' then Signed(s[0] == '-', ParseRadix(s[1..], 10))
    else Signed(false, ParseRadix(s, 10))
  }

  // ---------------------------------------------------------------------------
  // getJavaVersion and the file name split
  // ---------------------------------------------------------------------------

  /** getJavaVersion on the value of "java.version" (None when the property
      is missing): "1.x" gives the digit x, later versions the first two
      characters as a number, and any exception 0. */
  function JavaVersion(ver: Option<string>): (r: int)
    ensures ver.None? ==> r == 0
  {
    if ver.None? then 0
    else
      var v := ver.value;
      if StartsWith(v, "1.") then
        (if |v| > 2 then v[2] as int - '0' as int else 0)
      else if |v| < 2 then 0
      else match ParseInt(v[..2])
        case Some(n) => n
        case None => 0
  }

  /** A pre-9 version string gives its minor version digit. */
  lemma LegacyJavaVersion(v: string)
    requires |v| > 2 && v[..2] == "1." && IsDigit(v[2])
    ensures JavaVersion(Some(v)) == v[2] as int - '0' as int
    ensures 0 <= JavaVersion(Some(v)) <= 9
  {
  }

  /** A modern version string gives its two leading digits as a number. */
  lemma ModernJavaVersion(v: string)
    requires |v| >= 2 && IsDigit(v[0]) && IsDigit(v[1]) && v[..2] != "1."
    ensures JavaVersion(Some(v)) == (v[0] as int - '0' as int) * 10 + (v[1] as int - '0' as int)
  {
    var p := v[..2];
    assert AllDigits(p) by { assert p[0] == v[0] && p[1] == v[1]; }
    ParseRadixDecimal(p);
    assert p[..1] == [v[0]];
    assert ParseDigits(p[..1]) == v[0] as int - '0' as int by {
      assert p[..1][..0] == [];
    }
  }

  /** A malformed version gives 0, as the catch clause does. */
  lemma MalformedJavaVersion(v: string)
    requires |v| >= 2 && v[..2] != "1." && !IsDigit(v[1])
    ensures JavaVersion(Some(v)) == 0
  {
    var p := v[..2];
    assert p[1] == v[1];
    var s := if p[0] == '-' || p[0] == '+' then p[1..] else p;
    assert s[|s| - 1] == v[1];
  }

  /** The position of the last '/', or -1. */
  function LastSlash(s: string): (r: int)
    ensures -1 <= r < |s|
    ensures r >= 0 ==> s[r] == '/'
    ensures forall k :: r < k < |s| ==> s[k] != '/'
  {
    if s == [] then -1
    else if s[|s| - 1] == '/' then |s| - 1
    else LastSlash(s[..|s| - 1])
  }

  /** File.getName on a normalised path: what follows the last separator. */
  function FileName(path: string): string
  {
    path[LastSlash(path) + 1..]
  }

  /** File.getParent on a normalised path: what precedes the last separator,
      the root for a file in the root, and null without a separator. */
  function FileParent(path: string): Option<string>
  {
    var k := LastSlash(path);
    if k < 0 then None
    else if k == 0 then Some("/")
    else Some(path[..k])
  }

  /** The name holds no separator, and parent, separator and name give back
      the path. */
  lemma FileSplit(path: string)
    ensures '/' !in FileName(path)
    ensures LastSlash(path) < 0 ==> FileParent(path).None? && FileName(path) == path
    ensures LastSlash(path) == 0 ==> FileParent(path) == Some("/") && "/" + FileName(path) == path
    ensures LastSlash(path) > 0 ==> FileParent(path) == Some(path[..LastSlash(path)])
    ensures LastSlash(path) > 0 ==> path[..LastSlash(path)] + "/" + FileName(path) == path
  {
    var k := LastSlash(path);
    var n := path[k + 1..];
    assert n == FileName(path);
    forall i | 0 <= i < |n| ensures n[i] != '/' { assert n[i] == path[k + 1 + i]; }
    if k >= 0 {
      assert path == path[..k] + [path[k]] + n;
    } else {
      assert n == path[0..];
    }
  }

  // ---------------------------------------------------------------------------
  // The parse
  // ---------------------------------------------------------------------------

  /** The Java exception that ends the parse. */
  datatype Crash =
    | EmptyArgument(index: nat)      // arg.charAt(0) on ""
    | MissingValue(option: string)   // args[++i] past the end
    | BadNumber(text: string)        // Integer.decode

  /** The static options the parser sets. */
  datatype Options = Options(
    switches: set<Switch>,
    runtimeUserDir: string,
    selectors: string,
    listingFileName: string,
    traceLevel: int,
    sourceDirName: Option<string>,
    moduleName: string,
    errors: seq<string>)

  function UnknownMessage(arg: string): string
  {
    "Unknown option " + arg
  }

  const MultipleFilesMessage := "multiple input files specified"

  /** One turn of the loop at argument `i`, `fileSeen` being whether `file`
      is set: the next index, the new flag and options, or the exception. */
  datatype Turn = Next(i: nat, fileSeen: bool, opts: Options) | Stop(crash: Crash, opts: Options)

  function Step(args: seq<string>, i: nat, fileSeen: bool, s: Options): (r: Turn)
    requires i < |args|
    ensures r.Next? ==> i < r.i <= |args|
    ensures s.switches <= r.opts.switches && s.errors <= r.opts.errors
  {
    var arg := args[i];
    if arg == [] then Stop(EmptyArgument(i), s)
    else if arg[0] == '-' then OptionStep(args, i, fileSeen, s)
    else if !fileSeen then
      Next(i + 1, true, s.(sourceDirName := FileParent(arg), moduleName := FileName(arg)))
    else Next(i + 1, fileSeen, s.(errors := s.errors + [MultipleFilesMessage]))
  }

  /** The turn for an option argument. */
  function OptionStep(args: seq<string>, i: nat, fileSeen: bool, s: Options): (r: Turn)
    requires i < |args|
    ensures r.Next? ==> i < r.i <= |args| && r.fileSeen == fileSeen
    ensures s.switches <= r.opts.switches && s.errors <= r.opts.errors
    ensures r.opts.moduleName == s.moduleName && r.opts.sourceDirName == s.sourceDirName
  {
    var arg := args[i];
    match Classify(arg)
    case SetSwitch(f) => Next(i + 1, fileSeen, s.(switches := s.switches + {f}))
    case NoEffect => Next(i + 1, fileSeen, s)
    case Unknown => Next(i + 1, fileSeen, s.(errors := s.errors + [UnknownMessage(arg)]))
    case Take(setting) =>
      if i + 1 == |args| then Stop(MissingValue(arg), s)
      else TakeStep(args[i + 1], i + 2, fileSeen, s, setting)
  }

  /** The turn for an option that takes the value `v`, resuming at `next`. */
  function TakeStep(v: string, next: nat, fileSeen: bool, s: Options, setting: Setting): (r: Turn)
    ensures r.Next? ==> r.i == next && r.fileSeen == fileSeen
    ensures r.opts.switches == s.switches && r.opts.errors == s.errors
    ensures r.opts.moduleName == s.moduleName && r.opts.sourceDirName == s.sourceDirName
    ensures r.Stop? <==> setting == Trace && DecodeInt(v).None?
  {
    match setting
    case RuntimeUserDir => Next(next, fileSeen, s.(runtimeUserDir := v))
    case Selectors => Next(next, fileSeen, s.(selectors := v))
    case Listing => Next(next, fileSeen, s.(listingFileName := v))
    case Trace =>
      match DecodeInt(v)
      case Some(n) => Next(next, fileSeen, s.(traceLevel := n))
      case None => Stop(BadNumber(v), s)
  }

  /** The options after the arguments from `i` on, and the exception if one
      ends the parse. */
  function Run(args: seq<string>, i: nat, fileSeen: bool, s: Options): (Options, Option<Crash>)
    requires i <= |args|
    decreases |args| - i
  {
    if i == |args| then (s, None)
    else match Step(args, i, fileSeen, s)
      case Stop(c, o) => (o, Some(c))
      case Next(j, f, o) => Run(args, j, f, o)
  }

  /** Options are only ever switched on, and errors only appended. */
  lemma {:induction false} RunOnlyAdds(args: seq<string>, i: nat, fileSeen: bool, s: Options)
    requires i <= |args|
    ensures s.switches <= Run(args, i, fileSeen, s).0.switches
    ensures s.errors <= Run(args, i, fileSeen, s).0.errors
    decreases |args| - i
  {
    if i < |args| {
      match Step(args, i, fileSeen, s)
      case Stop(c, o) =>
      case Next(j, f, o) => RunOnlyAdds(args, j, f, o);
    }
  }

  /** Once a file is named, no later argument changes the file options. */
  lemma {:induction false} FileSeenKeepsFile(args: seq<string>, i: nat, s: Options)
    requires i <= |args|
    ensures Run(args, i, true, s).0.sourceDirName == s.sourceDirName
    ensures Run(args, i, true, s).0.moduleName == s.moduleName
    decreases |args| - i
  {
    if i < |args| {
      match Step(args, i, true, s)
      case Stop(c, o) =>
      case Next(j, f, o) =>
        assert f;
        FileSeenKeepsFile(args, j, o);
    }
  }

  /** The first file argument names the module, whatever follows it. */
  lemma FirstFileWins(args: seq<string>, i: nat, s: Options)
    requires i < |args| && args[i] != [] && args[i][0] != '-'
    ensures Run(args, i, false, s).0.moduleName == FileName(args[i])
    ensures Run(args, i, false, s).0.sourceDirName == FileParent(args[i])
  {
    var o := s.(sourceDirName := FileParent(args[i]), moduleName := FileName(args[i]));
    assert Step(args, i, false, s) == Next(i + 1, true, o);
    FileSeenKeepsFile(args, i + 1, o);
  }

  /** A recognised switch is on at the end, unless an exception ends the
      parse first (then it is on at the crash, which keeps it too). */
  lemma SwitchStaysOn(args: seq<string>, i: nat, fileSeen: bool, s: Options)
    requires i < |args| && args[i] != [] && args[i][0] == '-'
    requires Classify(args[i]).SetSwitch?
    ensures Classify(args[i]).switch in Run(args, i, fileSeen, s).0.switches
  {
    var f := Classify(args[i]).switch;
    RunOnlyAdds(args, i + 1, fileSeen, s.(switches := s.switches + {f}));
  }

  /** An unrecognised option is reported and the parse goes on with the next
      argument; nothing else changes. */
  lemma UnknownOptionReported(args: seq<string>, i: nat, fileSeen: bool, s: Options)
    requires i < |args| && args[i] != [] && args[i][0] == '-'
    requires forall k :: 0 <= k < |OptionTable| ==> !EqualsIgnoreCase(args[i], OptionTable[k].0)
    ensures Run(args, i, fileSeen, s) ==
      Run(args, i + 1, fileSeen, s.(errors := s.errors + [UnknownMessage(args[i])]))
  {
    ClassifyUnknown(args[i]);
  }

  /** An option with a value consumes the next argument, so it is never taken
      for a file name; as the last argument it is an exception. */
  lemma ValueOptionConsumes(args: seq<string>, i: nat, fileSeen: bool, s: Options)
    requires i < |args| && args[i] != [] && args[i][0] == '-'
    requires Classify(args[i]).Take?
    ensures i + 1 == |args| ==> Run(args, i, fileSeen, s) == (s, Some(MissingValue(args[i])))
    ensures i + 1 < |args| ==> match Step(args, i, fileSeen, s)
      case Next(j, f, o) => j == i + 2 && f == fileSeen && o.moduleName == s.moduleName
      case Stop(c, o) => c == BadNumber(args[i + 1])
  {
  }

  /** An empty argument is always an exception. */
  lemma EmptyArgumentCrashes(args: seq<string>, i: nat, fileSeen: bool, s: Options)
    requires i < |args| && args[i] == []
    ensures Run(args, i, fileSeen, s) == (s, Some(EmptyArgument(i)))
  {
  }

  /** The static option fields of _RT, _RT.Option and _RT.SPORT_Option. */
  class Settings {
    var switches: set<Switch>
    var runtimeUserDir: string
    var selectors: string
    var listingFileName: string
    var traceLevel: int
    var sourceDirName: Option<string>
    var moduleName: string
    /** The messages `error` has shown. */
    var errors: seq<string>

    function State(): Options
      reads this
    {
      Options(switches, runtimeUserDir, selectors, listingFileName, traceLevel,
              sourceDirName, moduleName, errors)
    }

    /** The initial values of the static fields. */
    constructor ()
      ensures State() == Options({USE_VIRTUAL_THREAD}, "", "AZ", "sysout", 0,
        Some("C:\\GitHub\\SimulaCompiler\\Simula\\src\\sport\\rts"), "ModuleName", [])
    {
      switches := {USE_VIRTUAL_THREAD};
      runtimeUserDir := "";
      selectors := "AZ";
      listingFileName := "sysout";
      traceLevel := 0;
      sourceDirName := Some("C:\\GitHub\\SimulaCompiler\\Simula\\src\\sport\\rts");
      moduleName := "ModuleName";
      errors := [];
    }

    /** SPORT_Option.getSourceFileName: the directory, a backslash and the
        module name (Java prints a null directory as "null"). */
    function SourceFileName(): (r: string)
      reads this
      ensures var d := Scopes.OrNull(sourceDirName);
        |r| == |d| + 1 + |moduleName| && r[..|d|] == d && r[|d|] == '\\' && r[|d| + 1..] == moduleName
    {
      Scopes.OrNull(sourceDirName) + "\\" + moduleName
    }

    /** setRuntimeOptions: the options Run gives, and the exception that ends
        the parse early, if any. */
    method SetRuntimeOptions(args: seq<string>) returns (crash: Option<Crash>)
      modifies this
      ensures (State(), crash) == Run(args, 0, false, old(State()))
    {
      var fileSeen := false;
      var i := 0;
      while i < |args|
        invariant 0 <= i <= |args|
        invariant Run(args, i, fileSeen, State()) == Run(args, 0, false, old(State()))
        decreases |args| - i
      {
        var next, seen, c := Turn(args, i, fileSeen);
        if c.Some? {
          return c;
        }
        i, fileSeen := next, seen;
      }
      crash := None;
    }

    /** One turn of the loop: the statements for `args[i]`. */
    method Turn(args: seq<string>, i: nat, fileSeen: bool) returns (next: nat, seen: bool, crash: Option<Crash>)
      requires i < |args|
      modifies this
      ensures match Step(args, i, fileSeen, old(State()))
        case Next(j, f, o) => crash.None? && next == j && seen == f && State() == o
        case Stop(c, o) => crash == Some(c) && State() == o
    {
      var arg := args[i];
      next, seen, crash := i + 1, fileSeen, None;
      if arg == [] {
        crash := Some(EmptyArgument(i));
      } else if arg[0] == '-' {
        next, crash := Option(args, i, fileSeen);
      } else if !fileSeen {
        seen := true;
        sourceDirName := FileParent(arg);
        moduleName := FileName(arg);
      } else {
        errors := errors + [MultipleFilesMessage];
      }
    }

    /** The else-if chain for the option `args[i]`. */
    method Option(args: seq<string>, i: nat, ghost fileSeen: bool) returns (next: nat, crash: Option<Crash>)
      requires i < |args|
      modifies this
      ensures match OptionStep(args, i, fileSeen, old(State()))
        case Next(j, f, o) => crash.None? && next == j && State() == o
        case Stop(c, o) => crash == Some(c) && State() == o
    {
      var arg := args[i];
      next, crash := i + 1, None;
      match Classify(arg)
      case SetSwitch(f) => switches := switches + {f};
      case NoEffect =>
      case Unknown => errors := errors + [UnknownMessage(arg)];
      case Take(setting) =>
        if i + 1 == |args| {
          crash := Some(MissingValue(arg));
        } else {
          next := i + 2;
          crash := TakeValue(args[i + 1], setting, next, fileSeen);
        }
    }

    /** `args[++i]` stored into the option's field. */
    method TakeValue(v: string, setting: Setting, ghost next: nat, ghost fileSeen: bool) returns (crash: Option<Crash>)
      modifies this
      ensures match TakeStep(v, next, fileSeen, old(State()), setting)
        case Next(j, f, o) => crash.None? && State() == o
        case Stop(c, o) => crash == Some(c) && State() == o
    {
      crash := None;
      match setting
      case RuntimeUserDir => runtimeUserDir := v;
      case Selectors => selectors := v;
      case Listing => listingFileName := v;
      case Trace =>
        var n := DecodeInt(v);
        if n.None? {
          crash := Some(BadNumber(v));
        } else {
          traceLevel := n.value;
        }
    }
  }
}
