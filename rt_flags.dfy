// The runtime flag parser of RT.java: every argument is compared, ignoring
// case, with each known flag, and a match switches that option on.  Nothing
// is ever switched off and unknown arguments are ignored, so the outcome
// depends only on which flags occur among the arguments.

module RuntimeFlags {
  import opened Util

  /** `arg.equalsIgnoreCase(flag)`. */
  predicate Names(arg: string, flag: string)
  {
    EqualsIgnoreCase(arg, flag)
  }

  /** Some argument equals `flag`, ignoring case. */
  predicate Mentions(args: seq<string>, flag: string)
  {
    exists i :: 0 <= i < |args| && Names(args[i], flag)
  }

  lemma MentionsSnoc(args: seq<string>, a: string, flag: string)
    ensures Mentions(args + [a], flag) <==> Mentions(args, flag) || Names(a, flag)
  {
    if Names(a, flag) {
      assert (args + [a])[|args|] == a;
    }
    if Mentions(args, flag) {
      var i :| 0 <= i < |args| && Names(args[i], flag);
      assert (args + [a])[i] == args[i];
    }
  }

  /** The flags found depend only on the set of arguments, not on their
      order or repetition. */
  lemma MentionsDependsOnlyOnSet(a: seq<string>, b: seq<string>, flag: string)
    requires forall x :: x in a <==> x in b
    ensures Mentions(a, flag) <==> Mentions(b, flag)
  {
    if Mentions(a, flag) {
      var i :| 0 <= i < |a| && Names(a[i], flag);
      assert a[i] in b;
      var j :| 0 <= j < |b| && b[j] == a[i];
    }
    if Mentions(b, flag) {
      var j :| 0 <= j < |b| && Names(b[j], flag);
      assert b[j] in a;
      var i :| 0 <= i < |a| && a[i] == b[j];
    }
  }

  /** The static boolean options of RT and RT.Option. */
  datatype Flag =
    | VERBOSE | DEBUGGING | USE_CONSOLE | CODE_STEP_TRACING | BLOCK_TRACING
    | GOTO_TRACING | THREAD_TRACING | LOOM_TRACING | QPS_TRACING | SML_TRACING

  const AllFlags: set<Flag> := {VERBOSE, DEBUGGING, USE_CONSOLE, CODE_STEP_TRACING, BLOCK_TRACING,
                                GOTO_TRACING, THREAD_TRACING, LOOM_TRACING, QPS_TRACING, SML_TRACING}

  lemma AllFlagsComplete(f: Flag)
    ensures f in AllFlags
  {
  }

  /** The command-line spelling of each option. */
  function FlagName(f: Flag): string
  {
    match f
    case VERBOSE => "-VERBOSE"
    case DEBUGGING => "-DEBUGGING"
    case USE_CONSOLE => "-USE_CONSOLE"
    case CODE_STEP_TRACING => "-CODE_STEP_TRACING"
    case BLOCK_TRACING => "-BLOCK_TRACING"
    case GOTO_TRACING => "-GOTO_TRACING"
    case THREAD_TRACING => "-THREAD_TRACING"
    case LOOM_TRACING => "-LOOM_TRACING"
    case QPS_TRACING => "-QPS_TRACING"
    case SML_TRACING => "-SML_TRACING"
  }

  /** The options one argument switches on: the ten independent `if`s. */
  function FlagsNamed(arg: string): set<Flag>
  {
    set f | f in AllFlags && Names(arg, FlagName(f))
  }

  /** An argument switches an option on iff it spells that option. */
  lemma FlagsNamedMeans(arg: string, f: Flag)
    ensures f in FlagsNamed(arg) <==> EqualsIgnoreCase(arg, FlagName(f))
  {
    AllFlagsComplete(f);
  }

  /** The options some argument switches on. */
  function FlagsMentioned(args: seq<string>): set<Flag>
  {
    set f | f in AllFlags && Mentions(args, FlagName(f))
  }

  /** An option is among those mentioned iff some argument names it. */
  lemma FlagsMentionedMeans(args: seq<string>, f: Flag)
    ensures f in FlagsMentioned(args) <==> exists i :: 0 <= i < |args| && Names(args[i], FlagName(f))
  {
    AllFlagsComplete(f);
  }

  /** One more argument adds exactly the options it names. */
  lemma FlagsMentionedSnoc(args: seq<string>, a: string)
    ensures FlagsMentioned(args + [a]) == FlagsMentioned(args) + FlagsNamed(a)
  {
    forall f ensures Mentions(args + [a], FlagName(f)) <==> Mentions(args, FlagName(f)) || Names(a, FlagName(f)) {
      MentionsSnoc(args, a, FlagName(f));
    }
  }

  lemma FlagsMentionedPrefix(args: seq<string>, i: nat)
    requires i < |args|
    ensures FlagsMentioned(args[..i + 1]) == FlagsMentioned(args[..i]) + FlagsNamed(args[i])
  {
    assert args[..i + 1] == args[..i] + [args[i]];
    FlagsMentionedSnoc(args[..i], args[i]);
  }

  /** An argument that matches no flag changes nothing. */
  lemma UnknownArgumentIgnored(args: seq<string>, a: string)
    requires forall f :: !Names(a, FlagName(f))
    ensures FlagsMentioned(args + [a]) == FlagsMentioned(args)
  {
    FlagsMentionedSnoc(args, a);
  }

  /** Reordering or repeating the arguments gives the same options. */
  lemma FlagsDependOnlyOnSet(a: seq<string>, b: seq<string>)
    requires forall x :: x in a <==> x in b
    ensures FlagsMentioned(a) == FlagsMentioned(b)
  {
    forall f ensures Mentions(a, FlagName(f)) <==> Mentions(b, FlagName(f)) {
      MentionsDependsOnlyOnSet(a, b, FlagName(f));
    }
  }

  /** The options that are true. */
  class Flags {
    var on: set<Flag>

    /** Every option starts false. */
    constructor ()
      ensures on == {}
    {
      on := {};
    }

    /** setRuntimeOptions: an option is true afterwards iff it was before or
        some argument names it; none is reset. */
    method SetRuntimeOptions(args: seq<string>)
      modifies this
      ensures on == old(on) + FlagsMentioned(args)
    {
      for i := 0 to |args|
        invariant on == old(on) + FlagsMentioned(args[..i])
      {
        on := on + FlagsNamed(args[i]);
        FlagsMentionedPrefix(args, i);
      }
      assert args[..|args|] == args;
    }
  }

  const NoneCheckMessage := "NONE-CHECK FAILED"

  /** NoneCheck: the exception it throws, exactly for none. */
  function NoneCheck<T>(x: Option<T>): (r: Option<string>)
    ensures r.Some? <==> x.None?
    ensures r.Some? ==> r.value == NoneCheckMessage
  {
    if x.None? then Some(NoneCheckMessage) else None
  }
}
