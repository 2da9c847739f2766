// Three statements of the compiler (GotoStatement.java, BlockStatement.java,
// SwitchStatement.java): each is checked once, then coded as lines of Java.
// The code a statement emits is returned as a sequence of lines; the lines a
// nested statement or block emits are passed in, since their coding is not
// part of these nodes.

module Statements {
  import opened Util
  import opened Types
  import opened Scopes
  import opened DeclarationScopes
  import opened BlockDeclarations
  import opened ClassDeclarations
  import opened Expressions

  // ---------------------------------------------------------------------------
  // GOTO
  // ---------------------------------------------------------------------------

  /** The line a goto is coded as: a quasi label in a standard class (printed
      by its source form), otherwise an evaluated label (by its Java code). */
  function GotoLine(target: string, evaluated: bool): string
  {
    "GOTO(" + target + (if evaluated then "); // GOTO EVALUATED LABEL" else "); // GOTO QUASI LABEL")
  }

  /** The line tells how the label was coded and what the label was. */
  lemma GotoLineInjective(t1: string, e1: bool, t2: string, e2: bool)
    requires GotoLine(t1, e1) == GotoLine(t2, e2)
    ensures e1 == e2 && t1 == t2
  {
    var l := GotoLine(t1, e1);
    var s1 := if e1 then "); // GOTO EVALUATED LABEL" else "); // GOTO QUASI LABEL";
    var s2 := if e2 then "); // GOTO EVALUATED LABEL" else "); // GOTO QUASI LABEL";
    assert l == ("GOTO(" + t1) + s1 == ("GOTO(" + t2) + s2;
    Tail("GOTO(" + t1, s1, 15);
    Tail("GOTO(" + t2, s2, 15);
    assert s1[|s1| - 15] == (if e1 then 'E' else 'O');
    assert s2[|s2| - 15] == (if e2 then 'E' else 'O');
    assert e1 == e2;
    assert t1 == l[5..|l| - |s1|] == t2;
  }

  lemma Tail(x: string, y: string, n: nat)
    requires n <= |y|
    ensures (x + y)[|x + y| - n..] == y[|y| - n..]
  {
  }

  class GotoStatement {
    const target: Expr
    var checked: bool
    /** label.backLink == this: the label is coded as part of a statement. */
    var backLinked: bool

    /** A checked goto has its label linked back. */
    ghost predicate Valid()
      reads this
    {
      checked ==> backLinked
    }

    constructor (e: Expr)
      ensures target == e && !checked && !backLinked && Valid()
    {
      target := e;
      checked := false;
      backLinked := false;
    }

    /** doChecking: the first call links the label back to the statement and
        marks it checked; later calls change nothing. */
    method DoChecking()
      requires Valid()
      modifies this
      ensures Valid() && checked && backLinked
      ensures old(checked) ==> backLinked == old(backLinked)
    {
      if checked {
        return;
      }
      backLinked := true;
      checked := true;
    }

    /** doJavaCoding: None where the invariant that an evaluated label has
        type LABEL fails, which the compiler reports as an internal error. */
    function JavaCoding(standardClass: bool): (r: Option<string>)
      reads this
      requires checked
      ensures standardClass ==> r == Some(GotoLine(target.image, false))
      ensures !standardClass ==> (r.Some? <==> target.typ == Some(Type.Label))
      ensures !standardClass && r.Some? ==> r.value == GotoLine(target.code, true)
    {
      if standardClass then Some(GotoLine(target.image, false))
      else if target.typ != Some(Type.Label) then None
      else Some(GotoLine(target.code, true))
    }

    /** toString: "GOTO " and the label. */
    function ToString(): (r: string)
      ensures StartsWith(r, "GOTO ") && r[5..] == target.image
    {
      "GOTO " + target.image
    }
  }

  /** The Java line of a goto gives back the label's code and whether it is
      a quasi label. */
  lemma GotoCodingRecoversLabel(g: GotoStatement, h: GotoStatement, standardClass: bool)
    requires g.checked && h.checked
    requires g.JavaCoding(standardClass).Some? && g.JavaCoding(standardClass) == h.JavaCoding(standardClass)
    ensures standardClass ==> g.target.image == h.target.image
    ensures !standardClass ==> g.target.code == h.target.code
  {
    if standardClass {
      GotoLineInjective(g.target.image, false, h.target.image, false);
    } else {
      GotoLineInjective(g.target.code, true, h.target.code, true);
    }
  }

  // ---------------------------------------------------------------------------
  // Block statements
  // ---------------------------------------------------------------------------

  /** The line that instantiates and runs a block: its class, the static
      link followed by the prefix's actual parameters, and _START() for a
      prefixed block whose class uses detach, else _STM(). */
  function InstantiationLine(javaId: string, staticLink: string, args: seq<string>, start: bool): string
  {
    "new " + javaId + "(" + Join([staticLink] + args, ",") + ")" + (if start then "._START();" else "._STM();")
  }

  /** With no commas inside the arguments, the static link and the
      arguments can be read back from the parenthesised list. */
  lemma InstantiationArgumentsSplit(a: seq<Scope>, c: nat, current: nat, args: seq<string>)
    requires c < |a| && current < |a|
    requires forall i :: 0 <= i < |args| ==> ',' !in args[i]
    ensures Split(Join([CtxOf(a, c, current)] + args, ","), ',') == [CtxOf(a, c, current)] + args
  {
    CtxOfHasNoComma(a, c, current);
    SplitJoinConcat([CtxOf(a, c, current)], args, ',');
  }

  class BlockStatement {
    /** The block declaration, an index into the scope arena. */
    const block: nat
    var checked: bool

    constructor (b: nat)
      ensures block == b && !checked
    {
      block := b;
      checked := false;
    }

    /** doChecking: the first call checks the block declaration; later calls
        change nothing. */
    method DoChecking(st: Compilation)
      requires st.Valid() && block < |st.scopes| && st.scopes[block].declaredIn.Some?
      modifies this, st
      ensures checked && st.Valid()
      ensures old(checked) ==> unchanged(st)
      ensures !old(checked) && !old(st.scopes[block].checked) ==>
        CheckedFrom(old(st.scopes), st.scopes, block, old(st.currentBlockLevel))
      ensures st.currentBlockLevel == old(st.currentBlockLevel)
    {
      if checked {
        return;
      }
      BlockDoChecking(st, block);
      checked := true;
    }

    /** doJavaCoding: a compound statement emits only the block's own code;
        any other block is first instantiated and started by one line, with
        _START() for a prefixed block whose class or a prefix class of it
        uses detach, and _STM() otherwise.
        `args` are the codes of the block prefix's checked actual parameters
        (none when the block has no prefix or the prefix no arguments). */
    method JavaCoding(a: seq<Scope>, current: nat, javaId: string, args: seq<string>, blockCode: seq<string>)
      returns (lines: seq<string>)
      requires Valid(a) && checked && block < |a| && current < |a|
      requires a[block].blockKind != CompoundStatement ==>
        a[block].declaredIn.Some? && a[block].declaredIn.value < |a|
      ensures a[block].blockKind == CompoundStatement ==> lines == blockCode
      ensures a[block].blockKind != CompoundStatement ==>
        lines == [InstantiationLine(javaId, CtxOf(a, a[block].declaredIn.value, current), args,
                                    a[block].blockKind == PrefixedBlock && IsDetachUsed(a, block))] + blockCode
    {
      if a[block].blockKind == CompoundStatement {
        return blockCode;
      }
      var staticLink := EdCTX(a, a[block].declaredIn.value, current);
      var s := "new " + javaId + "(" + staticLink;
      for i := 0 to |args|
        invariant s == "new " + javaId + "(" + Join([staticLink] + args[..i], ",")
      {
        JoinSnoc([staticLink] + args[..i], args[i], ",");
        assert [staticLink] + args[..i + 1] == ([staticLink] + args[..i]) + [args[i]];
        s := s + "," + args[i];
      }
      assert args[..|args|] == args;
      s := s + ")";
      if a[block].blockKind == PrefixedBlock && IsDetachUsed(a, block) {
        s := s + "._START();";
      } else {
        s := s + "._STM();";
      }
      lines := [s] + blockCode;
    }

    /** isCompoundStatement. */
    predicate IsCompoundStatement(a: seq<Scope>)
      requires block < |a|
    {
      a[block].blockKind == CompoundStatement
    }
  }

  // ---------------------------------------------------------------------------
  // SWITCH
  // ---------------------------------------------------------------------------

  /** A case constant: its printed form and its value (getInt). */
  datatype CaseConstant = CaseConstant(image: string, value: int)

  /** SwitchInterval: a single case constant, or low : high. */
  datatype Interval = Interval(low: CaseConstant, hi: Option<CaseConstant>)

  /** A when part: its case keys, NONE being None, and the lines its
      statement is coded as. */
  datatype WhenPart = WhenPart(keys: seq<Option<Interval>>, statement: seq<string>)

  /** A when part as the parser reads it: WHEN NONE, or a list of intervals. */
  datatype WhenHead = NoneHead | KeysHead(intervals: seq<Interval>)

  const NoneCaseUsedMessage := "NONE Case is already used"

  function KeysOf(h: WhenHead): seq<Option<Interval>>
  {
    match h
    case NoneHead => [None]
    case KeysHead(ks) => seq(|ks|, i requires 0 <= i < |ks| => Some(ks[i]))
  }

  function NoneHeads(hs: seq<WhenHead>): (n: nat)
    ensures n <= |hs|
  {
    if hs == [] then 0 else NoneHeads(hs[..|hs| - 1]) + (if hs[|hs| - 1] == NoneHead then 1 else 0)
  }

  /** The when parts of a switch, in the order parsed. */
  function WhenParts(hs: seq<WhenHead>, statements: seq<seq<string>>): (w: seq<WhenPart>)
    requires |hs| == |statements|
    ensures |w| == |hs|
  {
    seq(|hs|, i requires 0 <= i < |hs| => WhenPart(KeysOf(hs[i]), statements[i]))
  }

  /** The WHEN loop of the constructor: every NONE after the first reports
      that the NONE case is already used. */
  method ParseWhenParts(hs: seq<WhenHead>, statements: seq<seq<string>>)
    returns (cases: seq<WhenPart>, errors: seq<string>)
    requires |hs| == |statements|
    ensures cases == WhenParts(hs, statements)
    ensures |errors| == (if NoneHeads(hs) > 0 then NoneHeads(hs) - 1 else 0)
    ensures forall k :: 0 <= k < |errors| ==> errors[k] == NoneCaseUsedMessage
  {
    var noneCaseUsed := false;
    cases := [];
    errors := [];
    for i := 0 to |hs|
      invariant cases == WhenParts(hs[..i], statements[..i])
      invariant noneCaseUsed <==> NoneHeads(hs[..i]) > 0
      invariant |errors| == (if NoneHeads(hs[..i]) > 0 then NoneHeads(hs[..i]) - 1 else 0)
      invariant forall k :: 0 <= k < |errors| ==> errors[k] == NoneCaseUsedMessage
    {
      assert hs[..i + 1][..i] == hs[..i];
      var keys;
      if hs[i] == NoneHead {
        keys := [None];
        if noneCaseUsed {
          errors := errors + [NoneCaseUsedMessage];
        }
        noneCaseUsed := true;
      } else {
        keys := KeysOf(hs[i]);
      }
      cases := cases + [WhenPart(keys, statements[i])];
    }
    assert hs[..|hs|] == hs && statements[..|hs|] == statements;
  }

  function CaseLine(i: int): string
  {
    "case " + IntToString(i) + ": "
  }

  function CaseLines(low: int, hi: int): (r: seq<string>)
    decreases hi - low
  {
    if hi < low then [] else CaseLines(low, hi - 1) + [CaseLine(hi)]
  }

  /** A range low : hi gives one case line for every value from low to hi,
      in increasing order, and none when hi < low. */
  lemma {:induction false} CaseLinesRange(low: int, hi: int)
    ensures |CaseLines(low, hi)| == (if hi < low then 0 else hi - low + 1)
    ensures forall k :: 0 <= k < |CaseLines(low, hi)| ==> CaseLines(low, hi)[k] == CaseLine(low + k)
    decreases hi - low
  {
    if hi >= low {
      CaseLinesRange(low, hi - 1);
    }
  }

  /** Different values give different case lines, so a range has no
      duplicate case. */
  lemma CaseLineInjective(i: int, j: int)
    requires CaseLine(i) == CaseLine(j)
    ensures i == j
  {
    var n := "case " + IntToString(i) + ": ";
    assert IntToString(i) == n[5..|n| - 2];
    assert IntToString(j) == CaseLine(j)[5..|CaseLine(j)| - 2];
    IntToStringInjective(i, j);
  }

  /** The lines of one case key. */
  function KeyLines(k: Option<Interval>): seq<string>
  {
    match k
    case None => ["default:"]
    case Some(Interval(low, None)) => [CaseLine(low.value)]
    case Some(Interval(low, Some(hi))) => CaseLines(low.value, hi.value)
  }

  function AllKeyLines(ks: seq<Option<Interval>>): seq<string>
  {
    if ks == [] then [] else AllKeyLines(ks[..|ks| - 1]) + KeyLines(ks[|ks| - 1])
  }

  /** WhenPart.doCoding: the lines of every key in order, the statement, then
      "break;". */
  function WhenLines(w: WhenPart): seq<string>
  {
    AllKeyLines(w.keys) + w.statement + ["break;"]
  }

  /** The expansion of one range, with its loop `for(int i=low;i<=hi;i++)`. */
  method RangeCoding(low: int, hi: int) returns (lines: seq<string>)
    ensures lines == CaseLines(low, hi)
  {
    lines := [];
    if hi < low {
      return;
    }
    var i := low;
    while i <= hi
      invariant low <= i <= hi + 1
      invariant lines == CaseLines(low, i - 1)
      decreases hi - i
    {
      lines := lines + [CaseLine(i)];
      i := i + 1;
    }
  }

  method WhenCoding(w: WhenPart) returns (lines: seq<string>)
    ensures lines == WhenLines(w)
  {
    lines := [];
    for i := 0 to |w.keys|
      invariant lines == AllKeyLines(w.keys[..i])
    {
      assert w.keys[..i + 1][..i] == w.keys[..i];
      var casePair := w.keys[i];
      if casePair.None? {
        lines := lines + ["default:"];
      } else {
        var low := casePair.value.low.value;
        if casePair.value.hi.Some? {
          var range := RangeCoding(low, casePair.value.hi.value.value);
          lines := lines + range;
        } else {
          lines := lines + [CaseLine(low)];
        }
      }
    }
    assert w.keys[..|w.keys|] == w.keys;
    lines := lines + w.statement + ["break;"];
  }

  function BoundsLine(key: string, low: string, hi: string): string
  {
    "if(" + key + "<" + low + " || " + key + ">" + hi + ") throw new _SimulaRuntimeError(\"Switch key outside key interval\");"
  }

  function AllWhenLines(ws: seq<WhenPart>): seq<string>
  {
    if ws == [] then [] else AllWhenLines(ws[..|ws| - 1]) + WhenLines(ws[|ws| - 1])
  }

  lemma AllWhenLinesNext(ws: seq<WhenPart>, i: nat)
    requires i < |ws|
    ensures AllWhenLines(ws[..i + 1]) == AllWhenLines(ws[..i]) + WhenLines(ws[i])
  {
    assert ws[..i + 1][..i] == ws[..i];
  }

  /** The lines a switch is coded as: the interval test, the Java switch, the
      when parts in order, and the closing brace. */
  function SwitchLines(key: string, low: string, hi: string, ws: seq<WhenPart>): (r: seq<string>)
  {
    [BoundsLine(key, low, hi), "switch(" + key + ") { // BEGIN SWITCH STATEMENT"] +
    AllWhenLines(ws) + ["} // END SWITCH STATEMENT"]
  }

  /** A NONE key is coded as the default case and a single key as one case
      line. */
  lemma KeyLinesCases(k: Option<Interval>)
    ensures k.None? ==> KeyLines(k) == ["default:"]
    ensures k.Some? && k.value.hi.None? ==> KeyLines(k) == [CaseLine(k.value.low.value)]
    ensures k.Some? && k.value.hi.Some? ==>
      |KeyLines(k)| == (if k.value.hi.value.value < k.value.low.value then 0
                        else k.value.hi.value.value - k.value.low.value + 1)
  {
    if k.Some? && k.value.hi.Some? {
      CaseLinesRange(k.value.low.value, k.value.hi.value.value);
    }
  }

  class SwitchStatement {
    const lowKey: Expr
    const hiKey: Expr
    const switchKey: Expr
    const cases: seq<WhenPart>
    /** The type TypeConversion.testAndCreate converts the key to. */
    var keyType: Option<Type>
    var checked: bool

    constructor (low: Expr, hi: Expr, key: Expr, ws: seq<WhenPart>)
      ensures lowKey == low && hiKey == hi && switchKey == key && cases == ws
      ensures keyType.None? && !checked
    {
      lowKey := low;
      hiKey := hi;
      switchKey := key;
      cases := ws;
      keyType := None;
      checked := false;
    }

    /** doChecking: the first call converts a CHARACTER key to CHARACTER and
        any other key to INTEGER; later calls change nothing. */
    method DoChecking()
      modifies this
      ensures checked
      ensures old(checked) ==> keyType == old(keyType)
      ensures !old(checked) ==> keyType == Some(if switchKey.typ == Some(Character) then Character else Integer)
    {
      if checked {
        return;
      }
      if switchKey.typ == Some(Character) {
        keyType := Some(Character);
      } else {
        keyType := Some(Integer);
      }
      checked := true;
    }

    /** doJavaCoding; `key` is the Java code of the converted key. */
    method JavaCoding(key: string) returns (lines: seq<string>)
      requires checked
      ensures lines == SwitchLines(key, lowKey.code, hiKey.code, cases)
    {
      var body: seq<string> := [];
      for i := 0 to |cases|
        invariant body == AllWhenLines(cases[..i])
      {
        AllWhenLinesNext(cases, i);
        var w := WhenCoding(cases[i]);
        body := body + w;
      }
      assert cases[..|cases|] == cases;
      lines := [BoundsLine(key, lowKey.code, hiKey.code), "switch(" + key + ") { // BEGIN SWITCH STATEMENT"] +
        body + ["} // END SWITCH STATEMENT"];
    }
  }

  /** The coded switch starts with the interval test and the Java switch,
      and ends with its closing brace; in between, each when part in order. */
  lemma SwitchLinesShape(key: string, low: string, hi: string, ws: seq<WhenPart>)
    ensures var r := SwitchLines(key, low, hi, ws);
      |r| == |AllWhenLines(ws)| + 3 && r[0] == BoundsLine(key, low, hi) &&
      r[|r| - 1] == "} // END SWITCH STATEMENT" && r[2..|r| - 1] == AllWhenLines(ws)
  {
  }
}
