// Formal parameters of classes and procedures (Parameter.java): the
// transmission-mode legality matrix, the Java type a formal is passed as, the
// external identifier, equality, and the field record written to and read from
// an attribute file.

module Parameters {
  import opened Util
  import opened Types

  /** Parameter.Mode; a missing mode (null) is `None` in an Option<Mode>. */
  datatype Mode = ByValue | ByName

  /** Parameter.Kind. */
  datatype Kind = Simple | ProcedureKind | ArrayKind | LabelKind

  function ModeName(m: Option<Mode>): string
  {
    match m
    case None => "null"
    case Some(ByValue) => "value"
    case Some(ByName) => "name"
  }

  function KindName(k: Option<Kind>): string
  {
    match k
    case None => "null"
    case Some(Simple) => "Simple"
    case Some(ProcedureKind) => "Procedure"
    case Some(ArrayKind) => "Array"
    case Some(LabelKind) => "Label"
  }

  /** The fields of a parameter, as a value. */
  datatype ParamRec = ParamRec(
    identifier: string,
    externalIdent: Option<string>,
    typ: Option<Type>,
    kind: Option<Kind>,
    mode: Option<Mode>,
    nDim: int)

  // ---------------------------------------------------------------------------
  // External identifier
  // ---------------------------------------------------------------------------

  /** setExternalIdentifier: "p<k>$<id>" on prefix level k > 0, "p$<id>" otherwise. */
  function ExternalIdentifier(identifier: string, prefixLevel: int): (r: string)
    ensures StartsWith(r, "p")
  {
    if prefixLevel > 0 then "p" + IntToString(prefixLevel) + "$" + identifier
    else "p$" + identifier
  }

  function EffectiveLevel(k: int): nat { if k > 0 then k else 0 }

  lemma NoDollarInDigits(n: nat)
    ensures '$' !in NatToString(n)
  {
    NatToStringRoundTrip(n);
    var s := NatToString(n);
    assert forall i | 0 <= i < |s| :: s[i] != '$';
  }

  /** Cutting "<head>$<tail>" at its first '$' gives back head and tail. */
  lemma SplitAtDollar(h1: string, t1: string, h2: string, t2: string)
    requires '$' !in h1 && '$' !in h2
    requires h1 + "$" + t1 == h2 + "$" + t2
    ensures h1 == h2 && t1 == t2
  {
    var s := h1 + "$" + t1;
    assert IndexOfChar(s, '$') == |h1| by {
      assert s[..|h1|] == h1;
      assert s[|h1|] == '$';
    }
    assert IndexOfChar(s, '$') == |h2| by {
      assert s[..|h2|] == h2;
      assert s[|h2|] == '$';
    }
    assert h1 == s[..|h1|] && h2 == s[..|h2|];
    assert t1 == s[|h1| + 1..] && t2 == s[|h2| + 1..];
  }

  /** Different parameters, or the same identifier on different prefix levels,
      get different external identifiers (Simula identifiers have no '$'). */
  lemma ExternalIdentifierInjective(id1: string, k1: int, id2: string, k2: int)
    requires '$' !in id1 && '$' !in id2
    requires ExternalIdentifier(id1, k1) == ExternalIdentifier(id2, k2)
    ensures id1 == id2 && EffectiveLevel(k1) == EffectiveLevel(k2)
  {
    var h1 := LevelHead(id1, k1);
    var h2 := LevelHead(id2, k2);
    SplitAtDollar(h1, id1, h2, id2);
    if k1 > 0 && k2 > 0 {
      assert IntToString(k1) == h1[1..] && IntToString(k2) == h2[1..];
      IntToStringInjective(k1, k2);
    }
  }

  /** The part of an external identifier before its '$'. */
  lemma LevelHead(id: string, k: int) returns (h: string)
    ensures '$' !in h && ExternalIdentifier(id, k) == h + "$" + id
    ensures k > 0 ==> |h| > 1 && h[1..] == IntToString(k)
    ensures k <= 0 ==> h == "p"
  {
    if k > 0 {
      NoDollarInDigits(k);
      NatToStringRoundTrip(k);
      h := "p" + IntToString(k);
      assert h[1..] == IntToString(k);
    } else {
      h := "p";
    }
  }

  // ---------------------------------------------------------------------------
  // Transmission modes
  // ---------------------------------------------------------------------------

  /** What legalTransmitionMode needs: a kind, and a type for simple and array
      parameters (the source dereferences it there). */
  predicate Checkable(kind: Option<Kind>, typ: Option<Type>)
  {
    kind.Some? && (kind.value == Simple || kind.value == ArrayKind ==> typ.Some?)
  }

  /** legalTransmitionMode's verdict. */
  function LegalMode(kind: Kind, typ: Option<Type>, mode: Option<Mode>): bool
    requires Checkable(Some(kind), typ)
  {
    match kind
    case Simple =>
      if typ.value == Text then true
      else if IsReferenceType(typ.value) then mode != Some(ByValue)
      else true
    case ArrayKind => !(IsReferenceType(typ.value) && mode == Some(ByValue))
    case ProcedureKind => mode != Some(ByValue)
    case LabelKind => mode != Some(ByValue)
  }

  /** The mode after legalTransmitionMode: a simple value-type parameter with
      no mode is given mode value; every other mode is kept. */
  function DefaultedMode(kind: Kind, typ: Option<Type>, mode: Option<Mode>): Option<Mode>
    requires Checkable(Some(kind), typ)
  {
    if kind == Simple && typ.value != Text && !IsReferenceType(typ.value) && mode.None?
    then Some(ByValue) else mode
  }

  /** The rows of the transmission-mode table in the source's documentation. */
  datatype FormalClass =
    | ValueType | ObjectRef | TextType | ValueArray | RefArray | ProcedureQuantity | LabelQuantity

  datatype Allowed = DefaultMode | OptionalMode | IllegalMode

  function Classify(kind: Kind, typ: Option<Type>): FormalClass
    requires Checkable(Some(kind), typ)
  {
    match kind
    case Simple =>
      if typ.value == Text then TextType
      else if IsReferenceType(typ.value) then ObjectRef
      else ValueType
    case ArrayKind => if IsReferenceType(typ.value) then RefArray else ValueArray
    case ProcedureKind => ProcedureQuantity
    case LabelKind => LabelQuantity
  }

  /** The "by value" column of the table: D, O or I. */
  function ByValueColumn(c: FormalClass): Allowed
  {
    match c
    case ValueType => DefaultMode
    case ObjectRef => IllegalMode
    case TextType => OptionalMode
    case ValueArray => OptionalMode
    case RefArray => IllegalMode
    case ProcedureQuantity => IllegalMode
    case LabelQuantity => IllegalMode
  }

  /** The legality check agrees with the documented table: a formal is illegal
      exactly when it is given mode value and the table marks value illegal;
      by name is optional everywhere and the default is always allowed. */
  lemma LegalModeMatchesTable(kind: Kind, typ: Option<Type>, mode: Option<Mode>)
    requires Checkable(Some(kind), typ)
    ensures LegalMode(kind, typ, mode) <==>
            !(mode == Some(ByValue) && ByValueColumn(Classify(kind, typ)) == IllegalMode)
  {
  }

  lemma ValueIllegalForProceduresAndLabels(kind: Kind, typ: Option<Type>)
    requires kind == ProcedureKind || kind == LabelKind
    ensures !LegalMode(kind, typ, Some(ByValue))
  {
  }

  lemma ValueIllegalForReferences(kind: Kind, t: Type)
    requires kind == Simple || kind == ArrayKind
    requires IsReferenceType(t) && t != Text
    ensures !LegalMode(kind, Some(t), Some(ByValue))
  {
  }

  lemma SimpleTextLegalUnderEveryMode(mode: Option<Mode>)
    ensures LegalMode(Simple, Some(Text), mode)
    ensures DefaultedMode(Simple, Some(Text), mode) == mode
  {
  }

  lemma SimpleValueTypeDefaultsToValue(t: Type)
    requires !IsReferenceType(t)
    ensures LegalMode(Simple, Some(t), None)
    ensures DefaultedMode(Simple, Some(t), None) == Some(ByValue)
  {
  }

  // ---------------------------------------------------------------------------
  // Java rendering
  // ---------------------------------------------------------------------------

  /** toJavaType: the Java type a formal parameter is declared with.  `qualJava`
      is the Java name of the class qualifying a reference type. */
  function ParamJavaType(p: ParamRec, qualJava: Option<string>): (s: string)
    requires p.kind.Some?
    requires p.kind.value == Simple ==> p.typ.Some?
  {
    if p.mode == Some(ByName) then
      match p.kind.value
      case Simple =>
        if p.typ.value == Label then "NAME$<LABQNT$>"
        else "NAME$<" + ToJavaTypeClass(p.typ.value, qualJava) + ">"
      case ProcedureKind => "NAME$<PRCQNT$>"
      case LabelKind => "NAME$<LABQNT$>"
      case ArrayKind => "NAME$<ARRAY$<?>>"
    else if p.kind.value == ArrayKind then "ARRAY$<?>"
    else if p.kind.value == ProcedureKind then "PRCQNT$"
    else if p.kind.value == LabelKind then "LABQNT$"
    else ToJavaType(p.typ.value, qualJava)
  }

  /** A by-name formal is always passed as a NAME$ thunk, and only a by-name
      formal is. */
  lemma ByNameIffThunk(p: ParamRec, qualJava: Option<string>)
    requires p.kind.Some? && (p.kind.value == Simple ==> p.typ.Some?)
    requires p.typ.Some? && p.typ.value.Named? ==> !StartsWith(p.typ.value.name, "NAME$<")
    requires qualJava.Some? ==> !StartsWith(qualJava.value, "NAME$<")
    ensures StartsWith(ParamJavaType(p, qualJava), "NAME$<") <==> p.mode == Some(ByName)
  {
    var s := ParamJavaType(p, qualJava);
    if p.mode != Some(ByName) {
      if p.kind.value == Simple {
        var t := p.typ.value;
        if t.Ref? && t.ident.Some? && qualJava.Some? {
          assert s == qualJava.value;
        } else if t.Named? {
          assert s == t.name;
        } else {
          assert |s| > 0 && s[0] != 'N';
          NotThunk(s);
        }
      } else {
        assert |s| > 0 && s[0] != 'N';
        NotThunk(s);
      }
    }
  }

  lemma NotThunk(s: string)
    requires |s| > 0 && s[0] != 'N'
    ensures !StartsWith(s, "NAME$<")
  {
    if |s| >= 6 {
      assert s[..6][0] != "NAME$<"[0];
    }
  }

  /** toJavaCode: the Java declaration of the formal. */
  function ParamJavaCode(p: ParamRec, qualJava: Option<string>): (s: string)
    requires p.kind.Some?
    requires p.kind.value == Simple ==> p.typ.Some?
    requires p.externalIdent.Some?
  {
    ParamJavaType(p, qualJava) + " " + p.externalIdent.value
  }

  /** equals: None is the NullPointerException that Type.equals throws
      when either formal has no type; otherwise whether type, kind and mode
      agree (the identifier is ignored). */
  function ParamEquals(a: ParamRec, b: ParamRec): (r: Option<bool>)
    ensures r.None? <==> a.typ.None? || b.typ.None?
  {
    if a.typ.None? || b.typ.None? then None
    else Some(a.typ == b.typ && a.kind == b.kind && a.mode == b.mode)
  }

  lemma ParamEqualsIsEquivalence(a: ParamRec, b: ParamRec, c: ParamRec)
    requires a.typ.Some? && b.typ.Some? && c.typ.Some?
    ensures ParamEquals(a, a) == Some(true)
    ensures ParamEquals(a, b) == Some(true) ==> ParamEquals(b, a) == Some(true)
    ensures ParamEquals(a, b) == Some(true) && ParamEquals(b, c) == Some(true) ==> ParamEquals(a, c) == Some(true)
    ensures ParamEquals(a, a.(identifier := b.identifier, externalIdent := b.externalIdent)) == Some(true)
  {
  }

  // ---------------------------------------------------------------------------
  // Externalization
  // ---------------------------------------------------------------------------

  /** The objects a parameter writes to an attribute file, in order. */
  datatype Item =
    | IString(s: Option<string>)
    | IType(t: Option<Type>)
    | IKind(k: Option<Kind>)
    | IMode(m: Option<Mode>)

  /** writeExternal: identifier, externalIdent, type, kind, mode. */
  function WriteExternal(p: ParamRec): (items: seq<Item>)
    ensures |items| == 5
  {
    [IString(Some(p.identifier)), IString(p.externalIdent), IType(p.typ), IKind(p.kind), IMode(p.mode)]
  }

  /** readExternal: reads the five fields back in the same order; a missing or
      ill-typed object (a failing cast) gives None.  nDim is not written, so the
      read parameter keeps the default -1. */
  function ReadExternal(items: seq<Item>): (r: Option<(ParamRec, seq<Item>)>)
    ensures r.Some? ==> |items| >= 5 && r.value.1 == items[5..]
  {
    if |items| < 5 then None
    else if !(items[0].IString? && items[0].s.Some? && items[1].IString?
              && items[2].IType? && items[3].IKind? && items[4].IMode?) then None
    else Some((ParamRec(items[0].s.value, items[1].s, items[2].t, items[3].k, items[4].m, -1),
               items[5..]))
  }

  /** Every written field is read back, and the reader stops exactly after the
      parameter's objects. */
  lemma ExternalRoundTrip(p: ParamRec, rest: seq<Item>)
    ensures ReadExternal(WriteExternal(p) + rest) == Some((p.(nDim := -1), rest))
  {
    var items := WriteExternal(p) + rest;
    assert items[5..] == rest;
  }

  /** A sequence of parameters written one after the other is read back as the
      same sequence. */
  function WriteAll(ps: seq<ParamRec>): seq<Item>
  {
    if ps == [] then [] else WriteExternal(ps[0]) + WriteAll(ps[1..])
  }

  function ReadAll(items: seq<Item>, n: nat): Option<seq<ParamRec>>
  {
    if n == 0 then Some([])
    else match ReadExternal(items)
      case None => None
      case Some((p, rest)) =>
        match ReadAll(rest, n - 1)
        case None => None
        case Some(ps) => Some([p] + ps)
  }

  /** What reading gives back for written parameters: every field but nDim. */
  function ResetDims(ps: seq<ParamRec>): (r: seq<ParamRec>)
    ensures |r| == |ps|
    ensures forall i :: 0 <= i < |ps| ==> r[i] == ps[i].(nDim := -1)
  {
    if ps == [] then [] else [ps[0].(nDim := -1)] + ResetDims(ps[1..])
  }

  lemma {:induction false} ExternalListRoundTrip(ps: seq<ParamRec>)
    ensures ReadAll(WriteAll(ps), |ps|) == Some(ResetDims(ps))
  {
    if ps != [] {
      var rest := WriteAll(ps[1..]);
      ExternalRoundTrip(ps[0], rest);
      ExternalListRoundTrip(ps[1..]);
    }
  }

  // ---------------------------------------------------------------------------
  // The parameter object
  // ---------------------------------------------------------------------------

  class Parameter {
    var identifier: string
    var externalIdent: Option<string>
    var typ: Option<Type>
    var kind: Option<Kind>
    var mode: Option<Mode>
    var nDim: int
    var checked: bool

    function Record(): ParamRec
      reads this
    {
      ParamRec(identifier, externalIdent, typ, kind, mode, nDim)
    }

    /** Parameter(identifier, type, kind). */
    constructor (id: string, t: Option<Type>, k: Option<Kind>)
      ensures Record() == ParamRec(id, None, t, k, None, -1) && !checked
    {
      identifier := id;
      externalIdent := None;
      typ := t;
      kind := k;
      mode := None;
      nDim := -1;
      checked := false;
    }

    /** setMode: reports an error when a mode was already given, then sets it anyway. */
    method SetMode(m: Mode) returns (error: Option<string>)
      modifies this`mode
      ensures mode == Some(m)
      ensures error.Some? <==> old(mode).Some?
      ensures error.Some? ==>
                error.value == "Parameter " + identifier + " is already specified by " + ModeName(old(mode))
    {
      error := None;
      if mode.Some? {
        error := Some("Parameter " + identifier + " is already specified by " + ModeName(mode));
      }
      mode := Some(m);
    }

    method SetTypeAndKind(t: Option<Type>, k: Option<Kind>)
      modifies this`typ, this`kind
      ensures typ == t && kind == k
    {
      typ := t;
      kind := k;
    }

    method SetExternalIdentifier(prefixLevel: int)
      modifies this`externalIdent
      ensures externalIdent == Some(ExternalIdentifier(identifier, prefixLevel))
    {
      if prefixLevel > 0 {
        externalIdent := Some("p" + IntToString(prefixLevel) + "$" + identifier);
      } else {
        externalIdent := Some("p$" + identifier);
      }
    }

    /** legalTransmitionMode, which also supplies the default mode value. */
    method LegalTransmissionMode() returns (legal: bool)
      requires Checkable(kind, typ)
      modifies this`mode
      ensures legal == LegalMode(kind.value, typ, old(mode))
      ensures mode == DefaultedMode(kind.value, typ, old(mode))
    {
      var illegal := false;
      match kind.value {
        case Simple =>
          if typ.value == Text {
          } else if IsReferenceType(typ.value) {
            if mode == Some(ByValue) { illegal := true; }
          } else if mode.None? {
            mode := Some(ByValue);
          }
        case ArrayKind =>
          if IsReferenceType(typ.value) && mode == Some(ByValue) { illegal := true; }
        case ProcedureKind =>
          if mode == Some(ByValue) { illegal := true; }
        case LabelKind =>
          if mode == Some(ByValue) { illegal := true; }
      }
      legal := !illegal;
    }

    /** doChecking: once only; a missing kind is reported and replaced by a simple
        integer; an illegal mode is reported and checking goes on. */
    method DoChecking() returns (errors: seq<string>)
      requires kind.None? || Checkable(kind, typ)
      modifies this
      ensures old(checked) ==> errors == [] && Record() == old(Record()) && checked
      ensures !old(checked) ==> checked && kind.Some? && Checkable(kind, typ)
      ensures !old(checked) && old(kind).None? ==>
        kind == Some(Simple) && typ == Some(Integer) &&
        |errors| >= 1 && errors[0] == "Parameter " + identifier + " is not specified -- assumed Simple Integer"
      ensures !old(checked) && old(kind).Some? ==> kind == old(kind) && typ == old(typ)
      ensures !old(checked) ==>
        mode == DefaultedMode(kind.value, typ, old(mode)) &&
        (LegalMode(kind.value, typ, old(mode)) <==> |errors| == (if old(kind).None? then 1 else 0))
      ensures identifier == old(identifier) && externalIdent == old(externalIdent) && nDim == old(nDim)
    {
      errors := [];
      if checked { return; }
      if kind.None? {
        errors := errors + ["Parameter " + identifier + " is not specified -- assumed Simple Integer"];
        kind := Some(Simple);
        typ := Some(Integer);
      }
      var m := mode;
      var legal := LegalTransmissionMode();
      if !legal {
        errors := errors + ["Illegal transmission mode: " + ModeName(m) + " " + KindName(kind) + " "
                            + identifier + " by " + (if m.Some? then ModeName(m) else "default")
                            + " is not allowed"];
      }
      checked := true;
    }
  }
}
