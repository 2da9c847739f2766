// Procedure calls (CallProcedure.java): the Java code for calling a
// procedure, a formal procedure or a virtual procedure, and for transmitting
// each actual parameter the way its formal is specified: as it is, as a
// copy, or as a `_NAME` thunk with a get (and possibly a put) method.
//
// An actual parameter is the record of what its own coding gives; what that
// coding depends on (the meaning of a variable, the current block level) is
// taken as already resolved into the record.

module CallProcedures {
  import opened Util
  import opened Types
  import opened Parameters
  import opened Expressions

  /** getWriteableVariable of an actual: the variable's Java code, its type,
      and whether it is declared as a block (a procedure or a class). */
  datatype Writeable = Writeable(code: string, typ: Option<Type>, isBlock: bool)

  /** How an actual that is a procedure quantity is seen by edProcedureQuant.
      `viaVirtual` is the virtual identifier of the procedure's virtual match,
      if it has one. */
  datatype ProcDecl =
    | FormalProc(mode: Option<Mode>)
    | PlainProc(viaVirtual: Option<string>)
    | VirtualProc(virtualIdent: string)
    | OtherDecl
  datatype ProcActual =
    | LocalProc(staticLink: string, javaId: string, decl: ProcDecl)
    | RemoteProc(objCode: string, javaId: string, decl: ProcDecl)
    | NotProc

  /** How codeCPF classifies an actual: a variable without arguments takes
      the kind of its declaration, `sourceline` is replaced by its value,
      and any other expression is simple; Unclassified is a declaration kind
      codeCPF does not know. */
  datatype CpfView = AsKind(k: Kind) | SourceLine | Unclassified

  /** An actual parameter: the expression (image, toJavaCode, type), its
      get() code, the Java name of the class qualifying its type, its
      writeable variable, the converted put value when it is a type
      conversion (TypeConversion.mayBeConvert(..., "y")), what put(rhs)
      codes, its number of dimensions (getNdim, -1 when unknown), and its
      procedure and codeCPF views. */
  datatype Actual = Actual(
    e: Expr,
    getCode: string,
    qual: Option<string>,
    writeable: Option<Writeable>,
    conversion: Option<string>,
    putCode: string -> string,
    nDim: int,
    asProc: ProcActual,
    cpf: CpfView)

  /** A formal parameter as transmission sees it. */
  datatype FormalSpec = FormalSpec(typ: Option<Type>, qual: Option<string>, kind: Kind, mode: Option<Mode>, nDim: int)

  /** Coded Java with the messages reported while coding it. */
  datatype Coded = Coded(code: string, messages: seq<string>)

  // ---------------------------------------------------------------------------
  // Thunks
  // ---------------------------------------------------------------------------

  /** Java code that creates a `_NAME` thunk. */
  predicate IsThunk(s: string)
  {
    StartsWith(s, "new _NAME<")
  }

  lemma ThunkExtends(s: string, t: string)
    requires IsThunk(s)
    ensures IsThunk(s + t)
  {
    assert (s + t)[..10] == s[..10];
  }

  /** The opening of a `_NAME` thunk whose get method returns `get`. */
  function Getter(cls: string, get: string): (r: string)
    ensures IsThunk(r)
  {
    var r := "new _NAME<" + cls + ">()" + "{ public " + cls + " get() { return(" + get + "); }";
    assert r[..10] == "new _NAME<";
    r
  }

  /** A `_NAME` thunk with only a get method. */
  function GetterThunk(cls: string, get: string): (r: string)
    ensures IsThunk(r) && r == Getter(cls, get) + " }"
  {
    ThunkExtends(Getter(cls, get), " }");
    Getter(cls, get) + " }"
  }

  lemma CopyIsNotThunk(code: string)
    ensures !IsThunk("copy(" + code + ")")
  {
    var s := "copy(" + code + ")";
    assert s[0] == 'c';
  }

  // ---------------------------------------------------------------------------
  // doSimpleParameter
  // ---------------------------------------------------------------------------

  /** The put method of a by-name simple parameter: after a type conversion it
      converts back through `y`; otherwise it puts the incoming value cast to
      the actual's Java type. */
  function PutMethod(formalType: Type, formalQual: Option<string>, a: Actual): string
    requires a.writeable.Some? && a.e.typ.Some?
  {
    var cls := ToJavaTypeClass(formalType, formalQual);
    if a.conversion.Some? then
      " public " + cls + " put(" + cls + " x_)" + "{ " + ToJavaType(formalType, formalQual) + " y=x_; "
        + a.writeable.value.code + a.conversion.value + "return(y); }"
    else
      var rhs := "(" + ToJavaType(a.e.typ.value, a.qual) + ")x_";
      " public " + cls + " put(" + cls + " x_)" + " { return(" + a.putCode(rhs) + "); }"
  }

  /** A put method is generated for a writeable variable that is not a
      block. */
  predicate HasPut(a: Actual)
  {
    a.writeable.Some? && !a.writeable.value.isBlock
  }

  /** What doSimpleParameter dereferences: a by-name formal that is not a
      label has a type, and so has an actual that gets a put method. */
  predicate SimpleTransmittable(formalType: Option<Type>, mode: Option<Mode>, a: Actual)
  {
    mode == Some(ByName) && formalType != Some(Label) ==> formalType.Some? && (HasPut(a) ==> a.e.typ.Some?)
  }

  /** doSimpleParameter. */
  function SimpleParameter(formalType: Option<Type>, formalQual: Option<string>, mode: Option<Mode>, a: Actual): (r: string)
    requires SimpleTransmittable(formalType, mode, a)
  {
    match mode
    case None => a.e.code
    case Some(ByValue) => if formalType == Some(Text) then "copy(" + a.e.code + ")" else a.e.code
    case Some(ByName) =>
      if formalType == Some(Label) then LabelThunk(a.e.code)
      else
        var cls := ToJavaTypeClass(formalType.value, formalQual);
        Getter(cls, a.getCode) + (if HasPut(a) then PutMethod(formalType.value, formalQual, a) else "") + " }"
  }

  /** A simple parameter is transmitted as a thunk exactly when it is by name
      (given an actual code that is not itself a thunk); by default and by
      value it is the actual's code, copied for a text by value. */
  lemma SimpleThunkIffByName(formalType: Option<Type>, formalQual: Option<string>, mode: Option<Mode>, a: Actual)
    requires SimpleTransmittable(formalType, mode, a)
    requires !IsThunk(a.e.code)
    ensures IsThunk(SimpleParameter(formalType, formalQual, mode, a)) <==> mode == Some(ByName)
    ensures mode.None? ==> SimpleParameter(formalType, formalQual, mode, a) == a.e.code
    ensures mode == Some(ByValue) ==>
      SimpleParameter(formalType, formalQual, mode, a) == if formalType == Some(Text) then "copy(" + a.e.code + ")" else a.e.code
  {
    if mode == Some(ByName) {
      SimpleByNameIsThunk(formalType, formalQual, a);
    } else if mode == Some(ByValue) && formalType == Some(Text) {
      CopyIsNotThunk(a.e.code);
    }
  }

  lemma SimpleByNameIsThunk(formalType: Option<Type>, formalQual: Option<string>, a: Actual)
    requires SimpleTransmittable(formalType, Some(ByName), a)
    ensures IsThunk(SimpleParameter(formalType, formalQual, Some(ByName), a))
  {
    if formalType != Some(Label) {
      var cls := ToJavaTypeClass(formalType.value, formalQual);
      var g := Getter(cls, a.getCode);
      var p := if HasPut(a) then PutMethod(formalType.value, formalQual, a) else "";
      ThunkExtends(g, p + " }");
      assert g + (p + " }") == g + p + " }";
    }
  }

  /** The by-name thunk of a simple parameter opens with the getter of the
      formal's type class and always closes; it has a put method exactly when
      the actual is a writeable variable that is not a block. */
  lemma SimpleByNamePut(formalType: Type, formalQual: Option<string>, a: Actual)
    requires formalType != Label && SimpleTransmittable(Some(formalType), Some(ByName), a)
    ensures var r := SimpleParameter(Some(formalType), formalQual, Some(ByName), a);
      var g := Getter(ToJavaTypeClass(formalType, formalQual), a.getCode);
      StartsWith(r, g) && r[|r| - 2..] == " }" &&
      (|r| > |g| + 2 <==> HasPut(a))
  {
    var cls := ToJavaTypeClass(formalType, formalQual);
    var g := Getter(cls, a.getCode);
    if HasPut(a) {
      var p := PutMethod(formalType, formalQual, a);
      assert |p| > 0 by {
        if a.conversion.Some? {
          assert p[0] == ' ';
        } else {
          assert p[0] == ' ';
        }
      }
    }
  }

  // ---------------------------------------------------------------------------
  // Labels, arrays and procedures as actual parameters
  // ---------------------------------------------------------------------------

  /** A label quantity by name: a getter-only `_NAME<_LABQNT>` thunk. */
  function LabelThunk(labQuant: string): (r: string)
    ensures IsThunk(r)
  {
    GetterThunk("_LABQNT", labQuant)
  }

  /** The label case of doParameterTransmition. */
  function LabelParameter(mode: Option<Mode>, code: string): (r: string)
  {
    if mode == Some(ByName) then LabelThunk(code) else code
  }

  /** doArrayParameter. */
  function ArrayParameter(mode: Option<Mode>, code: string): (r: string)
  {
    if mode == Some(ByValue) then code + ".COPY()"
    else if mode == Some(ByName) then GetterThunk("_ABSTRACT_ARRAY", code)
    else code
  }

  /** doProcedureParameter, given the procedure quantity. */
  function ProcedureParameter(mode: Option<Mode>, procQuant: string): (r: string)
  {
    if mode == Some(ByName) then GetterThunk("_PRCQNT", procQuant) else procQuant
  }

  /** The outcome of edProcedureQuant: the quantity with the error it may
      report, or an internal error for a declaration it does not know. */
  datatype Quant = Quant(code: string, error: Option<string>) | QuantFatal

  function IllegalProcedureMessage(image: string): string
  {
    "Illegal Procedure Expression as Actual Parameter: " + image
  }

  function NewPrcQnt(staticLink: string, procIdent: string): string
  {
    "new _PRCQNT(" + staticLink + "," + procIdent + ".class)"
  }

  /** edProcedureQuant. */
  function ProcedureQuant(pa: ProcActual, image: string): (r: Quant)
    ensures r.Quant? && r.error.Some? <==> pa.NotProc?
    ensures pa.NotProc? ==> r == Quant("UNKNOWN", Some(IllegalProcedureMessage(image)))
  {
    match pa
    case LocalProc(sl, id, d) =>
      (match d
       case FormalProc(m) => Quant(if m == Some(ByName) then id + ".get()" else id, None)
       case PlainProc(v) => Quant(if v.Some? then sl + "." + v.value else NewPrcQnt(sl, id), None)
       case VirtualProc(v) => Quant(sl + "." + v, None)
       case OtherDecl => QuantFatal)
    case RemoteProc(obj, id, d) =>
      (match d
       case VirtualProc(v) => Quant(obj + "." + v, None)
       case PlainProc(v) => Quant(if v.Some? then obj + "." + v.value else NewPrcQnt(obj, id), None)
       case _ => QuantFatal)
    case NotProc => Quant("UNKNOWN", Some(IllegalProcedureMessage(image)))
  }

  /** A procedure reached through a virtual match is passed as the virtual
      quantity of its static link or object; a plain one as a new _PRCQNT of
      it; a formal one as its own quantity, read through get() when by name. */
  lemma ProcedureQuantKinds(pa: ProcActual, image: string)
    requires !pa.NotProc? && pa.decl.PlainProc?
    ensures var link := if pa.LocalProc? then pa.staticLink else pa.objCode;
      ProcedureQuant(pa, image) ==
        Quant(if pa.decl.viaVirtual.Some? then link + "." + pa.decl.viaVirtual.value else NewPrcQnt(link, pa.javaId), None)
  {
  }

  // ---------------------------------------------------------------------------
  // doParameterTransmition
  // ---------------------------------------------------------------------------

  predicate Transmittable(f: FormalSpec, a: Actual)
  {
    f.kind == Simple ==> SimpleTransmittable(f.typ, f.mode, a)
  }

  /** doParameterTransmition: the coded actual, or None for an internal error. */
  function Transmit(f: FormalSpec, a: Actual): (r: Option<Coded>)
    requires Transmittable(f, a)
    ensures r.None? <==> f.kind == ProcedureKind && ProcedureQuant(a.asProc, a.e.image).QuantFatal?
  {
    match f.kind
    case Simple => Some(Coded(SimpleParameter(f.typ, f.qual, f.mode, a), []))
    case ArrayKind => Some(Coded(ArrayParameter(f.mode, a.e.code), []))
    case LabelKind => Some(Coded(LabelParameter(f.mode, a.e.code), []))
    case ProcedureKind =>
      var q := ProcedureQuant(a.asProc, a.e.image);
      if q.QuantFatal? then None
      else Some(Coded(ProcedureParameter(f.mode, q.code), if q.error.Some? then [q.error.value] else []))
  }

  /** Every actual to a by-name formal is transmitted as a `_NAME` thunk,
      whatever its kind. */
  lemma ByNameTransmitsThunk(f: FormalSpec, a: Actual)
    requires Transmittable(f, a) && f.mode == Some(ByName) && Transmit(f, a).Some?
    ensures IsThunk(Transmit(f, a).value.code)
  {
    if f.kind == Simple {
      SimpleByNameIsThunk(f.typ, f.qual, a);
    }
  }

  /** By value an array is copied and a text is copied; by default every
      actual is passed as its code. */
  lemma ValueAndDefaultTransmission(f: FormalSpec, a: Actual)
    requires Transmittable(f, a) && f.kind != ProcedureKind && f.mode != Some(ByName)
    ensures var r := Transmit(f, a);
      r.Some? && r.value.messages == [] &&
      (f.mode.None? ==> r.value.code == a.e.code) &&
      (f.mode == Some(ByValue) && f.kind == ArrayKind ==> r.value.code == a.e.code + ".COPY()") &&
      (f.mode == Some(ByValue) && f.kind == Simple ==>
        r.value.code == if f.typ == Some(Text) then "copy(" + a.e.code + ")" else a.e.code) &&
      (f.kind == LabelKind ==> r.value.code == a.e.code)
  {
  }

  // ---------------------------------------------------------------------------
  // edProcedureParameters
  // ---------------------------------------------------------------------------

  function WrongDimensionsMessage(image: string): string
  {
    "Parameter Array " + image + " has wrong number of dimensions"
  }

  function UncheckedArrayMessage(image: string): string
  {
    "Parameter Array " + image + " remains unchecked. Java or Runtime errors may occur"
  }

  /** The dimension check of an actual against a formal array: a warning when
      the actual's dimensions are unknown, an error when they differ. */
  function DimensionCheck(f: FormalSpec, a: Actual): (r: seq<string>)
    ensures r == [] <==> f.nDim <= 0 || (a.nDim >= 1 && a.nDim == f.nDim)
    ensures r != [] ==> |r| == 1
    ensures r != [] && a.nDim >= 1 ==> r == [WrongDimensionsMessage(a.e.image)]
  {
    if f.nDim > 0 then
      if a.nDim < 1 then [UncheckedArrayMessage(a.e.image)]
      else if a.nDim != f.nDim then [WrongDimensionsMessage(a.e.image)]
      else []
    else []
  }

  /** The transmitted codes of the first n actuals and the messages reported
      for them, each actual's dimension check before its transmission; None
      when one of them is an internal error. */
  function Transmitted(fs: seq<FormalSpec>, as_: seq<Actual>, n: nat, checkDims: bool): (r: Option<(seq<string>, seq<string>)>)
    requires n <= |as_| <= |fs|
    requires forall i :: 0 <= i < |as_| ==> Transmittable(fs[i], as_[i])
    ensures r.Some? ==> |r.value.0| == n
  {
    if n == 0 then Some(([], []))
    else
      var prev := Transmitted(fs, as_, n - 1, checkDims);
      var t := Transmit(fs[n - 1], as_[n - 1]);
      if prev.None? || t.None? then None
      else Some((prev.value.0 + [t.value.code],
                 (if checkDims then prev.value.1 + DimensionCheck(fs[n - 1], as_[n - 1]) else prev.value.1) + t.value.messages))
  }

  /** The static link, when there is one, as the first item. */
  function LinkPart(staticLink: Option<string>): seq<string>
  {
    if staticLink.Some? then [staticLink.value] else []
  }

  /** edProcedureParameters: "(", the static link and the transmitted actuals
      separated by ",", ")". */
  function ParameterList(staticLink: Option<string>, args: Option<seq<Actual>>, fs: seq<FormalSpec>): (r: Option<Coded>)
    requires AllTransmittable(args, fs)
    ensures args.None? ==> r.Some? && r.value.messages == []
  {
    var items := if args.None? then Some(([], [])) else Transmitted(fs, args.value, |args.value|, true);
    if items.None? then None
    else Some(Coded("(" + Join(LinkPart(staticLink) + items.value.0, ",") + ")", items.value.1))
  }

  /** The source reads one formal per actual. */
  predicate AllTransmittable(args: Option<seq<Actual>>, fs: seq<FormalSpec>)
  {
    args.Some? ==> |args.value| <= |fs| && forall i :: 0 <= i < |args.value| ==> Transmittable(fs[i], args.value[i])
  }

  method EdProcedureParameters(staticLink: Option<string>, args: Option<seq<Actual>>, fs: seq<FormalSpec>) returns (r: Option<Coded>)
    requires AllTransmittable(args, fs)
    ensures r == ParameterList(staticLink, args, fs)
  {
    var s := "(";
    var prevPar := false;
    if staticLink.Some? {
      s := s + staticLink.value;
      prevPar := true;
    }
    ghost var link := LinkPart(staticLink);
    assert s == "(" + Join(link, ",");
    var messages := [];
    if args.Some? {
      var t := TransmitList(fs, args.value, s, link, prevPar);
      if t.None? {
        return None;
      }
      s, messages := t.value.0, t.value.1;
    } else {
      assert link + [] == link;
    }
    s := s + ")";
    r := Some(Coded(s, messages));
  }

  /** The loop of edProcedureParameters over the actuals, after the static
      link (`prevPar` says whether one was written). */
  method TransmitList(fs: seq<FormalSpec>, as_: seq<Actual>, s0: string, ghost link: seq<string>, prevPar0: bool)
    returns (r: Option<(string, seq<string>)>)
    requires |as_| <= |fs| && forall i :: 0 <= i < |as_| ==> Transmittable(fs[i], as_[i])
    requires s0 == "(" + Join(link, ",") && (prevPar0 <==> |link| > 0)
    ensures var t := Transmitted(fs, as_, |as_|, true);
      (r.None? <==> t.None?) && (r.Some? ==> r.value == ("(" + Join(link + t.value.0, ","), t.value.1))
  {
    var s := s0;
    var prevPar := prevPar0;
    var messages := [];
    ghost var done: seq<string> := [];
    assert link + done == link;
    for i := 0 to |as_|
      invariant |done| == i && (prevPar <==> |link + done| > 0)
      invariant Transmitted(fs, as_, i, true) == Some((done, messages))
      invariant s == "(" + Join(link + done, ",")
    {
      var dims := DimensionCheck(fs[i], as_[i]);
      var t := TransmitOne(fs[i], as_[i]);
      TransmittedStep(fs, as_, i, true, done, messages);
      if t.None? {
        TransmittedStaysNone(fs, as_, i + 1, |as_|, true);
        return None;
      }
      ListStep(s, link, done, prevPar, t.value.code);
      if prevPar {
        s := s + ",";
      }
      prevPar := true;
      s := s + t.value.code;
      messages := messages + dims + t.value.messages;
      done := done + [t.value.code];
    }
    r := Some((s, messages));
  }

  method TransmitOne(f: FormalSpec, a: Actual) returns (r: Option<Coded>)
    requires Transmittable(f, a)
    ensures r == Transmit(f, a)
  {
    r := Transmit(f, a);
  }

  /** Transmitted for one more actual. */
  lemma TransmittedStep(fs: seq<FormalSpec>, as_: seq<Actual>, i: nat, checkDims: bool, done: seq<string>, messages: seq<string>)
    requires i < |as_| <= |fs|
    requires forall k :: 0 <= k < |as_| ==> Transmittable(fs[k], as_[k])
    requires Transmitted(fs, as_, i, checkDims) == Some((done, messages))
    ensures var t := Transmit(fs[i], as_[i]);
      Transmitted(fs, as_, i + 1, checkDims) ==
        if t.None? then None
        else Some((done + [t.value.code],
                   (if checkDims then messages + DimensionCheck(fs[i], as_[i]) else messages) + t.value.messages))
  {
  }

  /** An internal error in one actual ends the whole transmission. */
  lemma {:induction false} TransmittedStaysNone(fs: seq<FormalSpec>, as_: seq<Actual>, i: nat, n: nat, checkDims: bool)
    requires i <= n <= |as_| <= |fs|
    requires forall k :: 0 <= k < |as_| ==> Transmittable(fs[k], as_[k])
    requires Transmitted(fs, as_, i, checkDims).None?
    ensures Transmitted(fs, as_, n, checkDims).None?
    decreases n
  {
    if n > i {
      TransmittedStaysNone(fs, as_, i, n - 1, checkDims);
    }
  }

  lemma {:induction false} SetParsStaysNone(as_: seq<Actual>, line: int, i: nat, n: nat)
    requires i <= n <= |as_|
    requires SetPars(as_, line, i).None?
    ensures SetPars(as_, line, n).None?
    decreases n
  {
    if n > i {
      SetParsStaysNone(as_, line, i, n - 1);
    }
  }

  /** One more item of the list, with a comma only after an earlier one. */
  lemma ListStep(s: string, link: seq<string>, done: seq<string>, prevPar: bool, x: string)
    requires s == "(" + Join(link + done, ",") && (prevPar <==> |link + done| > 0)
    ensures (if prevPar then s + "," else s) + x == "(" + Join(link + (done + [x]), ",")
  {
    var ld := link + done;
    assert link + (done + [x]) == ld + [x];
    if prevPar {
      JoinExtend("(", s, ld, x, ",");
    } else {
      assert ld + [x] == [x];
    }
  }

  /** Without arguments the list is the static link alone, or "()"; with
      items free of commas the comma-separated items read back as the static
      link and the transmitted actuals. */
  lemma ParameterListShape(staticLink: Option<string>, args: Option<seq<Actual>>, fs: seq<FormalSpec>)
    requires AllTransmittable(args, fs)
    ensures args.None? ==> (ParameterList(staticLink, args, fs) ==
      Some(Coded(if staticLink.Some? then "(" + staticLink.value + ")" else "()", [])))
    ensures var r := ParameterList(staticLink, args, fs);
      r.Some? ==> |r.value.code| >= 2 && r.value.code[0] == '(' && r.value.code[|r.value.code| - 1] == ')'
  {
    if args.None? {
      var link := LinkPart(staticLink);
      assert link + [] == link;
      assert ParameterList(staticLink, args, fs).value.code == "(" + Join(link, ",") + ")";
      if staticLink.Some? {
        assert link == [staticLink.value];
        assert Join([staticLink.value], ",") == staticLink.value;
      } else {
        assert "(" + Join([], ",") + ")" == "()";
      }
    }
  }

  lemma ParameterListReadsBack(staticLink: Option<string>, args: Option<seq<Actual>>, fs: seq<FormalSpec>)
    requires AllTransmittable(args, fs)
    requires ParameterList(staticLink, args, fs).Some?
    requires var items := LinkPart(staticLink) + (if args.None? then [] else Transmitted(fs, args.value, |args.value|, true).value.0);
      |items| > 0 && forall i :: 0 <= i < |items| ==> ',' !in items[i]
    ensures var code := ParameterList(staticLink, args, fs).value.code;
      Split(code[1..|code| - 1], ',') ==
        LinkPart(staticLink) + (if args.None? then [] else Transmitted(fs, args.value, |args.value|, true).value.0)
  {
    var items := LinkPart(staticLink) + (if args.None? then [] else Transmitted(fs, args.value, |args.value|, true).value.0);
    var code := ParameterList(staticLink, args, fs).value.code;
    assert code[1..|code| - 1] == Join(items, ",");
    SplitJoin(items, ',');
  }

  /** The dimension messages of the arguments are those of each actual, in
      order. */
  lemma {:induction false} DimensionMessagesCollected(fs: seq<FormalSpec>, as_: seq<Actual>, n: nat, k: nat)
    requires n <= |as_| <= |fs| && k < n
    requires forall i :: 0 <= i < |as_| ==> Transmittable(fs[i], as_[i])
    requires Transmitted(fs, as_, n, true).Some?
    requires DimensionCheck(fs[k], as_[k]) != []
    ensures DimensionCheck(fs[k], as_[k])[0] in Transmitted(fs, as_, n, true).value.1
    decreases n
  {
    var prev := Transmitted(fs, as_, n - 1, true);
    if k < n - 1 {
      DimensionMessagesCollected(fs, as_, n - 1, k);
    }
    var m := prev.value.1 + DimensionCheck(fs[n - 1], as_[n - 1]) + Transmit(fs[n - 1], as_[n - 1]).value.messages;
    assert Transmitted(fs, as_, n, true).value.1 == m;
  }

  // ---------------------------------------------------------------------------
  // normal and remote
  // ---------------------------------------------------------------------------

  /** The syntax node a call is part of: none (a standalone call), a remote
      variable (itself standalone or not), or anything else. */
  datatype BackLink = NoBackLink | RemoteBackLink(linked: bool) | OtherBackLink

  /** normal: a new instance of the procedure's Java class with the static
      link and the actuals, and "._RESULT" for a typed procedure used in an
      expression. */
  function NormalCall(javaId: string, typed: bool, backLink: BackLink, params: string): (r: string)
    ensures StartsWith(r, "new " + javaId + params)
    ensures typed && !backLink.NoBackLink? ==> EndsWith(r, "._RESULT")
  {
    var p := "new " + javaId + params;
    var r := p + (if typed && !backLink.NoBackLink? then "._RESULT" else "");
    assert r[..|p|] == p;
    r
  }

  /** normal and remote end in "._RESULT" exactly for a typed procedure that
      is part of an expression. */
  lemma NormalResultIff(javaId: string, typed: bool, backLink: BackLink, params: string)
    requires |params| >= 1 && params[|params| - 1] == ')'
    ensures EndsWith(NormalCall(javaId, typed, backLink, params), "._RESULT") <==> typed && !backLink.NoBackLink?
    ensures StartsWith(NormalCall(javaId, typed, backLink, params), "new " + javaId + params)
  {
    var r := NormalCall(javaId, typed, backLink, params);
    if !(typed && !backLink.NoBackLink?) {
      assert r[|r| - 1] == ')';
    }
    var p := "new " + javaId + params;
    assert r[..|p|] == p;
  }

  /** How remote codes a call of a procedure through an object: a virtual
      match is called as a virtual, a method through its class or the object,
      and anything else as `normal` with the object as static link. */
  datatype RemoteTarget =
    | RemoteVirtualTarget(virtualIdent: string)
    | RemoteMethod(contextFree: bool, cast: string)
    | RemoteProcedure

  /** remote, given the coding of the call (remoteVirtual for a virtual, the
      parameter lists with the object's code, with its value, and with no
      static link): a virtual call as coded; a context-free method through
      its class and an ordinary member method through the object's code,
      each followed by a dot, the method and its parameters; any other
      procedure as a new instance with the object's value as static link. */
  function RemoteCall(objCode: string, procId: string, target: RemoteTarget, typed: bool,
                      backLink: BackLink, virtualCall: string, paramsWithObj: string, paramsWithGet: string,
                      paramsPlain: string): (r: string)
    ensures target.RemoteVirtualTarget? ==> r == virtualCall
    ensures target.RemoteMethod? && !target.contextFree ==>
      StartsWith(r, objCode + ".") && r[|objCode| + 1..] == procId + paramsPlain
    ensures target.RemoteMethod? && target.contextFree ==>
      StartsWith(r, target.cast + ".") && r[|target.cast| + 1..] == procId + paramsWithObj
    ensures target.RemoteProcedure? ==> StartsWith(r, "new " + procId + paramsWithGet)
  {
    match target
    case RemoteVirtualTarget(_) => virtualCall
    case RemoteMethod(contextFree, cast) =>
      if contextFree then cast + "." + procId + paramsWithObj else objCode + "." + procId + paramsPlain
    case RemoteProcedure => NormalCall(procId, typed, backLink, paramsWithGet)
  }

  /** Through an object, only a procedure that is neither virtual nor a
      method yields a result by "._RESULT", and it does so exactly when it is
      typed and part of an expression. */
  lemma RemoteResultIff(objCode: string, procId: string, target: RemoteTarget, typed: bool, backLink: BackLink,
                        virtualCall: string, paramsWithObj: string, paramsWithGet: string, paramsPlain: string)
    requires |paramsWithGet| >= 1 && paramsWithGet[|paramsWithGet| - 1] == ')'
    requires target.RemoteProcedure?
    ensures var r := RemoteCall(objCode, procId, target, typed, backLink, virtualCall, paramsWithObj, paramsWithGet, paramsPlain);
      EndsWith(r, "._RESULT") <==> typed && !backLink.NoBackLink?
  {
    NormalResultIff(procId, typed, backLink, paramsWithGet);
  }

  // ---------------------------------------------------------------------------
  // codeCPF and codeCSVP
  // ---------------------------------------------------------------------------

  /** The `sourceline` constant codeCPF substitutes for the standard
      procedure. */
  function SourceLineConstant(line: int, a: Actual): (r: Actual)
    ensures r.e.code == IntToString(line) && r.e.typ == Some(Integer) && r.writeable.None?
  {
    var c := IntToString(line);
    a.(e := Expr(c, c, Some(Integer), Some(IntNumber(line))), getCode := c, writeable := None,
       conversion := None, nDim := -1, asProc := NotProc, cpf := AsKind(Simple))
  }

  /** How codeCPF transmits an actual: by name, with the actual's own type
      and the kind of what it is; None for an internal error. */
  function CpfFormal(a: Actual): Option<FormalSpec>
  {
    match a.cpf
    case AsKind(k) => Some(FormalSpec(a.e.typ, a.qual, k, Some(ByName), 0))
    case SourceLine => Some(FormalSpec(a.e.typ, a.qual, Simple, Some(ByName), 0))
    case Unclassified => None
  }

  function CpfActual(a: Actual, line: int): Actual
  {
    if a.cpf.SourceLine? then SourceLineConstant(line, a) else a
  }

  /** The ".setPar(...)" parts of codeCPF for the first n actuals; None when
      one of them cannot be transmitted. */
  function SetPars(as_: seq<Actual>, line: int, n: nat): (r: Option<Coded>)
    requires n <= |as_|
    ensures r.Some? <==> forall i :: 0 <= i < n ==> CpfCoded(as_[i], line).Some?
  {
    if n == 0 then Some(Coded("", []))
    else
      var prev := SetPars(as_, line, n - 1);
      var t := CpfCoded(as_[n - 1], line);
      if prev.None? || t.None? then None
      else Some(Coded(prev.value.code + ".setPar(" + t.value.code + ")", prev.value.messages + t.value.messages))
  }

  /** The actuals of codeCSVP meet the specification's formals: no more
      actuals than formals, each transmittable as its formal says. */
  predicate SpecTransmittable(fs: seq<FormalSpec>, as_: seq<Actual>)
  {
    |as_| <= |fs| && forall i :: 0 <= i < |as_| ==> Transmittable(fs[i], as_[i])
  }

  /** The ".setPar(...)" parts of codeCSVP, by the procedure specification's
      formals; None when the call cannot be coded: an actual beyond the last
      formal (the formal iterator throws), an actual doParameterTransmition
      dereferences a null type for, or an internal error. */
  function SpecSetPars(fs: seq<FormalSpec>, as_: seq<Actual>): (r: Option<Coded>)
  {
    if !SpecTransmittable(fs, as_) then None
    else
      var t := Transmitted(fs, as_, |as_|, false);
      if t.None? then None else Some(Coded(Concat(SetParItems(t.value.0)), t.value.1))
  }

  function SetParItems(codes: seq<string>): (r: seq<string>)
    ensures |r| == |codes|
  {
    seq(|codes|, i requires 0 <= i < |codes| => ".setPar(" + codes[i] + ")")
  }

  /** The cast of a value-returning call used in an expression: an
      arithmetic result through the primitive's Value method, any other
      through a Java cast. */
  function ResultCast(call: string, resultType: Option<Type>, resultQual: Option<string>, backLink: BackLink): (r: string)
    ensures !PartOfExpression(resultType, backLink) ==> r == call
  {
    if PartOfExpression(resultType, backLink) then
      var cast := ToJavaType(resultType.value, resultQual);
      if IsArithmeticType(resultType.value) then cast + "Value(" + call + "._RESULT())"
      else "((" + cast + ")(" + call + "._RESULT()))"
    else call
  }

  /** A typed call has its result fetched unless it stands alone, or is the
      function of a standalone remote variable. */
  predicate PartOfExpression(resultType: Option<Type>, backLink: BackLink)
  {
    resultType.Some? && (backLink.OtherBackLink? || backLink == RemoteBackLink(true))
  }

  /** codeCPF without a procedure specification: the call of the formal or
      virtual procedure quantity, every actual transmitted by name, the
      entry only when there are arguments, and the result cast. */
  function CpfCall(ident: string, args: Option<seq<Actual>>, line: int, resultType: Option<Type>,
                   resultQual: Option<string>, backLink: BackLink): (r: Option<Coded>)
    ensures r.None? <==> args.Some? && SetPars(args.value, line, |args.value|).None?
    ensures args.None? ==> r.Some? && r.value.messages == []
  {
    var pars := if args.None? then Some(Coded("", [])) else SetPars(args.value, line, |args.value|);
    if pars.None? then None
    else
      var call := ident + ".CPF()" + (if args.Some? then pars.value.code + "._ENT()" else "");
      Some(Coded(ResultCast(call, resultType, resultQual, backLink), pars.value.messages))
  }

  method CodeCPF(ident: string, args: Option<seq<Actual>>, line: int, resultType: Option<Type>,
                 resultQual: Option<string>, backLink: BackLink) returns (r: Option<Coded>)
    ensures r == CpfCall(ident, args, line, resultType, resultQual, backLink)
  {
    var s := ident + ".CPF()";
    var messages := [];
    if args.Some? {
      var t := CpfSetPars(args.value, line);
      if t.None? {
        return None;
      }
      assert s + t.value.code + "._ENT()" == ident + ".CPF()" + (t.value.code + "._ENT()");
      s := s + t.value.code + "._ENT()";
      messages := t.value.messages;
    } else {
      assert s == ident + ".CPF()" + "";
    }
    r := Some(Coded(ResultCast(s, resultType, resultQual, backLink), messages));
  }

  /** One actual of codeCPF transmitted, or None when it cannot be: an
      internal error, or a by-name actual without a type, whose null type
      doSimpleParameter dereferences. */
  function CpfCoded(a: Actual, line: int): Option<Coded>
  {
    if CpfFormal(a).None? || !Transmittable(CpfFormal(a).value, CpfActual(a, line)) then None
    else Transmit(CpfFormal(a).value, CpfActual(a, line))
  }

  /** The loop of codeCPF over the checked actuals. */
  method CpfSetPars(as_: seq<Actual>, line: int) returns (r: Option<Coded>)
    ensures r == SetPars(as_, line, |as_|)
  {
    var s := "";
    var messages := [];
    for i := 0 to |as_|
      invariant SetPars(as_, line, i) == Some(Coded(s, messages))
    {
      var t := CpfTransmitOne(as_[i], line);
      SetParsStep(as_, line, i, s, messages);
      if t.None? {
        SetParsStaysNone(as_, line, i + 1, |as_|);
        return None;
      }
      s := s + ".setPar(" + t.value.code + ")";
      messages := messages + t.value.messages;
    }
    r := Some(Coded(s, messages));
  }

  /** One actual of codeCPF: its kind from what it is, `sourceline` replaced
      by its value, transmitted by name. */
  method CpfTransmitOne(actual: Actual, line: int) returns (t: Option<Coded>)
    ensures t == CpfCoded(actual, line)
  {
    var a := actual;
    var kind := Simple;
    match a.cpf {
      case AsKind(k) => kind := k;
      case SourceLine => a := SourceLineConstant(line, a);
      case Unclassified => return None;
    }
    var f := FormalSpec(actual.e.typ, actual.qual, kind, Some(ByName), 0);
    if !Transmittable(f, a) {
      // the source fails here with a NullPointerException
      return None;
    }
    t := Transmit(f, a);
  }

  lemma SetParsStep(as_: seq<Actual>, line: int, i: nat, s: string, messages: seq<string>)
    requires i < |as_|
    requires SetPars(as_, line, i) == Some(Coded(s, messages))
    ensures var t := CpfCoded(as_[i], line);
      SetPars(as_, line, i + 1) ==
        if t.None? then None else Some(Coded(s + ".setPar(" + t.value.code + ")", messages + t.value.messages))
  {
  }

  /** codeCPF transmits every actual by name, so an actual without a type
      in a simple position fails the whole call, whatever the other actuals
      are. */
  lemma {:induction false} CpfUntypedActualFails(as_: seq<Actual>, line: int, k: nat, n: nat)
    requires k < n <= |as_|
    requires as_[k].cpf == AsKind(Simple) && as_[k].e.typ.None?
    ensures SetPars(as_, line, n).None?
    decreases n
  {
    if n > k + 1 {
      CpfUntypedActualFails(as_, line, k, n - 1);
    }
  }

  /** codeCPF enters the procedure ("._ENT()") exactly when the variable has
      arguments, and fetches no result outside an expression. */
  lemma CpfEntersIffArguments(ident: string, args: Option<seq<Actual>>, line: int, resultType: Option<Type>,
                              resultQual: Option<string>, backLink: BackLink)
    requires !PartOfExpression(resultType, backLink)
    requires CpfCall(ident, args, line, resultType, resultQual, backLink).Some?
    requires !EndsWith(ident + ".CPF()", "._ENT()")
    ensures EndsWith(CpfCall(ident, args, line, resultType, resultQual, backLink).value.code, "._ENT()") <==> args.Some?
  {
  }

  /** codeCSVP: as codeCPF, but each actual transmitted as the procedure
      specification's formal says. */
  function CsvpCall(ident: string, args: Option<seq<Actual>>, fs: seq<FormalSpec>): (r: Option<Coded>)
    ensures r.None? <==> args.Some? && SpecSetPars(fs, args.value).None?
    ensures r.Some? ==> StartsWith(r.value.code, ident + ".CPF()")
    ensures r.Some? && args.Some? ==> EndsWith(r.value.code, "._ENT()")
  {
    if args.None? then Some(Coded(ident + ".CPF()", []))
    else
      var pars := SpecSetPars(fs, args.value);
      if pars.None? then None else Some(Coded(ident + ".CPF()" + pars.value.code + "._ENT()", pars.value.messages))
  }

  method CodeCSVP(ident: string, args: Option<seq<Actual>>, fs: seq<FormalSpec>) returns (r: Option<Coded>)
    ensures r == CsvpCall(ident, args, fs)
  {
    var s := ident + ".CPF()";
    var messages := [];
    if args.Some? {
      var t := SpecSetParList(fs, args.value);
      if t.None? {
        return None;
      }
      s := s + t.value.code + "._ENT()";
      messages := t.value.messages;
    }
    r := Some(Coded(s, messages));
  }

  /** The loop of codeCSVP over the checked actuals and the specification's
      formals. */
  method SpecSetParList(fs: seq<FormalSpec>, as_: seq<Actual>) returns (r: Option<Coded>)
    ensures r == SpecSetPars(fs, as_)
  {
    var s := "";
    var messages := [];
    ghost var done: seq<string> := [];
    for i := 0 to |as_|
      invariant i <= |fs| && forall k :: 0 <= k < i ==> Transmittable(fs[k], as_[k])
      invariant Transmitted(fs[..i], as_[..i], i, false) == Some((done, messages))
      invariant s == Concat(SetParItems(done))
    {
      if i == |fs| {
        // the formal iterator has no next element: NoSuchElementException
        SpecUntransmittableFails(fs, as_, i);
        return None;
      }
      if !Transmittable(fs[i], as_[i]) {
        // doParameterTransmition dereferences a null type
        SpecUntransmittableFails(fs, as_, i);
        return None;
      }
      var t := TransmitOne(fs[i], as_[i]);
      if t.None? {
        SpecTransmittedStep(fs, as_, i, done, messages);
        SpecTransmittedFails(fs, as_, i);
        return None;
      }
      SpecLoopStep(fs, as_, i, done, messages, s, t.value);
      s := s + ".setPar(" + t.value.code + ")";
      messages := messages + t.value.messages;
      done := done + [t.value.code];
    }
    SpecTransmittedAll(fs, as_, done, messages);
    r := Some(Coded(s, messages));
  }

  /** An actual beyond the last formal, or one that cannot be transmitted,
      makes the specified transmission fail. */
  lemma SpecUntransmittableFails(fs: seq<FormalSpec>, as_: seq<Actual>, i: nat)
    requires i < |as_| && (i >= |fs| || !Transmittable(fs[i], as_[i]))
    ensures SpecSetPars(fs, as_).None?
  {
  }

  /** The loop's result, once every actual is transmitted, is SpecSetPars. */
  lemma SpecTransmittedAll(fs: seq<FormalSpec>, as_: seq<Actual>, done: seq<string>, messages: seq<string>)
    requires |as_| <= |fs| && forall k :: 0 <= k < |as_| ==> Transmittable(fs[k], as_[k])
    requires Transmitted(fs[..|as_|], as_[..|as_|], |as_|, false) == Some((done, messages))
    ensures SpecSetPars(fs, as_) == Some(Coded(Concat(SetParItems(done)), messages))
  {
    TransmittedAgree(fs, as_, fs[..|as_|], as_[..|as_|], |as_|, false);
  }

  /** Transmitted looks only at the first n formals and actuals. */
  lemma {:induction false} TransmittedAgree(fs: seq<FormalSpec>, as_: seq<Actual>, gs: seq<FormalSpec>, bs: seq<Actual>,
                                            n: nat, checkDims: bool)
    requires n <= |as_| <= |fs| && forall i :: 0 <= i < |as_| ==> Transmittable(fs[i], as_[i])
    requires n <= |bs| <= |gs| && forall i :: 0 <= i < |bs| ==> Transmittable(gs[i], bs[i])
    requires fs[..n] == gs[..n] && as_[..n] == bs[..n]
    ensures Transmitted(fs, as_, n, checkDims) == Transmitted(gs, bs, n, checkDims)
  {
    if n > 0 {
      assert fs[..n - 1] == gs[..n - 1] && as_[..n - 1] == bs[..n - 1];
      assert fs[n - 1] == fs[..n][n - 1] == gs[n - 1] && as_[n - 1] == as_[..n][n - 1] == bs[n - 1];
      TransmittedAgree(fs, as_, gs, bs, n - 1, checkDims);
    }
  }

  /** One more actual of codeCSVP, on the prefixes the loop has seen. */
  lemma SpecTransmittedStep(fs: seq<FormalSpec>, as_: seq<Actual>, i: nat, done: seq<string>, messages: seq<string>)
    requires i < |as_| && i < |fs| && forall k :: 0 <= k <= i ==> Transmittable(fs[k], as_[k])
    requires Transmitted(fs[..i], as_[..i], i, false) == Some((done, messages))
    ensures var t := Transmit(fs[i], as_[i]);
      Transmitted(fs[..i + 1], as_[..i + 1], i + 1, false) ==
        if t.None? then None else Some((done + [t.value.code], messages + t.value.messages))
  {
    TransmittedAgree(fs[..i + 1], as_[..i + 1], fs[..i], as_[..i], i, false);
    assert fs[..i + 1][i] == fs[i] && as_[..i + 1][i] == as_[i];
  }

  /** One transmitted actual keeps the invariant of codeCSVP's loop. */
  lemma SpecLoopStep(fs: seq<FormalSpec>, as_: seq<Actual>, i: nat, done: seq<string>, messages: seq<string>,
                     s: string, t: Coded)
    requires i < |as_| && i < |fs| && forall k :: 0 <= k <= i ==> Transmittable(fs[k], as_[k])
    requires Transmitted(fs[..i], as_[..i], i, false) == Some((done, messages))
    requires s == Concat(SetParItems(done))
    requires Transmit(fs[i], as_[i]) == Some(t)
    ensures Transmitted(fs[..i + 1], as_[..i + 1], i + 1, false) == Some((done + [t.code], messages + t.messages))
    ensures s + ".setPar(" + t.code + ")" == Concat(SetParItems(done + [t.code]))
  {
    SpecTransmittedStep(fs, as_, i, done, messages);
    SetParStep(done, t.code);
  }

  /** An internal error in the first i + 1 actuals of codeCSVP ends it. */
  lemma SpecTransmittedFails(fs: seq<FormalSpec>, as_: seq<Actual>, i: nat)
    requires i < |as_| && i < |fs| && forall k :: 0 <= k <= i ==> Transmittable(fs[k], as_[k])
    requires Transmitted(fs[..i + 1], as_[..i + 1], i + 1, false).None?
    ensures SpecSetPars(fs, as_).None?
  {
    if SpecTransmittable(fs, as_) {
      TransmittedAgree(fs, as_, fs[..i + 1], as_[..i + 1], i + 1, false);
      TransmittedStaysNone(fs, as_, i + 1, |as_|, false);
    }
  }

  /** codeCSVP fails when the call has more actuals than the specification
      has formals. */
  lemma CsvpTooManyActualsFails(ident: string, args: Option<seq<Actual>>, fs: seq<FormalSpec>)
    requires args.Some? && |args.value| > |fs|
    ensures CsvpCall(ident, args, fs).None?
  {
  }

  lemma SetParStep(done: seq<string>, x: string)
    ensures Concat(SetParItems(done + [x])) == Concat(SetParItems(done)) + ".setPar(" + x + ")"
  {
    assert SetParItems(done + [x])[..|done|] == SetParItems(done);
  }

  /** codeCPF with a procedure specification codes the call by codeCSVP and
      casts to the specification's type. */
  function SpecifiedCpfCall(ident: string, args: Option<seq<Actual>>, fs: seq<FormalSpec>, specType: Option<Type>,
                            specQual: Option<string>, backLink: BackLink): (r: Option<Coded>)
    ensures r.None? <==> CsvpCall(ident, args, fs).None?
    ensures r.Some? ==> r.value.messages == CsvpCall(ident, args, fs).value.messages
  {
    var c := CsvpCall(ident, args, fs);
    if c.None? then None else Some(Coded(ResultCast(c.value.code, specType, specQual, backLink), c.value.messages))
  }

  /** The cast result reads back the call: an arithmetic result as
      "<type>Value(<call>._RESULT())", any other as
      "((<type>)(<call>._RESULT()))". */
  lemma ResultCastContainsCall(call: string, resultType: Option<Type>, resultQual: Option<string>, backLink: BackLink)
    requires PartOfExpression(resultType, backLink)
    ensures var r := ResultCast(call, resultType, resultQual, backLink);
      var cast := ToJavaType(resultType.value, resultQual);
      if IsArithmeticType(resultType.value)
      then StartsWith(r, cast + "Value(") && r[|cast| + 6..|r| - 1] == call + "._RESULT()"
      else StartsWith(r, "((" + cast + ")(") && r[|cast| + 4..|r| - 2] == call + "._RESULT()"
  {
    var cast := ToJavaType(resultType.value, resultQual);
    if IsArithmeticType(resultType.value) {
      ValueCastShape(cast, call);
    } else {
      JavaCastShape(cast, call);
    }
  }

  lemma ValueCastShape(cast: string, call: string)
    ensures var r := cast + "Value(" + call + "._RESULT())";
      StartsWith(r, cast + "Value(") && r[|cast| + 6..|r| - 1] == call + "._RESULT()"
  {
    var p := cast + "Value(";
    var m := call + "._RESULT()";
    assert cast + "Value(" + call + "._RESULT())" == p + m + ")";
    MiddleSlice(p, m, ")");
  }

  lemma JavaCastShape(cast: string, call: string)
    ensures var r := "((" + cast + ")(" + call + "._RESULT()))";
      StartsWith(r, "((" + cast + ")(") && r[|cast| + 4..|r| - 2] == call + "._RESULT()"
  {
    var p := "((" + cast + ")(";
    var m := call + "._RESULT()";
    assert "((" + cast + ")(" + call + "._RESULT()))" == p + m + "))";
    MiddleSlice(p, m, "))");
  }

  // ---------------------------------------------------------------------------
  // formal, virtual and remoteVirtual
  // ---------------------------------------------------------------------------

  /** formal: the formal procedure's access path, read through get() when the
      formal is by name, called by codeCPF. */
  function FormalIdent(access: string, mode: Option<Mode>): (r: string)
    ensures mode == Some(ByName) ==> r == access + ".get()"
    ensures mode != Some(ByName) ==> r == access
  {
    if mode == Some(ByName) then access + ".get()" else access
  }

  /** Where a virtual is reached from: the connected object, the static link
      (unless accessed remotely), or nothing. */
  datatype VirtualAccess = Connected(conn: string) | Local(staticLink: string) | Remotely

  /** virtual: a virtual label is its virtual identifier; a virtual procedure
      is reached through the connected object or the qualified static link
      before codeCPF calls it. */
  function VirtualIdent(virtualIdent: string, isLabel: bool, access: VirtualAccess): (r: string)
    ensures isLabel || access.Remotely? ==> r == virtualIdent
    ensures !isLabel && access.Connected? ==> r == access.conn + "." + virtualIdent
    ensures !isLabel && access.Local? ==> r == access.staticLink + "." + virtualIdent
  {
    if isLabel then virtualIdent
    else match access
      case Connected(conn) => conn + "." + virtualIdent
      case Local(sl) => sl + "." + virtualIdent
      case Remotely => virtualIdent
  }

  /** remoteVirtual: the object's value, a dot and the virtual identifier. */
  function RemoteVirtualIdent(objGet: string, virtualIdent: string): (r: string)
    ensures StartsWith(r, objGet + ".") && r[|objGet| + 1..] == virtualIdent
  {
    objGet + "." + virtualIdent
  }
}
