// Variables (Variable.java): an identifier with an optional list of actual
// parameters or indices.  Checking fixes its type and converts each actual
// to the type its formal or its index position expects; coding reads or
// writes an array element and edits the access path to the identifier.
// The variable's meaning is taken as already resolved (getMeaning), and an
// actual parameter as already checked.

module Variables {
  import opened Util
  import opened Types
  import opened Parameters
  import opened Scopes
  import opened DeclarationScopes
  import opened Expressions

  /** A type, or the OverLoad type of the standard procedures whose formals
      take the type of their actual parameter. */
  datatype TypeRef = Typed(t: Type) | OverLoad

  function Lift(t: Option<Type>): Option<TypeRef>
  {
    if t.None? then None else Some(Typed(t.value))
  }

  /** A formal parameter as the call check sees it. */
  datatype Formal = Formal(typ: Option<TypeRef>, kind: Kind)

  datatype CallableKind = ClassKind | StandardClassKind | ProcedureKindC | ContextFreeMethodKind | MemberMethodKind

  /** What the meaning's declaration is, with the parts checking and coding
      use.  `image` is the declaration's printed form.  The formals of a
      class are those its ClassParameterIterator yields, prefixes first. */
  datatype Declared =
    | ArrayDecl(image: string, typ: Option<Type>, nDim: int)
    | Callable(ckind: CallableKind, image: string, resultType: Option<TypeRef>, formals: seq<Formal>)
    | ParameterDecl(pkind: Kind, mode: Option<Mode>, typ: Option<Type>)
    | VirtualDecl(vkind: VirtualKind, typ: Option<Type>)
    | PlainDecl(image: string, typ: Option<Type>)

  /** The declared type, as doChecking first sets it. */
  function DeclaredType(d: Declared): Option<TypeRef>
  {
    match d
    case Callable(_, _, t, _) => t
    case _ => Lift(d.typ)
  }

  /** A checked actual parameter: converted to a type (TypeConversion.
      testAndCreate), or taken as it is. */
  datatype CheckedParam = Converted(to: Option<Type>, actual: Expr) | AsIs(actual: Expr)

  /** The outcome of doChecking: the variable's type, its checked
      parameters, the errors reported, the number of dimensions set on a
      formal array, and whether the check ended in an internal error. */
  datatype CheckResult = CheckResult(
    typ: Option<TypeRef>,
    checkedParams: seq<CheckedParam>,
    errors: seq<string>,
    dims: Option<nat>,
    fatal: bool)

  // ---------------------------------------------------------------------------
  // Array indices
  // ---------------------------------------------------------------------------

  function IndicesToInteger(ps: seq<Expr>): (r: seq<CheckedParam>)
    ensures |r| == |ps|
    ensures forall i :: 0 <= i < |ps| ==> r[i] == Converted(Some(Integer), ps[i])
  {
    seq(|ps|, i requires 0 <= i < |ps| => Converted(Some(Integer), ps[i]))
  }

  function WrongIndicesMessage(image: string): string { "Wrong number of indices to " + image }

  // ---------------------------------------------------------------------------
  // Calls: actual against formal parameters
  // ---------------------------------------------------------------------------

  function WrongParametersMessage(image: string): string { "Wrong number of parameters to " + image }

  function ArrayTypeMessage(actual: Expr, t: Type): string
  {
    "Parameter Array " + actual.image + " must be of Type " + Types.ToString(t)
  }

  /** The type an actual is converted to: its formal's, or its own when the
      formal is overloaded. */
  function FormalTarget(f: Formal, actual: Expr): Option<Type>
  {
    match f.typ
    case None => None
    case Some(OverLoad) => actual.typ
    case Some(Typed(t)) => Some(t)
  }

  /** The error an array formal reports for an actual of another arithmetic
      type. */
  function ArrayTypeErrors(f: Formal, actual: Expr): seq<string>
  {
    var t := FormalTarget(f, actual);
    if f.kind == ArrayKind && t.Some? && t != actual.typ && IsArithmeticType(t.value)
    then [ArrayTypeMessage(actual, t.value)] else []
  }

  /** The checked parameters of the first n pairs of formal and actual. */
  function CallChecked(fs: seq<Formal>, ps: seq<Expr>, n: nat): (r: seq<CheckedParam>)
    requires n <= |fs| && n <= |ps|
    ensures |r| == n
  {
    if n == 0 then [] else CallChecked(fs, ps, n - 1) + [Converted(FormalTarget(fs[n - 1], ps[n - 1]), ps[n - 1])]
  }

  function CallErrors(fs: seq<Formal>, ps: seq<Expr>, n: nat): seq<string>
    requires n <= |fs| && n <= |ps|
  {
    if n == 0 then [] else CallErrors(fs, ps, n - 1) + ArrayTypeErrors(fs[n - 1], ps[n - 1])
  }

  /** The type of the last actual matched with an overloaded formal among the
      first n, starting from the declared type. */
  function Overloaded(fs: seq<Formal>, ps: seq<Expr>, n: nat, declared: Option<TypeRef>): Option<TypeRef>
    requires n <= |fs| && n <= |ps|
  {
    if n == 0 then declared
    else if fs[n - 1].typ == Some(OverLoad) then Lift(ps[n - 1].typ)
    else Overloaded(fs, ps, n - 1, declared)
  }

  function Min(x: nat, y: nat): nat { if x < y then x else y }

  /** The whole call check: the matched pairs, then one arity error when the
      number of actuals and formals differ; an overloaded result type becomes
      the last overloaded actual's type. */
  function CallCheck(image: string, resultType: Option<TypeRef>, fs: seq<Formal>, ps: seq<Expr>): (r: CheckResult)
    ensures |r.checkedParams| == Min(|fs|, |ps|) && r.dims.None? && !r.fatal
    ensures resultType != Some(OverLoad) ==> r.typ == resultType
  {
    var n := Min(|fs|, |ps|);
    var t := if resultType == Some(OverLoad) then Overloaded(fs, ps, n, resultType) else resultType;
    CheckResult(t, CallChecked(fs, ps, n),
                CallErrors(fs, ps, n) + (if |ps| != |fs| then [WrongParametersMessage(image)] else []),
                None, false)
  }

  /** The loop over the actuals, which stops with an error when the formals
      run out, followed by the test for formals left over. */
  method CheckCall(image: string, resultType: Option<TypeRef>, fs: seq<Formal>, ps: seq<Expr>) returns (r: CheckResult)
    ensures r == CallCheck(image, resultType, fs, ps)
  {
    var checkedParams := [];
    var errors := [];
    var overloadedType := resultType;
    var i := 0;
    while i < |ps|
      invariant i <= |ps| && i <= |fs|
      invariant checkedParams == CallChecked(fs, ps, i)
      invariant errors == CallErrors(fs, ps, i)
      invariant overloadedType == Overloaded(fs, ps, i, resultType)
    {
      if i >= |fs| {
        errors := errors + [WrongParametersMessage(image)];
        break;
      }
      var formalType := FormalTarget(fs[i], ps[i]);
      if fs[i].typ == Some(OverLoad) {
        overloadedType := Lift(ps[i].typ);
      }
      errors := errors + ArrayTypeErrors(fs[i], ps[i]);
      checkedParams := checkedParams + [Converted(formalType, ps[i])];
      i := i + 1;
    }
    if i < |fs| {
      errors := errors + [WrongParametersMessage(image)];
    }
    var t := if resultType == Some(OverLoad) then overloadedType else resultType;
    r := CheckResult(t, checkedParams, errors, None, false);
  }

  /** Each matched actual is converted to its formal's type, or kept at its
      own type for an overloaded formal; nothing is checked past the shorter
      list. */
  lemma {:induction false} CallCheckedTargets(fs: seq<Formal>, ps: seq<Expr>, n: nat, i: nat)
    requires n <= |fs| && n <= |ps| && i < n
    ensures CallChecked(fs, ps, n)[i] == Converted(FormalTarget(fs[i], ps[i]), ps[i])
    ensures fs[i].typ == Some(OverLoad) ==> CallChecked(fs, ps, n)[i].to == ps[i].typ
    decreases n
  {
    if i < n - 1 {
      CallCheckedTargets(fs, ps, n - 1, i);
    }
  }

  /** The per-actual errors never speak of the number of parameters. */
  lemma {:induction false} CallErrorsAreTypeErrors(fs: seq<Formal>, ps: seq<Expr>, n: nat, image: string)
    requires n <= |fs| && n <= |ps|
    ensures WrongParametersMessage(image) !in CallErrors(fs, ps, n)
    decreases n
  {
    if n > 0 {
      CallErrorsAreTypeErrors(fs, ps, n - 1, image);
      var e := ArrayTypeErrors(fs[n - 1], ps[n - 1]);
      if e != [] {
        assert e[0][0] == 'P' && WrongParametersMessage(image)[0] == 'W';
      }
    }
  }

  /** The arity error is reported, once, exactly when the numbers of actuals
      and formals differ. */
  lemma CallArity(image: string, resultType: Option<TypeRef>, fs: seq<Formal>, ps: seq<Expr>)
    ensures var r := CallCheck(image, resultType, fs, ps);
      (WrongParametersMessage(image) in r.errors <==> |ps| != |fs|) &&
      |r.checkedParams| == Min(|fs|, |ps|) && !r.fatal
  {
    CallErrorsAreTypeErrors(fs, ps, Min(|fs|, |ps|), image);
  }

  // ---------------------------------------------------------------------------
  // Formal parameters and virtual specifications with arguments
  // ---------------------------------------------------------------------------

  /** "Illegal index-type": an index of a formal array must be arithmetic. */
  function IndexErrors(ps: seq<Expr>): seq<string>
  {
    if ps == [] then []
    else IndexErrors(ps[..|ps| - 1]) + (if IndexTypeOk(ps[|ps| - 1].typ) then [] else ["Illegal index-type"])
  }

  /** An index type is legal when it is arithmetic; an index without a type
      is reported like any other illegal one. */
  function IndexTypeOk(t: Option<Type>): (r: bool)
    ensures r <==> t.Some? && IsArithmeticType(t.value)
  {
    t.Some? && IsArithmeticType(t.value)
  }

  /** The index test as written: `actualParameter.type.isArithmeticType()`,
      None where the type is null and the test throws. */
  function IndexTypeOkAsWritten(t: Option<Type>): Option<bool>
  {
    if t.None? then None else Some(IsArithmeticType(t.value))
  }

  /** An index with no type (a call of a procedure without a type, say)
      makes the test as written throw instead of reporting the illegal index;
      on typed indices the two agree. */
  lemma IndexTypeAsWrittenThrowsOnUntyped(t: Option<Type>)
    ensures IndexTypeOkAsWritten(None).None? && !IndexTypeOk(None)
    ensures t.Some? ==> IndexTypeOkAsWritten(t) == Some(IndexTypeOk(t))
  {
  }

  method CheckFormalArrayIndices(ps: seq<Expr>) returns (checkedParams: seq<CheckedParam>, errors: seq<string>)
    ensures checkedParams == IndicesToInteger(ps) && errors == IndexErrors(ps)
  {
    checkedParams := [];
    errors := [];
    for i := 0 to |ps|
      invariant checkedParams == IndicesToInteger(ps[..i]) && errors == IndexErrors(ps[..i])
    {
      assert ps[..i + 1][..i] == ps[..i];
      if !IndexTypeOk(ps[i].typ) {
        errors := errors + ["Illegal index-type"];
      }
      checkedParams := checkedParams + [Converted(Some(Integer), ps[i])];
    }
    assert ps[..|ps|] == ps;
  }

  function AllAsIs(ps: seq<Expr>): (r: seq<CheckedParam>)
    ensures |r| == |ps| && forall i :: 0 <= i < |ps| ==> r[i] == AsIs(ps[i])
  {
    seq(|ps|, i requires 0 <= i < |ps| => AsIs(ps[i]))
  }

  method CheckAsIs(ps: seq<Expr>) returns (checkedParams: seq<CheckedParam>)
    ensures checkedParams == AllAsIs(ps)
  {
    checkedParams := [];
    for i := 0 to |ps|
      invariant checkedParams == AllAsIs(ps[..i])
    {
      checkedParams := checkedParams + [AsIs(ps[i])];
    }
    assert ps[..|ps|] == ps;
  }

  // ---------------------------------------------------------------------------
  // doChecking
  // ---------------------------------------------------------------------------

  /** What doChecking computes from the declaration and the argument list. */
  function Checking(d: Option<Declared>, params: Option<seq<Expr>>): (r: CheckResult)
    ensures params.None? || d.None? ==> r.checkedParams == [] && r.errors == [] && !r.fatal
    ensures r.dims.Some? ==> d.Some? && d.value.ParameterDecl? && params.Some? && r.dims.value == |params.value|
    ensures r.fatal ==> params.Some? && d.Some? && (d.value.PlainDecl? || d.value.ParameterDecl?)
  {
    var t := if d.None? then None else DeclaredType(d.value);
    if params.None? || d.None? then CheckResult(t, [], [], None, false)
    else
      var ps := params.value;
      match d.value
      case ArrayDecl(image, at, nDim) =>
        CheckResult(Lift(at), IndicesToInteger(ps),
                    if |ps| != nDim then [WrongIndicesMessage(image)] else [], None, false)
      case Callable(_, image, rt, fs) => CallCheck(image, rt, fs, ps)
      case ParameterDecl(kind, _, pt) =>
        if kind == ArrayKind then CheckResult(Lift(pt), IndicesToInteger(ps), IndexErrors(ps), Some(|ps|), false)
        else if kind == ProcedureKind then CheckResult(Lift(pt), AllAsIs(ps), [], None, false)
        else CheckResult(t, [], [], None, true)
      case VirtualDecl(_, vt) => CheckResult(Lift(vt), AllAsIs(ps), [], None, false)
      case PlainDecl(_, _) => CheckResult(t, [], [], None, true)
  }

  class Variable {
    const identifier: string
    /** The argument list; None when the identifier has none. */
    const params: Option<seq<Expr>>
    /** meaning.declaredAs; None for an identifier without a meaning. */
    const declaredAs: Option<Declared>
    var typ: Option<TypeRef>
    var checkedParams: seq<CheckedParam>
    var checked: bool

    constructor (ident: string, ps: Option<seq<Expr>>, d: Option<Declared>)
      ensures identifier == ident && params == ps && declaredAs == d
      ensures typ.None? && checkedParams == [] && !checked && Valid()
    {
      identifier := ident;
      params := ps;
      declaredAs := d;
      typ := None;
      checkedParams := [];
      checked := false;
    }

    /** Only doChecking sets the type and the checked parameters. */
    ghost predicate Valid()
      reads this
    {
      !checked ==> typ.None? && checkedParams == []
    }

    /** hasArguments. */
    predicate HasArguments()
    {
      params.Some?
    }

    /** doChecking: the first call sets the type and the checked parameters
        and reports what Checking says; later calls report and change
        nothing. */
    method DoChecking() returns (errors: seq<string>, dims: Option<nat>, fatal: bool)
      requires Valid()
      modifies this
      ensures checked && Valid()
      ensures old(checked) ==> typ == old(typ) && checkedParams == old(checkedParams) && errors == [] && dims.None? && !fatal
      ensures !old(checked) ==>
        CheckResult(typ, checkedParams, errors, dims, fatal) == Checking(declaredAs, params)
    {
      errors, dims, fatal := [], None, false;
      if checked {
        return;
      }
      if declaredAs.Some? {
        typ := DeclaredType(declaredAs.value);
      }
      if !HasArguments() {
        checked := true;
        return;
      }
      checkedParams := [];
      var ps := params.value;
      if declaredAs.Some? {
        match declaredAs.value {
          case ArrayDecl(image, at, nDim) =>
            typ := Lift(at);
            if |ps| != nDim {
              errors := [WrongIndicesMessage(image)];
            }
            checkedParams := IndicesToInteger(ps);
          case Callable(_, image, rt, fs) =>
            var r := CheckCall(image, rt, fs, ps);
            typ, checkedParams, errors := r.typ, r.checkedParams, r.errors;
          case ParameterDecl(kind, _, pt) =>
            if kind != ArrayKind && kind != ProcedureKind {
              fatal := true;
            } else {
              typ := Lift(pt);
              if kind == ArrayKind {
                dims := Some(|ps|);
                checkedParams, errors := CheckFormalArrayIndices(ps);
              } else {
                checkedParams := CheckAsIs(ps);
              }
            }
          case VirtualDecl(_, vt) =>
            typ := Lift(vt);
            checkedParams := CheckAsIs(ps);
          case PlainDecl(_, _) =>
            fatal := true;
        }
      }
      checked := true;
    }

    /** maybeStatement: a procedure, a method, a formal procedure or a
        virtual procedure may stand as a statement; nothing else may. */
    function MaybeStatement(): (r: bool)
      reads this
      requires checked
      ensures r <==> (declaredAs.Some? && match declaredAs.value
        case Callable(k, _, _, _) => k == ProcedureKindC || k == ContextFreeMethodKind || k == MemberMethodKind
        case ParameterDecl(kind, _, _) => kind == ProcedureKind
        case VirtualDecl(vkind, _) => vkind == VProcedure
        case _ => false)
    {
      if declaredAs.None? then false
      else match declaredAs.value
        case Callable(k, _, _, _) => k == ProcedureKindC || k == ContextFreeMethodKind || k == MemberMethodKind
        case ParameterDecl(kind, _, _) => kind == ProcedureKind
        case VirtualDecl(vkind, _) => vkind == VProcedure
        case _ => false
    }
  }

  /** A variable without arguments gets its declared type and no checked
      parameters, silently. */
  lemma CheckingWithoutArguments(d: Option<Declared>)
    ensures var r := Checking(d, None);
      r.checkedParams == [] && r.errors == [] && !r.fatal &&
      r.typ == (if d.None? then None else DeclaredType(d.value))
  {
  }

  /** Array indices and the indices of a formal array are all converted to
      INTEGER, one per index; an array with too few or too many indices is
      reported, and a formal array gets as many dimensions as it has
      indices. */
  lemma CheckingIndices(d: Declared, ps: seq<Expr>)
    requires d.ArrayDecl? || (d.ParameterDecl? && d.pkind == ArrayKind)
    ensures var r := Checking(Some(d), Some(ps));
      r.checkedParams == IndicesToInteger(ps) && !r.fatal &&
      (d.ArrayDecl? ==> (r.errors != [] <==> |ps| != d.nDim) && r.dims.None?) &&
      (d.ParameterDecl? ==> r.dims == Some(|ps|))
  {
  }

  /** A formal array reports one "Illegal index-type" per index that is not
      arithmetic and nothing else. */
  lemma {:induction false} IndexErrorsCount(ps: seq<Expr>)
    ensures |IndexErrors(ps)| == |set i | 0 <= i < |ps| && !IndexTypeOk(ps[i].typ)|
    ensures forall k :: 0 <= k < |IndexErrors(ps)| ==> IndexErrors(ps)[k] == "Illegal index-type"
    decreases |ps|
  {
    if ps != [] {
      var init := ps[..|ps| - 1];
      IndexErrorsCount(init);
      var A := set i | 0 <= i < |init| && !IndexTypeOk(init[i].typ);
      var B := set i | 0 <= i < |ps| && !IndexTypeOk(ps[i].typ);
      var last := |ps| - 1;
      if IndexTypeOk(ps[last].typ) {
        assert B == A;
      } else {
        assert B == A + {last};
      }
    }
  }

  // ---------------------------------------------------------------------------
  // Array elements
  // ---------------------------------------------------------------------------

  /** The indices after the accessor: "(" and the indices separated by ",". */
  function IndexList(idx: seq<string>): string
  {
    if idx == [] then "" else "(" + Join(idx, ",")
  }

  method EdIndices(idx: seq<string>) returns (s: string)
    ensures s == IndexList(idx)
  {
    s := "";
    var sep := '(';
    for i := 0 to |idx|
      invariant sep == (if i == 0 then '(' else ',')
      invariant s == IndexList(idx[..i])
    {
      if i > 0 {
        JoinSnoc(idx[..i], idx[i], ",");
        assert idx[..i + 1] == idx[..i] + [idx[i]];
      } else {
        assert idx[..1] == [idx[0]];
      }
      s := s + [sep] + idx[i];
      sep := ',';
    }
    assert idx[..|idx|] == idx;
  }

  /** doGetELEMENT: `var.getELEMENT(i,j,...)`. */
  method DoGetElement(v: string, idx: seq<string>) returns (s: string)
    ensures s == v + ".getELEMENT" + IndexList(idx) + ")"
  {
    var list := EdIndices(idx);
    s := v + ".getELEMENT" + list + ")";
  }

  /** doPutELEMENT: `var.putELEMENT(var.index(i,j,...),rightPart)`. */
  method DoPutElement(v: string, idx: seq<string>, rightPart: string) returns (s: string)
    ensures s == v + ".putELEMENT(" + v + ".index" + IndexList(idx) + ")," + rightPart + ")"
  {
    var list := EdIndices(idx);
    s := v + ".putELEMENT(" + v + ".index" + list + ")," + rightPart + ")";
  }

  /** With at least one index, the indices are the parenthesised arguments of
      getELEMENT and of index, and can be read back when they hold no comma. */
  lemma ElementIndicesReadBack(idx: seq<string>)
    requires idx != [] && forall i :: 0 <= i < |idx| ==> ',' !in idx[i]
    ensures IndexList(idx) == "(" + Join(idx, ",")
    ensures Split(IndexList(idx)[1..], ',') == idx
  {
    SplitJoin(idx, ',');
  }

  // ---------------------------------------------------------------------------
  // edIdentifierAccess
  // ---------------------------------------------------------------------------

  /** The parts of the variable's meaning that the access path depends on:
      the code of the constant it stands for, whether it is accessed
      remotely (after a dot), the code of the inspected object when it is
      found through a connection block, and whether it was found behind an
      invisible (hidden) attribute. */
  datatype Access = Access(constant: Option<string>, remotely: bool, inspected: Option<string>, behindInvisible: bool)

  predicate IsMethodBlock(k: BlockKind)
  {
    k == ContextFreeMethod || k == MemberMethod
  }

  /** edIdentifierAccess(id): a constant's code; the bare identifier when
      accessed remotely; through the inspected object when connected (cast to
      the class it was found in when behind an invisible attribute);
      otherwise, outside methods, through the context of the declaring block
      (cast to it, or to the class found in when behind an invisible
      attribute), except that an attribute on the current runtime level is
      accessed directly. */
  function EdIdentifierAccess(a: seq<Scope>, current: nat, declaredIn: nat, foundIn: nat,
                              javaIdOf: nat -> string, acc: Access, id: string): (r: string)
    requires current < |a| && declaredIn < |a|
    ensures acc.constant.Some? ==> r == acc.constant.value
    ensures acc.constant.None? ==> |r| >= |id| && r[|r| - |id|..] == id
  {
    if acc.constant.Some? then acc.constant.value
    else if acc.remotely then id
    else if acc.inspected.Some? then
      if acc.behindInvisible then "((" + javaIdOf(foundIn) + ")(" + acc.inspected.value + "))." + id
      else acc.inspected.value + "." + id
    else if !IsMethodBlock(a[declaredIn].blockKind) then
      if acc.behindInvisible then "((" + javaIdOf(foundIn) + ")" + CtxOf(a, declaredIn, current) + ")." + id
      else if a[declaredIn].rtBlockLevel == a[current].rtBlockLevel then id
      else "((" + javaIdOf(declaredIn) + ")" + CtxOf(a, declaredIn, current) + ")." + id
    else id
  }

  /** The identifier is used bare exactly when it is accessed remotely, is
      an attribute of a method, or lies on the current runtime level and was
      not found behind an invisible attribute, none of these through a
      connection. */
  lemma BareAccessIff(a: seq<Scope>, current: nat, declaredIn: nat, foundIn: nat,
                      javaIdOf: nat -> string, acc: Access, id: string)
    requires current < |a| && declaredIn < |a| && acc.constant.None?
    ensures EdIdentifierAccess(a, current, declaredIn, foundIn, javaIdOf, acc, id) == id <==>
      acc.remotely ||
      (acc.inspected.None? &&
       (IsMethodBlock(a[declaredIn].blockKind) ||
        (!acc.behindInvisible && a[declaredIn].rtBlockLevel == a[current].rtBlockLevel)))
  {
  }

  /** Through a connection the path starts with the inspected object's code,
      or with a cast of it. */
  lemma ConnectedAccessStartsWithInspected(a: seq<Scope>, current: nat, declaredIn: nat, foundIn: nat,
                                           javaIdOf: nat -> string, acc: Access, id: string)
    requires current < |a| && declaredIn < |a|
    requires acc.constant.None? && !acc.remotely && acc.inspected.Some?
    ensures var r := EdIdentifierAccess(a, current, declaredIn, foundIn, javaIdOf, acc, id);
      if acc.behindInvisible then StartsWith(r, "((" + javaIdOf(foundIn) + ")(" + acc.inspected.value + "))")
      else StartsWith(r, acc.inspected.value + ".")
  {
  }

  // ---------------------------------------------------------------------------
  // toString
  // ---------------------------------------------------------------------------

  function Unbracketed(s: string): (r: string)
    ensures |r| == |s| && '[' !in r && ']' !in r
  {
    if s == [] then []
    else [if s[0] == '[' then '(' else if s[0] == ']' then ')' else s[0]] + Unbracketed(s[1..])
  }

  /** toString: the identifier, followed by the printed argument vector with
      its (and every other) square bracket turned round. */
  function VariableString(identifier: string, params: Option<seq<Expr>>): (r: string)
    ensures params.None? ==> r == identifier
    ensures params.Some? ==> '[' !in r && ']' !in r
  {
    if params.None? then identifier
    else
      var images := seq(|params.value|, i requires 0 <= i < |params.value| => params.value[i].image);
      Unbracketed(identifier + "[" + Join(images, ", ") + "]")
  }
}
