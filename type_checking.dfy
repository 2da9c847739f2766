// The parts of Type.java that need the class hierarchy: the class a REF
// type is qualified by (doChecking), sub-references, the conversion
// lattice (isConvertableTo) and the common type of two operands.

module TypeChecking {
  import opened Util
  import opened Types
  import opened Scopes
  import opened ClassDeclarations
  import opened Prefixes
  import opened Meanings

  datatype ConversionKind = Illegal | DirectAssignable | ConvertValue | ConvertRef

  /** `meaning.declaredAs instanceof ClassDeclaration`: the class scope a
      meaning's declaration introduces, if it is a class. */
  function MeaningClass(a: seq<Scope>, m: Meaning): (r: Option<nat>)
    requires Valid(a)
    ensures r.Some? ==>
      r.value < |a| && IsClassDeclaration(a[r.value].cls) &&
      m.declaredAs.Some? && m.declaredAs.value.FDecl? && FoundValid(a, m.declaredAs.value) &&
      a[m.declaredAs.value.scope].declarations[m.declaredAs.value.index].scope == r
  {
    match m.declaredAs
    case Some(FDecl(s, k)) =>
      if s < |a| && k < |a[s].declarations| then
        ValidAt(a, s);
        var d := a[s].declarations[k].scope;
        if d.Some? && IsClassDeclaration(a[d.value].cls) then d else None
      else None
    case _ => None
  }

  /** The class that `ident` names from the current scope `cur`: findMeaning,
      then the class its declaration introduces. */
  function RefClass(a: seq<Scope>, cur: nat, ident: string): (r: Option<nat>)
    requires Valid(a) && cur < |a|
    ensures r.Some? ==> r.value < |a| && IsClassDeclaration(a[r.value].cls)
  {
    MeaningClass(a, FindMeaning(a, cur, ident, false).0)
  }

  /** The class found is declared under that name in a scope that encloses
      the current one. */
  lemma RefClassIsDeclaredOnChain(a: seq<Scope>, cur: nat, ident: string)
    requires Valid(a) && cur < |a|
    requires RefClass(a, cur, ident).Some?
    ensures var m := FindMeaning(a, cur, ident, false).0;
      m.declaredIn.Some? && m.declaredIn.value in EnclosingChain(a, Some(cur)) &&
      m.declaredAs.Some? && FoundValid(a, m.declaredAs.value) &&
      EqualsIgnoreCase(ident, FoundName(a, m.declaredAs.value))
  {
    var m := FindMeaning(a, cur, ident, false).0;
    FoundMeaningBinds(a, cur, ident, false);
    assert m != NoMeaning by {
      assert m.declaredAs.Some?;
    }
  }

  // ---------------------------------------------------------------------------
  // isSubReferenceOf
  // ---------------------------------------------------------------------------

  /** isSubReferenceOf as written: every type without a qualifying class is
      taken to be NONE, non-reference types included. */
  function IsSubReferenceOfAsWritten(a: seq<Scope>, cur: nat, t: Type, other: Type): (r: bool)
    requires Valid(a) && cur < |a|
    ensures r ==> GetRefIdent(other).Some?
    ensures GetRefIdent(t).None? ==> (r <==> GetRefIdent(other).Some?)
  {
    var thisRef := GetRefIdent(t);
    var otherRef := GetRefIdent(other);
    if otherRef.None? then false
    else if thisRef.None? then true
    else
      match RefClass(a, cur, thisRef.value)
      case None => false
      case Some(d) =>
        match RefClass(a, cur, otherRef.value)
        case None => false
        case Some(o) => SubClassOf(a, d, o)
  }

  /** A qualification whose meaning is a declaration (findMeaning found one). */
  predicate NamesDeclaration(a: seq<Scope>, cur: nat, ident: string)
    requires Valid(a) && cur < |a|
  {
    FindMeaning(a, cur, ident, false).0.declaredAs.Some?
  }

  /** A qualification whose meaning is a declaration that is not a class (a
      procedure, a variable, a parameter, a label, a virtual match): the
      cast to ClassDeclaration throws ClassCastException on it. */
  predicate NamesNonClass(a: seq<Scope>, cur: nat, ident: string)
    requires Valid(a) && cur < |a|
  {
    NamesDeclaration(a, cur, ident) && RefClass(a, cur, ident).None?
  }

  /** The meaning's declaration is a block declaration: a class, a procedure
      or another scope that is not a connection block. */
  predicate IsBlockMeaning(a: seq<Scope>, m: Meaning)
  {
    match m.declaredAs
    case Some(FDecl(s, k)) =>
      s < |a| && k < |a[s].declarations| && a[s].declarations[k].scope.Some? &&
      a[s].declarations[k].scope.value < |a| &&
      IsBlockDeclaration(a[a[s].declarations[k].scope.value].cls)
    case _ => false
  }

  /** A qualification whose meaning is a declaration that is not a block
      declaration (a variable, a parameter, a label, a virtual match): the
      cast to BlockDeclaration throws ClassCastException on it already. */
  predicate NamesNonBlock(a: seq<Scope>, cur: nat, ident: string)
    requires Valid(a) && cur < |a|
  {
    NamesDeclaration(a, cur, ident) && !IsBlockMeaning(a, FindMeaning(a, cur, ident, false).0)
  }

  /** The casts of isSubReferenceOf on the two meanings: both to
      BlockDeclaration first, then, unless `this` has no declaration (the
      error recovery that answers false), both to ClassDeclaration, where a
      missing `other` declaration (null) passes.  None is the
      ClassCastException; otherwise isSubClassOf's answer. */
  function CastOutcome(a: seq<Scope>, m1: Meaning, m2: Meaning): (r: Option<bool>)
    requires Valid(a)
    ensures r.None? <==>
      (m1.declaredAs.Some? && MeaningClass(a, m1).None?) ||
      (m2.declaredAs.Some? && !IsBlockMeaning(a, m2)) ||
      (m1.declaredAs.Some? && m2.declaredAs.Some? && MeaningClass(a, m2).None?)
    ensures r.Some? ==>
      r.value == (MeaningClass(a, m1).Some? && MeaningClass(a, m2).Some? &&
                  SubClassOf(a, MeaningClass(a, m1).value, MeaningClass(a, m2).value))
  {
    if (m1.declaredAs.Some? && !IsBlockMeaning(a, m1)) || (m2.declaredAs.Some? && !IsBlockMeaning(a, m2)) then None
    else if m1.declaredAs.None? then Some(false)
    else if MeaningClass(a, m1).None? || (m2.declaredAs.Some? && MeaningClass(a, m2).None?) then None
    else
      var c2 := MeaningClass(a, m2);
      Some(c2.Some? && SubClassOf(a, MeaningClass(a, m1).value, c2.value))
  }

  /** isSubReferenceOf as written, in full: None is the ClassCastException;
      otherwise the answer and the errors the two findMeaning calls report. */
  function SubReferenceOutcome(a: seq<Scope>, cur: nat, t: Type, other: Type): (r: Option<(bool, seq<string>)>)
    requires Valid(a) && cur < |a|
    ensures r.None? <==>
      GetRefIdent(t).Some? && GetRefIdent(other).Some? &&
      (NamesNonClass(a, cur, GetRefIdent(t).value) || NamesNonBlock(a, cur, GetRefIdent(other).value) ||
       (NamesDeclaration(a, cur, GetRefIdent(t).value) && NamesNonClass(a, cur, GetRefIdent(other).value)))
    ensures r.Some? ==> r.value.0 == IsSubReferenceOfAsWritten(a, cur, t, other)
    ensures r.Some? && r.value.1 != [] ==>
      !r.value.0 && GetRefIdent(t).Some? && GetRefIdent(other).Some? &&
      forall e :: e in r.value.1 ==>
        e == UndefinedMessage(GetRefIdent(t).value) || e == UndefinedMessage(GetRefIdent(other).value)
  {
    var thisRef := GetRefIdent(t);
    var otherRef := GetRefIdent(other);
    if otherRef.None? then Some((false, []))
    else if thisRef.None? then Some((true, []))
    else
      var (m1, e1) := FindMeaning(a, cur, thisRef.value, false);
      var (m2, e2) := FindMeaning(a, cur, otherRef.value, false);
      var c := CastOutcome(a, m1, m2);
      if c.None? then None else Some((c.value, e1 + e2))
  }

  /** A program for the cast order: class M declares procedure P. */
  function ProcedureInClassExample(): (a: seq<Scope>)
    ensures Valid(a) && |a| == 2
  {
    [Scope("M", ClassDecl, ClassBlock, None, None, None, 0, 0, 0, None, None, false,
           [], [Decl("P", ProcedureDeclKind, None, Some(1), false)], [], [], [], [], [], {}, [], false, false, None, [], None),
     Scope("P", ProcedureDecl, ProcedureBlock, Some(0), None, None, 1, 1, 1, None, None, false,
           [], [], [], [], [], [], [], {}, [], false, false, None, [], None)]
  }

  /** In M, ref(X) with X undefined against ref(P): the procedure passes the
      cast to BlockDeclaration and the undefined `this` answers false with
      the "Undefined variable" error; ref(P) against ref(X) throws at the
      cast of the procedure to ClassDeclaration. */
  lemma CastOrderExample()
    ensures var a := ProcedureInClassExample();
      SubReferenceOutcome(a, 0, MkRef("X"), MkRef("P")) == Some((false, [UndefinedMessage("X")])) &&
      SubReferenceOutcome(a, 0, MkRef("P"), MkRef("X")).None?
  {
    var a := ProcedureInClassExample();
    ExampleRefs();
    ExampleFindsProcedure();
    ExampleMissesX();
    var mx := FindMeaning(a, 0, "X", false);
    var mp := FindMeaning(a, 0, "P", false);
    assert CastOutcome(a, mx.0, mp.0) == Some(false);
    assert CastOutcome(a, mp.0, mx.0).None?;
    assert mx.1 + mp.1 == [UndefinedMessage("X")];
  }

  lemma ExampleRefs()
    ensures MkRef("X") == Ref(Some("X")) && MkRef("P") == Ref(Some("P"))
  {
    assert UpperChar('X') == 'X' && UpperChar('P') == 'P';
    assert Upper("X") == "X" && Upper("P") == "P";
  }

  lemma ExampleFindsProcedure()
    ensures var a := ProcedureInClassExample(); var m := FindMeaning(a, 0, "P", false).0;
      m.declaredAs.Some? && IsBlockMeaning(a, m) && MeaningClass(a, m).None?
  {
    var a := ProcedureInClassExample();
    assert DeclNames(a[0].declarations) == ["P"];
    assert EqualsIgnoreCase("P", "P");
  }

  lemma ExampleMissesX()
    ensures FindMeaning(ProcedureInClassExample(), 0, "X", false) == (NoMeaning, [UndefinedMessage("X")])
  {
    var a := ProcedureInClassExample();
    assert DeclNames(a[0].declarations) == ["P"];
    assert !EqualsIgnoreCase("X", "P");
  }

  /** Where the source throws, both boolean forms answer false. */
  lemma CastFailureAnswersFalse(a: seq<Scope>, cur: nat, t: Type, other: Type)
    requires Valid(a) && cur < |a|
    requires SubReferenceOutcome(a, cur, t, other).None?
    ensures !IsSubReferenceOfAsWritten(a, cur, t, other) && !IsSubReferenceOf(a, cur, t, other)
  {
  }

  /** An INTEGER counts as a sub-reference of ref(A), whatever the program. */
  lemma IntegerIsSubReferenceAsWritten(a: seq<Scope>, cur: nat)
    requires Valid(a) && cur < |a|
    ensures IsSubReferenceOfAsWritten(a, cur, Integer, MkRef("A"))
    ensures IsConvertableToAsWritten(a, cur, Integer, Some(MkRef("A"))) == DirectAssignable
  {
  }

  /** isSubReferenceOf with NONE taken to be the unqualified REF type only. */
  function IsSubReferenceOf(a: seq<Scope>, cur: nat, t: Type, other: Type): (r: bool)
    requires Valid(a) && cur < |a|
    ensures r ==> t.Ref? && GetRefIdent(other).Some?
  {
    var thisRef := GetRefIdent(t);
    var otherRef := GetRefIdent(other);
    if otherRef.None? then false
    else if thisRef.None? then t == Ref(None)
    else
      match RefClass(a, cur, thisRef.value)
      case None => false
      case Some(d) =>
        match RefClass(a, cur, otherRef.value)
        case None => false
        case Some(o) => SubClassOf(a, d, o)
  }

  /** Nothing is a sub-reference of NONE (or of a non-reference type); NONE
      is a sub-reference of every qualified reference; two qualified
      references are related exactly as their classes, strict subclass
      first; a non-reference type is a sub-reference of nothing. */
  lemma SubReferenceCases(a: seq<Scope>, cur: nat, t: Type, other: Type)
    requires Valid(a) && cur < |a|
    ensures GetRefIdent(other).None? ==> !IsSubReferenceOf(a, cur, t, other)
    ensures t == Ref(None) && GetRefIdent(other).Some? ==> IsSubReferenceOf(a, cur, t, other)
    ensures !t.Ref? ==> !IsSubReferenceOf(a, cur, t, other)
    ensures GetRefIdent(t).Some? && GetRefIdent(other).Some? ==>
      (IsSubReferenceOf(a, cur, t, other) <==>
         var d := RefClass(a, cur, GetRefIdent(t).value);
         var o := RefClass(a, cur, GetRefIdent(other).value);
         d.Some? && o.Some? && SubClassOf(a, d.value, o.value))
  {
  }

  /** No two types are sub-references of each other. */
  lemma SubReferenceAntisymmetric(a: seq<Scope>, cur: nat, t: Type, other: Type)
    requires Valid(a) && cur < |a|
    ensures !(IsSubReferenceOf(a, cur, t, other) && IsSubReferenceOf(a, cur, other, t))
  {
  }

  // ---------------------------------------------------------------------------
  // isConvertableTo
  // ---------------------------------------------------------------------------

  /** isConvertableTo as written, on the as-written isSubReferenceOf. */
  function IsConvertableToAsWritten(a: seq<Scope>, cur: nat, t: Type, to: Option<Type>): (r: ConversionKind)
    requires Valid(a) && cur < |a|
    ensures r != Illegal ==> to.Some?
    ensures r == ConvertValue ==> IsArithmeticType(t) && IsArithmeticType(to.value)
    ensures r == ConvertRef ==> GetRefIdent(t).Some?
  {
    if to.None? then Illegal
    else if t == to.value then DirectAssignable
    else if IsArithmeticType(t) && IsArithmeticType(to.value) then ConvertValue
    else if IsSubReferenceOfAsWritten(a, cur, t, to.value) then DirectAssignable
    else if IsSubReferenceOfAsWritten(a, cur, to.value, t) then ConvertRef
    else Illegal
  }

  /** isConvertableTo: `to` None is the null target. */
  function IsConvertableTo(a: seq<Scope>, cur: nat, t: Type, to: Option<Type>): (r: ConversionKind)
    requires Valid(a) && cur < |a|
    ensures r != Illegal ==> to.Some?
    ensures r == ConvertValue ==> IsArithmeticType(t) && IsArithmeticType(to.value)
    ensures r == ConvertRef ==> t.Ref? && to.value.Ref? && t != to.value
  {
    if to.None? then Illegal
    else if t == to.value then DirectAssignable
    else if IsArithmeticType(t) && IsArithmeticType(to.value) then ConvertValue
    else if IsSubReferenceOf(a, cur, t, to.value) then DirectAssignable
    else if IsSubReferenceOf(a, cur, to.value, t) then ConvertRef
    else Illegal
  }

  /** A null target is illegal, equal types assign directly, two different
      arithmetic types need a value conversion. */
  lemma ConvertableBasics(a: seq<Scope>, cur: nat, t: Type, to: Option<Type>)
    requires Valid(a) && cur < |a|
    ensures to.None? ==> IsConvertableTo(a, cur, t, to) == Illegal
    ensures to == Some(t) ==> IsConvertableTo(a, cur, t, to) == DirectAssignable
    ensures to.Some? && to.value != t && IsArithmeticType(t) && IsArithmeticType(to.value) ==>
      IsConvertableTo(a, cur, t, to) == ConvertValue
  {
  }

  /** Between two qualified references to classes C and D: direct assignment
      iff C is D or a subclass of D, a checked conversion iff D is a subclass
      of C, and illegal for unrelated classes. */
  lemma ConvertRefCases(a: seq<Scope>, cur: nat, x: string, y: string)
    requires Valid(a) && cur < |a|
    requires RefClass(a, cur, Upper(x)).Some? && RefClass(a, cur, Upper(y)).Some?
    ensures var c := RefClass(a, cur, Upper(x)).value; var d := RefClass(a, cur, Upper(y)).value;
      var k := IsConvertableTo(a, cur, MkRef(x), Some(MkRef(y)));
      (k == DirectAssignable <==> MkRef(x) == MkRef(y) || SubClassOf(a, c, d)) &&
      (k == ConvertRef <==> MkRef(x) != MkRef(y) && SubClassOf(a, d, c)) &&
      (k == Illegal <==> MkRef(x) != MkRef(y) && !SubClassOf(a, c, d) && !SubClassOf(a, d, c)) &&
      k != ConvertValue
  {
    var tx := MkRef(x);
    var ty := MkRef(y);
    assert GetRefIdent(tx) == Some(Upper(x)) && GetRefIdent(ty) == Some(Upper(y));
    assert !IsArithmeticType(tx);
    var c := RefClass(a, cur, Upper(x)).value;
    var d := RefClass(a, cur, Upper(y)).value;
    assert IsSubReferenceOf(a, cur, tx, ty) == SubClassOf(a, c, d);
    assert IsSubReferenceOf(a, cur, ty, tx) == SubClassOf(a, d, c);
    SubReferenceAntisymmetric(a, cur, tx, ty);
  }

  /** A value of a non-reference type never converts to a reference. */
  lemma NoConversionToReferenceFromValue(a: seq<Scope>, cur: nat, t: Type, to: Type)
    requires Valid(a) && cur < |a|
    requires !t.Ref? && to.Ref? && to.ident.Some?
    ensures IsConvertableTo(a, cur, t, Some(to)) == Illegal
  {
  }

  // ---------------------------------------------------------------------------
  // commonRefType / commonTypeConversion
  // ---------------------------------------------------------------------------

  /** commonRefType: the super-reference of the two, else the first. */
  function CommonRefType(a: seq<Scope>, cur: nat, t1: Type, t2: Type): (r: Type)
    requires Valid(a) && cur < |a|
    ensures r == t1 || r == t2
  {
    if IsSubReferenceOf(a, cur, t1, t2) then t2
    else if IsSubReferenceOf(a, cur, t2, t1) then t1
    else t1
  }

  /** The common reference type is one of the two, and the other is a
      sub-reference of it whenever they are related; for related types the
      order of the operands does not matter. */
  lemma CommonRefTypeIsUpperBound(a: seq<Scope>, cur: nat, t1: Type, t2: Type)
    requires Valid(a) && cur < |a|
    ensures var r := CommonRefType(a, cur, t1, t2);
      (r == t1 || r == t2) &&
      (IsSubReferenceOf(a, cur, t1, t2) ==> r == t2) &&
      (IsSubReferenceOf(a, cur, t2, t1) ==> r == t1) &&
      (IsSubReferenceOf(a, cur, t1, t2) || IsSubReferenceOf(a, cur, t2, t1) ==>
         r == CommonRefType(a, cur, t2, t1))
  {
    SubReferenceAntisymmetric(a, cur, t1, t2);
  }

  function IncompatibleMessage(t1: Type, t2: Type): string
  {
    "Incompatible types: " + ToString(t1) + ", " + ToString(t2)
  }

  /** commonTypeConversion: the type of a binary operation on `t1` and `t2`,
      and the error it reports. */
  function CommonTypeConversion(a: seq<Scope>, cur: nat, t1: Type, t2: Type): (r: (Option<Type>, Option<string>))
    requires Valid(a) && cur < |a|
    ensures r.0.None? ==> r.1 == Some(IncompatibleMessage(t1, t2))
    ensures r.0.Some? ==> r.0.value == t1 || r.0.value == t2 || IsArithmeticType(r.0.value)
  {
    if t1 == t2 then (Some(t1), None)
    else if ArithmeticTypeConversion(t1, t2).Some? then (ArithmeticTypeConversion(t1, t2), None)
    else if IsReferenceType(t1) && IsReferenceType(t2) then
      if IsSubReferenceOf(a, cur, t1, t2) then (Some(t2), None)
      else if IsSubReferenceOf(a, cur, t2, t1) then (Some(t1), None)
      else (Some(t1), Some(IncompatibleMessage(t1, t2)))
    else (None, Some(IncompatibleMessage(t1, t2)))
  }

  /** The cases in order: equal types, then two arithmetic types (the wider),
      then two references (the super-reference, or an error), else an error
      and no type. */
  lemma CommonTypeConversionCases(a: seq<Scope>, cur: nat, t1: Type, t2: Type)
    requires Valid(a) && cur < |a|
    ensures var r := CommonTypeConversion(a, cur, t1, t2);
      (t1 == t2 ==> r == (Some(t1), None)) &&
      (t1 != t2 && IsArithmeticType(t1) && IsArithmeticType(t2) ==>
         r.1.None? && r.0.Some? && IsArithmeticType(r.0.value) &&
         ArithRank(r.0.value) == (if ArithRank(t1) < ArithRank(t2) then ArithRank(t2) else ArithRank(t1))) &&
      (r.1.None? <==>
         (t1 == t2 || (IsArithmeticType(t1) && IsArithmeticType(t2)) ||
          (IsReferenceType(t1) && IsReferenceType(t2) &&
           (IsSubReferenceOf(a, cur, t1, t2) || IsSubReferenceOf(a, cur, t2, t1))))) &&
      (r.0.None? <==> r.1.Some? && !(IsReferenceType(t1) && IsReferenceType(t2)))
  {
    if IsArithmeticType(t1) && IsArithmeticType(t2) {
      ArithmeticConversionIsJoin(t1, t2);
    }
  }

  /** commonTypeConversion as written, on the as-written isSubReferenceOf. */
  function CommonTypeConversionAsWritten(a: seq<Scope>, cur: nat, t1: Type, t2: Type): (r: (Option<Type>, Option<string>))
    requires Valid(a) && cur < |a|
    ensures r.0.None? ==> r.1 == Some(IncompatibleMessage(t1, t2))
    ensures r.0.Some? ==> r.0.value == t1 || r.0.value == t2 || IsArithmeticType(r.0.value)
  {
    if t1 == t2 then (Some(t1), None)
    else if ArithmeticTypeConversion(t1, t2).Some? then (ArithmeticTypeConversion(t1, t2), None)
    else if IsReferenceType(t1) && IsReferenceType(t2) then
      if IsSubReferenceOfAsWritten(a, cur, t1, t2) then (Some(t2), None)
      else if IsSubReferenceOfAsWritten(a, cur, t2, t1) then (Some(t1), None)
      else (Some(t1), Some(IncompatibleMessage(t1, t2)))
    else (None, Some(IncompatibleMessage(t1, t2)))
  }

  /** As written, every type that is not a REF key (TEXT, INTEGER, REAL,
      BOOLEAN, CHARACTER, ...) has no qualification and so counts as a
      sub-reference of any qualified reference; the intended relation holds
      for none of them. */
  lemma NonReferenceIsSubReferenceAsWritten(a: seq<Scope>, cur: nat, t: Type, className: string)
    requires Valid(a) && cur < |a| && !t.Ref?
    ensures IsSubReferenceOfAsWritten(a, cur, t, MkRef(className))
    ensures !IsSubReferenceOf(a, cur, t, MkRef(className))
  {
  }

  /** So TEXT against ref(A) gets the common type ref(A) with no error as
      written, and "Incompatible types" as intended. */
  lemma TextCommonWithRefAsWritten(a: seq<Scope>, cur: nat)
    requires Valid(a) && cur < |a|
    ensures CommonTypeConversionAsWritten(a, cur, Text, MkRef("A")) == (Some(MkRef("A")), None)
    ensures CommonTypeConversion(a, cur, Text, MkRef("A")) == (Some(Text), Some(IncompatibleMessage(Text, MkRef("A"))))
  {
    NonReferenceIsSubReferenceAsWritten(a, cur, Text, "A");
  }

  /** Between two REF keys the as-written and the intended common type agree. */
  lemma CommonTypeConversionAgreesOnRefs(a: seq<Scope>, cur: nat, t1: Type, t2: Type)
    requires Valid(a) && cur < |a| && t1.Ref? && t2.Ref?
    ensures CommonTypeConversionAsWritten(a, cur, t1, t2) == CommonTypeConversion(a, cur, t1, t2)
  {
  }

  /** Without an error the common type does not depend on the operand order. */
  lemma CommonTypeConversionSymmetric(a: seq<Scope>, cur: nat, t1: Type, t2: Type)
    requires Valid(a) && cur < |a|
    requires CommonTypeConversion(a, cur, t1, t2).1.None?
    ensures CommonTypeConversion(a, cur, t2, t1) == CommonTypeConversion(a, cur, t1, t2)
  {
    ArithmeticConversionSymmetric(t1, t2);
    SubReferenceAntisymmetric(a, cur, t1, t2);
  }

  // ---------------------------------------------------------------------------
  // doChecking: the qualifying class of a REF type
  // ---------------------------------------------------------------------------

  function IllegalTypeMessage(t: Type, refIdent: string): string
  {
    "Illegal Type: " + ToString(t) + " - " + refIdent + " is not a Class"
  }

  /** The qualifying class doChecking finds for `t` from `scope`, and the
      errors reported on the way. */
  function QualOf(a: seq<Scope>, scope: nat, t: Type, duringParsing: bool): (r: (Option<nat>, seq<string>))
    requires Valid(a) && scope < |a|
    ensures r.0.Some? ==> r.0.value < |a| && IsClassDeclaration(a[r.0.value].cls)
  {
    var refIdent := GetRefIdent(t);
    if refIdent.None? || refIdent.value == "LABQNT$" || refIdent.value == "$UNKNOWN" then (None, [])
    else
      var (m, errors) := FindMeaning(a, scope, refIdent.value, duringParsing);
      match MeaningClass(a, m)
      case Some(d) => (Some(d), errors)
      case None => (None, errors + [IllegalTypeMessage(t, refIdent.value)])
  }

  /** A qualified REF type gets a class exactly when its name means a class
      from `scope`; otherwise "Illegal Type" is reported (after "Undefined
      variable" when the name is not declared at all). */
  lemma QualOfCases(a: seq<Scope>, scope: nat, t: Type, duringParsing: bool)
    requires Valid(a) && scope < |a|
    ensures var r := QualOf(a, scope, t, duringParsing);
      (GetRefIdent(t).None? ==> r == (None, [])) &&
      (GetRefIdent(t).Some? && GetRefIdent(t).value != "LABQNT$" && GetRefIdent(t).value != "$UNKNOWN" ==>
         var ref := GetRefIdent(t).value;
         var found := FindMeaning(a, scope, ref, duringParsing);
         (r.0.Some? <==> MeaningClass(a, found.0).Some?) &&
         (r.0.Some? ==> r.1 == [] && r.0 == MeaningClass(a, found.0)) &&
         (r.0.None? ==> |r.1| >= 1 && r.1[|r.1| - 1] == IllegalTypeMessage(t, ref)))
  {
    var refIdent := GetRefIdent(t);
    if refIdent.Some? && refIdent.value != "LABQNT$" && refIdent.value != "$UNKNOWN" {
      var found := FindMeaning(a, scope, refIdent.value, duringParsing);
      FoundMeaningBinds(a, scope, refIdent.value, duringParsing);
      if MeaningClass(a, found.0).Some? {
        assert found.0 != NoMeaning by {
          assert found.0.declaredAs.Some?;
        }
      }
    }
  }

  /** A type with the CHECKED flag and the class it is qualified by. */
  class CheckedType {
    const key: Type
    var qual: Option<nat>
    var checked: bool

    /** The class is only ever set by doChecking. */
    predicate Valid()
      reads this
    {
      !checked ==> qual.None?
    }

    constructor (key: Type)
      ensures Valid() && this.key == key && qual.None? && !checked
    {
      this.key := key;
      qual := None;
      checked := false;
    }

    /** doChecking: the first call sets the qualifying class; later calls
        change nothing. */
    method DoChecking(a: seq<Scope>, scope: nat, duringParsing: bool) returns (errors: seq<string>)
      requires Valid() && Scopes.Valid(a) && scope < |a|
      modifies this
      ensures Valid() && checked
      ensures old(checked) ==> qual == old(qual) && errors == []
      ensures !old(checked) ==> (qual, errors) == QualOf(a, scope, key, duringParsing)
    {
      if checked {
        return [];
      }
      errors := [];
      var refIdent := GetRefIdent(key);
      if refIdent.Some? {
        if refIdent.value != "LABQNT$" && refIdent.value != "$UNKNOWN" {
          var found := FindMeaning(a, scope, refIdent.value, duringParsing);
          var m := found.0;
          errors := found.1;
          var d := MeaningClass(a, m);
          if d.Some? {
            qual := d;
          } else {
            errors := errors + [IllegalTypeMessage(key, refIdent.value)];
          }
        }
      }
      checked := true;
    }

    /** getQual: only asked once the type is checked. */
    function GetQual(): (q: Option<nat>)
      reads this
      requires checked
      ensures q == qual
    {
      qual
    }
  }
}
