// The compiler's type values (Type.java): the fixed basic types, reference
// types qualified by a class name, and the pure maps from a type to its Java
// rendering. The conversions that need the class hierarchy are in TypeChecking.

module Types {
  import opened Util

  /** A type is its key token.  `Ref(None)` is the unqualified reference type
      (NONE); `Ref(Some(c))` is ref(c) with c upper-cased by the constructor;
      `Named(n)` is a key whose keyword is IDENTIFIER; `NoKey` a type whose
      key is null. */
  datatype Type =
    | Integer | Real | LongReal | Boolean | Character | Text | Procedure | Label
    | Ref(ident: Option<string>)
    | Named(name: string)
    | NoKey

  /** Type(String className): the class name is upper-cased into the key. */
  function MkRef(className: string): (t: Type)
    ensures t.Ref? && t.ident == Some(Upper(className)) && |t.ident.value| == |className|
    ensures forall i :: 0 <= i < |t.ident.value| ==> !('a' <= t.ident.value[i] <= 'z')
  {
    Ref(Some(Upper(className)))
  }

  /** Type equality is key equality, so two Ref(c) types are equal exactly when
      the class names agree ignoring case. */
  lemma RefEqualityIgnoresCase(a: string, b: string)
    ensures MkRef(a) == MkRef(b) <==> EqualsIgnoreCase(a, b)
  {
    EqualsIgnoreCaseIffUpper(a, b);
  }

  /** getRefIdent: the qualifying class name of a REF key, if any. */
  function GetRefIdent(t: Type): (r: Option<string>)
    ensures r.Some? <==> t.Ref? && t.ident.Some?
  {
    if t.Ref? then t.ident else None
  }

  predicate IsArithmeticType(t: Type)
  {
    t == Integer || t == Real || t == LongReal
  }

  /** isReferenceType: a REF key or Text (a non-null refIdent implies REF). */
  predicate IsReferenceType(t: Type)
  {
    t.Ref? || t == Text || GetRefIdent(t).Some?
  }

  /** Position on the widening order Integer < Real < LongReal. */
  function ArithRank(t: Type): (k: nat)
    requires IsArithmeticType(t)
    ensures k < 3
  {
    match t
    case Integer => 0
    case Real => 1
    case LongReal => 2
  }

  /** arithmeticTypeConversion: the wider of two arithmetic types, none otherwise. */
  function ArithmeticTypeConversion(t1: Type, t2: Type): (r: Option<Type>)
    ensures r.Some? <==> IsArithmeticType(t1) && IsArithmeticType(t2)
  {
    if t1 == Integer then
      (if t2 == Integer then Some(Integer)
       else if t2 == Real then Some(Real)
       else if t2 == LongReal then Some(LongReal)
       else None)
    else if t1 == Real then
      (if t2 == Integer then Some(Real)
       else if t2 == Real then Some(Real)
       else if t2 == LongReal then Some(LongReal)
       else None)
    else if t1 == LongReal then
      (if t2 == Integer then Some(LongReal)
       else if t2 == Real then Some(LongReal)
       else if t2 == LongReal then Some(LongReal)
       else None)
    else None
  }

  /** The conversion yields the least upper bound on Integer < Real < LongReal. */
  lemma ArithmeticConversionIsJoin(t1: Type, t2: Type)
    requires IsArithmeticType(t1) && IsArithmeticType(t2)
    ensures ArithmeticTypeConversion(t1, t2).Some?
    ensures var w := ArithmeticTypeConversion(t1, t2).value;
      IsArithmeticType(w) && (w == t1 || w == t2) &&
      ArithRank(w) == (if ArithRank(t1) < ArithRank(t2) then ArithRank(t2) else ArithRank(t1))
  {
  }

  lemma ArithmeticConversionSymmetric(t1: Type, t2: Type)
    ensures ArithmeticTypeConversion(t1, t2) == ArithmeticTypeConversion(t2, t1)
  {
  }

  lemma ArithmeticConversionIdempotent(t: Type)
    requires IsArithmeticType(t)
    ensures ArithmeticTypeConversion(t, t) == Some(t)
  {
  }

  /** The key's spelling, as the keyword token prints it. */
  function KeyName(t: Type): string
  {
    match t
    case Integer => "INTEGER"
    case Real => "REAL"
    case LongReal => "REAL"
    case Boolean => "BOOLEAN"
    case Character => "CHARACTER"
    case Text => "TEXT"
    case Procedure => "PROCEDURE"
    case Label => "LABEL"
    case Ref(_) => "REF"
    case Named(n) => n
    case NoKey => "null"
  }

  /** toString: "Ref(c)" for a reference, "LONG REAL" for long real, else the key. */
  function ToString(t: Type): (s: string)
    ensures !t.Named? ==> (t.Ref? <==> StartsWith(s, "Ref("))
    ensures t.Ref? ==> |s| >= 5 && s[|s| - 1] == ')' && s[4..|s| - 1] == if t.ident.Some? then t.ident.value else "null"
    ensures t.Named? ==> s == t.name
    ensures t == LongReal ==> s == "LONG REAL"
  {
    if t == NoKey then assert "null"[0] != 'R'; "null"
    else if t.Ref? then "Ref(" + (if t.ident.Some? then t.ident.value else "null") + ")"
    else if t == LongReal then assert "LONG REAL"[0] != 'R'; "LONG REAL"
    else
      assert t.Named? || |KeyName(t)| < 4 || KeyName(t)[1] != 'e';
      KeyName(t)
  }

  /** A qualification as the constructor makes it: no lower-case letter. */
  predicate UpperQualified(t: Type)
  {
    t.Ref? && t.ident.Some? ==> forall i :: 0 <= i < |t.ident.value| ==> !('a' <= t.ident.value[i] <= 'z')
  }

  /** The printed form names the type: two types that are not identifier keys
      and whose qualifications are upper-cased print alike only when equal. */
  lemma ToStringInjective(t1: Type, t2: Type)
    requires !t1.Named? && !t2.Named? && UpperQualified(t1) && UpperQualified(t2)
    requires ToString(t1) == ToString(t2)
    ensures t1 == t2
  {
    var s := ToString(t1);
    if t1.Ref? {
      assert t2.Ref?;
      var q1 := if t1.ident.Some? then t1.ident.value else "null";
      var q2 := if t2.ident.Some? then t2.ident.value else "null";
      assert q1 == s[4..|s| - 1] == q2;
    } else {
      assert !t2.Ref?;
    }
  }

  /** edDefaultValue: the Java literal a variable of this type starts with;
      None where the source returns null (an IDENTIFIER key). */
  function EdDefaultValue(t: Type): (r: Option<string>)
    ensures r.None? <==> t.Named?
  {
    if t == NoKey then Some("void")
    else if t.Named? then None
    else if t.Ref? then Some("null")
    else if t == LongReal then Some("0.0d")
    else if t == Real then Some("0.0f")
    else if t == Integer then Some("0")
    else if t == Boolean then Some("false")
    else if t == Character then Some("0")
    else if t == Text then Some("null")
    else if t == Label then Some("null")
    else Some(ToString(t))
  }

  /** Reference-like types, and labels, start out as Java's null. */
  lemma DefaultIsNullExactlyForReferences(t: Type)
    ensures EdDefaultValue(t) == Some("null") <==> IsReferenceType(t) || t == Label
  {
  }

  /** getJavaRefIdent for a REF key: RTObject$ for an unqualified ref, UNKNOWN
      when the qualification did not resolve to a class, else the Java class
      name of the qualifying class (`qualJava`). */
  function JavaRefIdent(t: Type, qualJava: Option<string>): (s: string)
    requires t.Ref?
  {
    if t.ident.None? then "RTObject$"
    else if qualJava.None? then "UNKNOWN"
    else qualJava.value
  }

  /** toJavaType: the Java type a value of this type is stored in. */
  function ToJavaType(t: Type, qualJava: Option<string>): (s: string)
  {
    if t == NoKey then "void"
    else if t.Ref? then JavaRefIdent(t, qualJava)
    else if t == LongReal then "double"
    else if t == Real then "float"
    else if t == Integer then "int"
    else if t == Boolean then "boolean"
    else if t == Character then "char"
    else if t == Text then "TXT$"
    else if t == Procedure then "PRCQNT$"
    else if t == Label then "LABQNT$"
    else ToString(t)
  }

  /** toJavaTypeClass: the Java class used where a boxed value is needed. */
  function ToJavaTypeClass(t: Type, qualJava: Option<string>): (s: string)
  {
    if t == NoKey then "void"
    else if t.Ref? then JavaRefIdent(t, qualJava)
    else if t == LongReal then "Double"
    else if t == Real then "Float"
    else if t == Integer then "Integer"
    else if t == Boolean then "Boolean"
    else if t == Character then "Character"
    else if t == Text then "TXT$"
    else ToString(t)
  }

  /** Java's boxing of a primitive type name. */
  function Boxed(javaType: string): string
  {
    if javaType == "double" then "Double"
    else if javaType == "float" then "Float"
    else if javaType == "int" then "Integer"
    else if javaType == "boolean" then "Boolean"
    else if javaType == "char" then "Character"
    else javaType
  }

  predicate IsBasicValueType(t: Type)
  {
    IsArithmeticType(t) || t == Boolean || t == Character
  }

  /** The type class is the boxed Java type, for every type except the
      procedure and label quantities. */
  lemma JavaTypeClassIsBoxedJavaType(t: Type, qualJava: Option<string>)
    requires t != Procedure && t != Label
    requires t.Named? ==> t.name !in {"double", "float", "int", "boolean", "char"}
    requires qualJava.Some? ==> qualJava.value !in {"double", "float", "int", "boolean", "char"}
    ensures ToJavaTypeClass(t, qualJava) == Boxed(ToJavaType(t, qualJava))
  {
  }

  /** The basic value types map to pairwise different primitive Java types. */
  lemma JavaTypeInjectiveOnValueTypes(t1: Type, t2: Type, q: Option<string>)
    requires IsBasicValueType(t1) && IsBasicValueType(t2)
    requires ToJavaType(t1, q) == ToJavaType(t2, q)
    ensures t1 == t2
  {
  }
}
