// What the statement and expression nodes of this model need to know about
// an expression they hold.  Expression.java and Constant.java are not part
// of this model: an operand is the record of what its own checking and
// coding give.

module Expressions {
  import opened Util
  import opened Types

  /** The value of a numeric constant (Expression.getNumber). */
  datatype Number = IntNumber(i: int) | RealNumber(r: real)

  /** A checked operand: its printed form (toString), its Java code
      (toJavaCode), its type (null before checking) and the number it stands
      for when it is a numeric constant. */
  datatype Expr = Expr(image: string, code: string, typ: Option<Type>, number: Option<Number>)

  /** `new Variable(ident)` as an operand: a name with no type and no value. */
  function NamedVariable(ident: string): (e: Expr)
    ensures e.image == ident && e.typ.None? && e.number.None?
  {
    Expr(ident, ident, None, None)
  }
}
