// Unary operations (UnaryOperation.java): NOT, unary plus and unary minus
// applied to an operand, folded at compile time when the operand is a
// numeric constant, typed by doChecking and coded as a parenthesised Java
// operator application.

module UnaryOperations {
  import opened Util
  import opened Types
  import opened Expressions

  datatype UnaryOp = NOT | PLUS | MINUS

  /** KeyWord.toString of the operator. */
  function OpName(op: UnaryOp): string
  {
    match op
    case NOT => "NOT"
    case PLUS => "PLUS"
    case MINUS => "MINUS"
  }

  /** KeyWord.toJavaCode of the operator: one Java operator character. */
  function OpCode(op: UnaryOp): (r: string)
    ensures |r| == 1
  {
    match op
    case NOT => "!"
    case PLUS => "+"
    case MINUS => "-"
  }

  /** Constant.evaluate(op, n): the constant +n or -n, of the same kind. */
  function Evaluated(op: UnaryOp, n: Number): (r: Number)
    requires op != NOT
    ensures r.IntNumber? == n.IntNumber?
  {
    match n
    case IntNumber(i) => if op == PLUS then n else IntNumber(-i)
    case RealNumber(x) => if op == PLUS then n else RealNumber(-x)
  }

  /** Unary plus leaves a constant alone, and unary minus undoes itself. */
  lemma EvaluatedInvolution(n: Number)
    ensures Evaluated(PLUS, n) == n
    ensures Evaluated(MINUS, Evaluated(MINUS, n)) == n
    ensures Evaluated(MINUS, n) == n <==> (n.IntNumber? && n.i == 0) || (n.RealNumber? && n.r == 0.0)
  {
  }

  /** What create folds to: only PLUS and MINUS, and only with an operand
      that is a numeric constant.  A missing operand makes getNumber throw,
      which create catches, so it is not folded either. */
  function Folded(op: UnaryOp, operand: Option<Expr>): (r: Option<Number>)
    ensures r.Some? <==> op != NOT && operand.Some? && operand.value.number.Some?
    ensures r.Some? ==> r.value == Evaluated(op, operand.value.number.value)
  {
    if op == NOT then None
    else if operand.None? then None
    else if operand.value.number.None? then None
    else Some(Evaluated(op, operand.value.number.value))
  }

  /** The operand a node keeps: the one given, or the variable UNKNOWN_ for
      a missing one. */
  function Recovered(operand: Option<Expr>): (r: Expr)
    ensures operand.Some? ==> r == operand.value
    ensures operand.None? ==> r == NamedVariable("UNKNOWN_") && r.number.None?
  {
    if operand.None? then NamedVariable("UNKNOWN_") else operand.value
  }

  function MissingOperandMessage(op: UnaryOp): string
  {
    "Missing operand after unary " + OpName(op)
  }

  class UnaryOperation {
    const oprator: UnaryOp
    const operand: Expr
    var typ: Option<Type>
    var checked: bool

    /** The private constructor, once its missing operand has been replaced. */
    constructor Node(op: UnaryOp, e: Expr)
      ensures oprator == op && operand == e && typ.None? && !checked
    {
      oprator := op;
      operand := e;
      typ := None;
      checked := false;
    }

    /** evaluate: the folded constant (None when the node stays itself). */
    method Evaluate() returns (r: Option<Number>)
      ensures r == Folded(oprator, Some(operand))
    {
      r := None;
      if oprator == PLUS || oprator == MINUS {
        var rhn := operand.number;
        if rhn.Some? {
          r := Some(Evaluated(oprator, rhn.value));
        }
      }
    }

    /** doChecking: the first call types the node, Boolean for NOT and the
        operand's type for PLUS and MINUS; later calls change nothing. */
    method DoChecking()
      modifies this
      ensures checked
      ensures old(checked) ==> typ == old(typ)
      ensures !old(checked) ==> typ == CheckedType(oprator, operand)
    {
      if checked {
        return;
      }
      if oprator == NOT {
        typ := Some(Boolean);
      } else if oprator == PLUS || oprator == MINUS {
        typ := operand.typ;
      }
      checked := true;
    }

    /** maybeStatement: a unary operation is never a statement. */
    function MaybeStatement(): (r: bool)
      reads this
      requires checked
      ensures !r
    {
      false
    }

    /** toJavaCode: "(" operator "(" operand "))". */
    function ToJavaCode(): (r: string)
      reads this
      requires checked
      ensures |r| == |operand.code| + 5
      ensures r[1..2] == OpCode(oprator) && r[3..|r| - 2] == operand.code
    {
      "(" + OpCode(oprator) + "(" + operand.code + "))"
    }

    /** toString: "(UNARY:" operator name, a space, the operand ")". */
    function ToString(): (r: string)
      reads this
      ensures StartsWith(r, "(UNARY:") && |r| > |operand.image|
      ensures r[|r| - |operand.image| - 1..] == operand.image + ")"
    {
      "(UNARY:" + OpName(oprator) + " " + operand.image + ")"
    }
  }

  /** The type doChecking gives a node. */
  function CheckedType(op: UnaryOp, operand: Expr): (r: Option<Type>)
    ensures op == NOT ==> r == Some(Boolean)
    ensures op != NOT ==> r == operand.typ
  {
    if op == NOT then Some(Boolean) else operand.typ
  }

  /** Unary plus and minus keep an arithmetic operand arithmetic, and NOT is
      Boolean whatever the operand. */
  lemma CheckedTypeArithmetic(op: UnaryOp, operand: Expr)
    requires op != NOT && operand.typ.Some? && IsArithmeticType(operand.typ.value)
    ensures CheckedType(op, operand).Some? && IsArithmeticType(CheckedType(op, operand).value)
  {
  }

  /** The Java code of a node tells its operator and its operand's code. */
  lemma JavaCodeDetermines(u: UnaryOperation, v: UnaryOperation)
    requires u.checked && v.checked && u.ToJavaCode() == v.ToJavaCode()
    ensures u.oprator == v.oprator && u.operand.code == v.operand.code
  {
    assert OpCode(u.oprator) == OpCode(v.oprator);
  }

  /** create: the folded constant, or else a new node with the error a
      missing operand reports. */
  method Create(op: UnaryOp, operand: Option<Expr>) returns (folded: Option<Number>, node: UnaryOperation?, error: Option<string>)
    ensures folded == Folded(op, operand)
    ensures node == null <==> folded.Some?
    ensures node != null ==> fresh(node) && node.oprator == op && node.operand == Recovered(operand)
    ensures node != null ==> node.typ.None? && !node.checked
    ensures error.Some? <==> node != null && operand.None?
    ensures error.Some? ==> error.value == MissingOperandMessage(op)
  {
    error := None;
    folded := None;
    node := null;
    if (op == PLUS || op == MINUS) && operand.Some? {
      var rhn := operand.value.number;
      if rhn.Some? {
        folded := Some(Evaluated(op, rhn.value));
        return;
      }
    }
    var e: Expr;
    if operand.None? {
      error := Some(MissingOperandMessage(op));
      e := NamedVariable("UNKNOWN_");
    } else {
      e := operand.value;
    }
    node := new UnaryOperation.Node(op, e);
  }

  /** A node's own evaluate agrees with what create folds. */
  lemma EvaluateAgreesWithCreate(op: UnaryOp, e: Expr)
    ensures Folded(op, Some(e)) == Folded(op, Some(Recovered(Some(e))))
    ensures Folded(op, Some(Recovered(None))) == None
  {
  }

  /** Folding a unary minus twice gives back the constant. */
  lemma FoldMinusTwice(e: Expr, m: Number)
    requires Folded(MINUS, Some(e)) == Some(m)
    ensures Folded(MINUS, Some(e.(number := Some(m)))) == e.number
  {
    EvaluatedInvolution(e.number.value);
  }
}
