// The editor's token (Drafts/src/simula/editor/Token.java): a keyword, an
// optional source text and an optional value, with its style class for
// syntax colouring and its printed form.

module EditorTokens {
  import opened Util

  /** The keywords of the Simula scanner that the token treats specially,
      and every other reserved word by its name. */
  datatype KeyWord =
    | BOOLEANKONST | INTEGERKONST | CHARACTERKONST | REALKONST | TEXTKONST
    | IDENTIFIER | COMMENT | INTEGER | REAL | SHORT | LONG
    | ASSIGNVALUE | ASSIGNREF | COMMA | COLON | SEMICOLON | BEGPAR | ENDPAR
    | BEGBRACKET | ENDBRACKET | DOT | PLUS | MINUS | MUL | DIV | INTDIV | EXP
    | CONC | EQ | GE | GT | LE | LT | NE | EQR | NER | IN | IS
    | Reserved(word: string)

  /** The enum constant's name, which is what KeyWord.toString prints. */
  function Name(k: KeyWord): string
  {
    match k
    case BOOLEANKONST => "BOOLEANKONST" case INTEGERKONST => "INTEGERKONST"
    case CHARACTERKONST => "CHARACTERKONST" case REALKONST => "REALKONST"
    case TEXTKONST => "TEXTKONST" case IDENTIFIER => "IDENTIFIER"
    case COMMENT => "COMMENT" case INTEGER => "INTEGER" case REAL => "REAL"
    case SHORT => "SHORT" case LONG => "LONG"
    case ASSIGNVALUE => "ASSIGNVALUE" case ASSIGNREF => "ASSIGNREF"
    case COMMA => "COMMA" case COLON => "COLON" case SEMICOLON => "SEMICOLON"
    case BEGPAR => "BEGPAR" case ENDPAR => "ENDPAR" case BEGBRACKET => "BEGBRACKET"
    case ENDBRACKET => "ENDBRACKET" case DOT => "DOT" case PLUS => "PLUS"
    case MINUS => "MINUS" case MUL => "MUL" case DIV => "DIV" case INTDIV => "INTDIV"
    case EXP => "EXP" case CONC => "CONC" case EQ => "EQ" case GE => "GE"
    case GT => "GT" case LE => "LE" case LT => "LT" case NE => "NE" case EQR => "EQR"
    case NER => "NER" case IN => "IN" case IS => "IS"
    case Reserved(word) => word
  }

  /** A token's value.  A real constant keeps the text Java prints for it;
      SHORT and LONG in the value of INTEGER and REAL are keywords. */
  datatype Value =
    | LongValue(n: int)
    | RealValue(image: string)
    | CharValue(c: char)
    | StringValue(s: string)
    | BoolValue(b: bool)
    | KeyValue(k: KeyWord)

  datatype Token = Token(text: Option<string>, keyWord: KeyWord, value: Option<Value>)

  datatype StyleCode = Regular | Keyword | Comment

  /** What `"" + value` prints: "null" for no value. */
  function ValueString(v: Option<Value>): string
  {
    match v
    case None => "null"
    case Some(LongValue(n)) => IntToString(n)
    case Some(RealValue(image)) => image
    case Some(CharValue(c)) => [c]
    case Some(StringValue(s)) => s
    case Some(BoolValue(b)) => if b then "true" else "false"
    case Some(KeyValue(k)) => Name(k)
  }

  /** The fixed symbol an operator or separator prints as. */
  function Symbol(k: KeyWord): Option<string>
  {
    match k
    case COMMA => Some(",") case COLON => Some(":") case SEMICOLON => Some(";")
    case BEGPAR => Some("(") case ENDPAR => Some(")") case BEGBRACKET => Some("[")
    case ENDBRACKET => Some("]") case EXP => Some("**") case DOT => Some(".")
    case CONC => Some("&") case EQ => Some("=") case GE => Some(">=")
    case GT => Some(">") case LE => Some("<=") case LT => Some("<")
    case NE => Some("<>") case EQR => Some("==") case NER => Some("=/=")
    case IN => Some("IN") case IS => Some("IS") case PLUS => Some("+")
    case MINUS => Some("-") case MUL => Some("*") case DIV => Some("/")
    case INTDIV => Some("//") case ASSIGNVALUE => Some(":=")
    case ASSIGNREF => Some(":-")
    case _ => None
  }

  /** The keyword a printed symbol stands for, read the way a scanner reads
      it: by its length and its characters. */
  function SymbolKeyWord(s: string): Option<KeyWord>
  {
    if |s| == 1 then OneCharSymbol(s[0])
    else if |s| == 2 then TwoCharSymbol(s[0], s[1])
    else if |s| == 3 && s[0] == '=' && s[1] == '/' && s[2] == '=' then Some(NER)
    else None
  }

  function OneCharSymbol(c: char): Option<KeyWord>
  {
    match c
    case ',' => Some(COMMA) case ':' => Some(COLON) case ';' => Some(SEMICOLON)
    case '(' => Some(BEGPAR) case ')' => Some(ENDPAR) case '[' => Some(BEGBRACKET)
    case ']' => Some(ENDBRACKET) case '.' => Some(DOT) case '&' => Some(CONC)
    case '=' => Some(EQ) case '>' => Some(GT) case '<' => Some(LT)
    case '+' => Some(PLUS) case '-' => Some(MINUS) case '*' => Some(MUL)
    case '/' => Some(DIV)
    case _ => None
  }

  function TwoCharSymbol(a: char, b: char): Option<KeyWord>
  {
    match a
    case '*' => if b == '*' then Some(EXP) else None
    case '>' => if b == '=' then Some(GE) else None
    case '<' => if b == '=' then Some(LE) else if b == '>' then Some(NE) else None
    case '=' => if b == '=' then Some(EQR) else None
    case 'I' => if b == 'N' then Some(IN) else if b == 'S' then Some(IS) else None
    case '/' => if b == '/' then Some(INTDIV) else None
    case ':' => if b == '=' then Some(ASSIGNVALUE) else if b == '-' then Some(ASSIGNREF) else None
    case _ => None
  }

  /** No two operators print alike: the printed symbol tells the operator. */
  lemma SymbolRoundTrip(k: KeyWord)
    requires Symbol(k).Some?
    ensures SymbolKeyWord(Symbol(k).value) == Some(k)
  {
    match k
    case COMMA => case COLON => case SEMICOLON => case BEGPAR => case ENDPAR =>
    case BEGBRACKET => case ENDBRACKET => case EXP => case DOT => case CONC =>
    case EQ => case GE => case GT => case LE => case LT => case NE => case EQR =>
    case NER => case IN => case IS => case PLUS => case MINUS => case MUL =>
    case DIV => case INTDIV => case ASSIGNVALUE => case ASSIGNREF =>
  }

  /** The constants print as their kind and value in parentheses. */
  predicate IsConstant(k: KeyWord)
  {
    k.INTEGERKONST? || k.REALKONST? || k.CHARACTERKONST? || k.TEXTKONST? || k.BOOLEANKONST?
  }

  /** The text between "<name>(" and the final ")" of a printed constant of
      kind `k`, if `s` has that form. */
  function Unwrapped(s: string, k: KeyWord): Option<string>
  {
    var p := Name(k) + "(";
    if |s| > |p| && s[..|p|] == p && s[|s| - 1] == ')' then Some(s[|p|..|s| - 1]) else None
  }

  /** The kind and the value text of a printed constant, read back from its
      leading name. */
  function ConstantOf(s: string): Option<(KeyWord, string)>
  {
    if Unwrapped(s, INTEGERKONST).Some? then Some((INTEGERKONST, Unwrapped(s, INTEGERKONST).value))
    else if Unwrapped(s, REALKONST).Some? then Some((REALKONST, Unwrapped(s, REALKONST).value))
    else if Unwrapped(s, CHARACTERKONST).Some? then Some((CHARACTERKONST, Unwrapped(s, CHARACTERKONST).value))
    else if Unwrapped(s, TEXTKONST).Some? then Some((TEXTKONST, Unwrapped(s, TEXTKONST).value))
    else if Unwrapped(s, BOOLEANKONST).Some? then Some((BOOLEANKONST, Unwrapped(s, BOOLEANKONST).value))
    else None
  }

  /** An identifier character: a letter, a digit or an underscore. */
  predicate IdentifierChars(s: string)
  {
    forall i :: 0 <= i < |s| ==> IsLetterOrDigit(s[i]) || s[i] == '_'
  }

  /** toString.  What a reader of the printed form can rely on: an operator's
      symbol reads back as the operator, a constant's printed form reads back
      as its kind and the printed value, an identifier prints its name, and
      any other keyword token ends with the keyword's name, preceded by its
      SHORT or LONG for INTEGER and REAL. */
  function ToString(t: Token): (r: string)
    ensures Symbol(t.keyWord).Some? ==> SymbolKeyWord(r) == Some(t.keyWord)
    ensures IsConstant(t.keyWord) ==> ConstantOf(r) == Some((t.keyWord, ValueString(t.value)))
    ensures t.keyWord == IDENTIFIER && t.value.Some? && t.value.value.StringValue? ==> r == t.value.value.s
    ensures Symbol(t.keyWord).None? && !IsConstant(t.keyWord) && t.keyWord != IDENTIFIER ==> EndsWith(r, Name(t.keyWord))
    ensures (t.keyWord == INTEGER || t.keyWord == REAL) && t.value.Some? && t.value.value.KeyValue? ==>
      StartsWith(r, Name(t.value.value.k) + " ")
  {
    var k := t.keyWord;
    var sym := Symbol(k);
    if sym.Some? then SymbolRoundTrip(k); sym.value
    else if IsConstant(k) then ConstantReadsBack(k, ValueString(t.value)); Name(k) + "(" + ValueString(t.value) + ")"
    else if k == IDENTIFIER then ValueString(t.value)
    else if (k == INTEGER || k == REAL) && t.value.Some? then ValueString(t.value) + " " + Name(k)
    else Name(k)
  }

  /** A constant printed as "<kind>(<value>)" reads back as that kind and
      value: the five kind names start with five different letters. */
  lemma ConstantReadsBack(k: KeyWord, v: string)
    requires IsConstant(k)
    ensures ConstantOf(Name(k) + "(" + v + ")") == Some((k, v))
  {
    var n := Name(k);
    var s := n + "(" + v + ")";
    UnwrappedOwn(n, k, v);
    assert s[0] == n[0];
    match k {
      case INTEGERKONST =>
      case REALKONST => OtherKind(s, INTEGERKONST);
      case CHARACTERKONST => OtherKind(s, INTEGERKONST); OtherKind(s, REALKONST);
      case TEXTKONST => OtherKind(s, INTEGERKONST); OtherKind(s, REALKONST); OtherKind(s, CHARACTERKONST);
      case BOOLEANKONST =>
        OtherKind(s, INTEGERKONST); OtherKind(s, REALKONST); OtherKind(s, CHARACTERKONST); OtherKind(s, TEXTKONST);
    }
  }

  lemma UnwrappedOwn(n: string, k: KeyWord, v: string)
    requires n == Name(k)
    ensures Unwrapped(n + "(" + v + ")", k) == Some(v)
  {
    var s := n + "(" + v + ")";
    assert s[..|n| + 1] == n + "(" && s[|n| + 1..|s| - 1] == v;
  }

  lemma OtherKind(s: string, k: KeyWord)
    requires |s| > 0 && |Name(k)| > 0 && s[0] != Name(k)[0]
    ensures Unwrapped(s, k).None?
  {
  }

  /** Two constants that print alike are of the same kind and print the
      same value. */
  lemma ConstantPrintInjective(t1: Token, t2: Token)
    requires IsConstant(t1.keyWord) && IsConstant(t2.keyWord) && ToString(t1) == ToString(t2)
    ensures t1.keyWord == t2.keyWord && ValueString(t1.value) == ValueString(t2.value)
  {
  }

  /** Two identifiers that print alike have the same name, and an identifier
      never prints like a constant. */
  lemma IdentifierPrintInjective(t1: Token, t2: Token, a: string, b: string)
    requires t1.keyWord == IDENTIFIER && t1.value == Some(StringValue(a))
    requires t2.keyWord == IDENTIFIER && t2.value == Some(StringValue(b))
    requires IdentifierChars(a)
    ensures ToString(t1) == ToString(t2) <==> a == b
    ensures ConstantOf(ToString(t1)).None?
  {
    if |a| > 0 {
      assert IsLetterOrDigit(a[|a| - 1]) || a[|a| - 1] == '_';
    }
  }

  /** INTEGER and REAL print as their name, preceded by the SHORT or LONG
      of their value part and a space when there is one. */
  lemma SizedTypePrints(x: Option<string>, k: KeyWord, w: KeyWord)
    requires k == INTEGER || k == REAL
    ensures ToString(Token(x, k, Some(KeyValue(w)))) == Name(w) + " " + Name(k)
    ensures ToString(Token(x, k, None)) == Name(k)
  {
  }

  /** getText: the scanned text when there is one, kept verbatim whatever
      the keyword and value; otherwise the printed form, which reads back as
      the operator or the constant. */
  function GetText(t: Token): (r: string)
    ensures t.text.Some? ==> r == t.text.value
    ensures t.text.None? && Symbol(t.keyWord).Some? ==> SymbolKeyWord(r) == Some(t.keyWord)
    ensures t.text.None? && IsConstant(t.keyWord) ==> ConstantOf(r) == Some((t.keyWord, ValueString(t.value)))
    ensures t.text.None? && t.keyWord == IDENTIFIER && t.value.Some? && t.value.value.StringValue? ==>
      r == t.value.value.s
  {
    if t.text.None? then ToString(t) else t.text.value
  }

  /** getStyleCode: comments, the regular tokens (punctuation, arithmetic
      operators, constants and identifiers), and every other keyword. */
  function GetStyleCode(k: KeyWord): StyleCode
  {
    match k
    case ASSIGNVALUE | ASSIGNREF | COMMA | COLON | SEMICOLON | BEGPAR | ENDPAR
      | BEGBRACKET | ENDBRACKET | PLUS | MINUS | MUL | DIV | INTDIV | EXP
      | IDENTIFIER | BOOLEANKONST | INTEGERKONST | CHARACTERKONST | REALKONST
      | TEXTKONST | DOT => Regular
    case COMMENT => Comment
    case _ => Keyword
  }

  /** The tokens drawn in the regular style. */
  const RegularKeyWords: set<KeyWord> := {
    ASSIGNVALUE, ASSIGNREF, COMMA, COLON, SEMICOLON, BEGPAR, ENDPAR,
    BEGBRACKET, ENDBRACKET, PLUS, MINUS, MUL, DIV, INTDIV, EXP,
    IDENTIFIER, BOOLEANKONST, INTEGERKONST, CHARACTERKONST, REALKONST,
    TEXTKONST, DOT}

  /** Exactly the regular tokens get the regular style, only COMMENT the
      comment style; the reference comparisons and the relational operators
      are drawn as keywords. */
  lemma StyleCodeClasses(k: KeyWord)
    ensures GetStyleCode(k) == Regular <==> k in RegularKeyWords
    ensures GetStyleCode(k) == Comment <==> k == COMMENT
    ensures k in {EQR, NER, EQ, LT, Reserved("BEGIN")} ==> GetStyleCode(k) == Keyword
  {
  }

  /** equals, branch by branch: values the same or both present and equal. */
  function Equals(a: Token, b: Token): bool
  {
    if a.keyWord != b.keyWord then false
    else if a.value == b.value then true
    else if a.value.None? then false
    else if b.value.None? then false
    else a.value.value == b.value.value
  }

  /** On values, equality of tokens is equality of keyword and value; the
      source text does not take part. */
  lemma EqualsMeans(a: Token, b: Token)
    ensures Equals(a, b) <==> a.keyWord == b.keyWord && a.value == b.value
    ensures Equals(a, b) == Equals(b, a)
    ensures Equals(a, a)
  {
  }
}
