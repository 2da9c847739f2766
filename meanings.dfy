// DeclarationScope.findMeaning: each kind of scope searches its own visible
// attributes (ClassDeclaration, ProcedureDeclaration, MaybeBlockDeclaration),
// and the search recurses outward along declaredIn; the outermost scope
// reports an undefined identifier and hands back an empty meaning.

module Meanings {
  import opened Util
  import opened Scopes
  import opened ClassDeclarations
  import opened ProcedureDeclarations
  import opened MaybeBlocks

  /** findVisibleAttributeMeaning, as the scope's class overrides it.  A
      connection block's own search is not part of this model: it finds
      nothing. */
  function VisibleAttribute(a: seq<Scope>, c: nat, ident: string): (r: Option<Meaning>)
    requires Valid(a) && c < |a|
    ensures r.Some? ==> Binds(a, c, ident, r.value)
    ensures a[c].cls == ConnectionDecl ==> r.None?
  {
    match a[c].cls
    case ClassDecl => VisibleAttributeMeaning(a, c, ident)
    case StandardClassDecl => VisibleAttributeMeaning(a, c, ident)
    case PrefixedBlockDecl => VisibleAttributeMeaning(a, c, ident)
    case ProcedureDecl => ProcVisibleAttribute(a, c, ident)
    case StandardProcedureDecl => ProcVisibleAttribute(a, c, ident)
    case MaybeBlockDecl => MaybeVisibleAttribute(a, c, ident)
    case ConnectionDecl => None
  }

  /** `new Meaning(null, null)`: the error-recovery meaning. */
  const NoMeaning := Meaning(None, None, None, false)

  function UndefinedMessage(ident: string): string
  {
    "Undefined variable: " + ident
  }

  /** findMeaning from scope `c`: the meaning and the errors reported.  An
      error is reported exactly when nothing is found outside parsing, and it
      is the one "Undefined variable" message. */
  function FindMeaning(a: seq<Scope>, c: nat, ident: string, duringParsing: bool): (r: (Meaning, seq<string>))
    requires Valid(a) && c < |a|
    ensures r.1 == (if r.0 == NoMeaning && !duringParsing then [UndefinedMessage(ident)] else [])
    decreases c
  {
    match VisibleAttribute(a, c, ident)
    case Some(m) => (m, [])
    case None =>
      if a[c].declaredIn.Some? then
        ValidAt(a, c);
        FindMeaning(a, a[c].declaredIn.value, ident, duringParsing)
      else (NoMeaning, if duringParsing then [] else [UndefinedMessage(ident)])
  }

  /** The innermost scope on the enclosing chain that has a visible attribute
      of that name gives the meaning, and no error is reported. */
  lemma {:induction false} InnermostMeaningWins(a: seq<Scope>, c: nat, ident: string, duringParsing: bool, j: nat)
    requires Valid(a) && c < |a|
    requires j < |EnclosingChain(a, Some(c))|
    requires VisibleAttribute(a, EnclosingChain(a, Some(c))[j], ident).Some?
    requires forall i :: 0 <= i < j ==> VisibleAttribute(a, EnclosingChain(a, Some(c))[i], ident).None?
    ensures var s := EnclosingChain(a, Some(c))[j];
      FindMeaning(a, c, ident, duringParsing) == (VisibleAttribute(a, s, ident).value, [])
    decreases c
  {
    var chain := EnclosingChain(a, Some(c));
    if j > 0 {
      assert VisibleAttribute(a, c, ident).None? by { assert chain[0] == c; }
      ValidAt(a, c);
      var d := a[c].declaredIn.value;
      var rest := EnclosingChain(a, Some(d));
      assert chain[1..] == rest;
      forall i | 0 <= i < j - 1
        ensures VisibleAttribute(a, rest[i], ident).None?
      {
        assert rest[i] == chain[i + 1];
      }
      assert rest[j - 1] == chain[j];
      InnermostMeaningWins(a, d, ident, duringParsing, j - 1);
    }
  }

  /** When no scope on the chain has the name, the result is the empty meaning,
      with one "Undefined variable" error outside parsing and none during it. */
  lemma {:induction false} NoMeaningWhenUndeclared(a: seq<Scope>, c: nat, ident: string, duringParsing: bool)
    requires Valid(a) && c < |a|
    requires forall i :: 0 <= i < |EnclosingChain(a, Some(c))| ==>
      VisibleAttribute(a, EnclosingChain(a, Some(c))[i], ident).None?
    ensures FindMeaning(a, c, ident, duringParsing) ==
      (NoMeaning, if duringParsing then [] else [UndefinedMessage(ident)])
    decreases c
  {
    var chain := EnclosingChain(a, Some(c));
    assert VisibleAttribute(a, c, ident).None? by { assert chain[0] == c; }
    ValidAt(a, c);
    if a[c].declaredIn.Some? {
      var d := a[c].declaredIn.value;
      var rest := EnclosingChain(a, Some(d));
      assert chain[1..] == rest;
      forall i | 0 <= i < |rest|
        ensures VisibleAttribute(a, rest[i], ident).None?
      {
        assert rest[i] == chain[i + 1];
      }
      NoMeaningWhenUndeclared(a, d, ident, duringParsing);
    }
  }

  /** The empty meaning comes back only when no scope on the chain has the
      name (the converse is NoMeaningWhenUndeclared). */
  lemma {:induction false} NoMeaningOnlyWhenUndeclared(a: seq<Scope>, c: nat, ident: string, duringParsing: bool)
    requires Valid(a) && c < |a|
    requires FindMeaning(a, c, ident, duringParsing).0 == NoMeaning
    ensures forall i :: 0 <= i < |EnclosingChain(a, Some(c))| ==>
      VisibleAttribute(a, EnclosingChain(a, Some(c))[i], ident).None?
    decreases c
  {
    var chain := EnclosingChain(a, Some(c));
    ValidAt(a, c);
    var v := VisibleAttribute(a, c, ident);
    if v.None? && a[c].declaredIn.Some? {
      var d := a[c].declaredIn.value;
      var rest := EnclosingChain(a, Some(d));
      assert FindMeaning(a, d, ident, duringParsing).0 == NoMeaning;
      NoMeaningOnlyWhenUndeclared(a, d, ident, duringParsing);
      assert chain == [c] + rest;
      forall i | 0 < i < |chain| ensures VisibleAttribute(a, chain[i], ident).None? {
        assert chain[i] == rest[i - 1];
      }
    }
  }

  /** A real meaning binds the name in a scope of the chain and comes with
      no error. */
  lemma {:induction false} FoundMeaningBinds(a: seq<Scope>, c: nat, ident: string, duringParsing: bool)
    requires Valid(a) && c < |a|
    ensures var r := FindMeaning(a, c, ident, duringParsing);
      r.0 != NoMeaning ==>
         r.1 == [] && r.0.declaredIn.Some? && r.0.declaredIn.value in EnclosingChain(a, Some(c)) &&
         Binds(a, r.0.declaredIn.value, ident, r.0)
    decreases c
  {
    var chain := EnclosingChain(a, Some(c));
    ValidAt(a, c);
    var v := VisibleAttribute(a, c, ident);
    if v.None? && a[c].declaredIn.Some? {
      var d := a[c].declaredIn.value;
      FoundMeaningBinds(a, d, ident, duringParsing);
      assert chain == [c] + EnclosingChain(a, Some(d));
    }
  }
}
