// DeclarationScope.java: what every block, class and procedure scope has in
// common -- its creation under the current scope, the outward searches along
// declaredIn for labels and procedures, and the pieces of Java text derived
// from the enclosing chain (context access, scope chain, Java class name).
// The compiler's global current scope and block-level counters are fields of
// one Compilation object that the checking methods receive.

module DeclarationScopes {
  import opened Util
  import opened Scopes
  import opened Prefixes

  /** The shared compiler state: the scopes created so far, Global.currentScope
      and the block-level counters used while checking. */
  class Compilation {
    var scopes: seq<Scope>
    var currentScope: Option<nat>
    var currentBlockLevel: int
    var currentRTBlockLevel: int

    ghost predicate Valid()
      reads this
    {
      Scopes.Valid(scopes) && Before(currentScope, |scopes|)
    }

    constructor()
      ensures scopes == [] && currentScope == None && currentBlockLevel == 0 && currentRTBlockLevel == 0
      ensures Valid()
    {
      scopes := [];
      currentScope := None;
      currentBlockLevel := 0;
      currentRTBlockLevel := 0;
    }
  }

  /** A scope as the constructor leaves it: no attributes yet, not checked. */
  function FreshScope(identifier: string, cls: ScopeClass, kind: BlockKind, declaredIn: Option<nat>, sourceBlockLevel: int): Scope
  {
    Scope(identifier, cls, kind, declaredIn, None, None, sourceBlockLevel, 0, 0, None, None, false,
          [], [], [], [], [], [], [], {}, [], false, false, None, [], None)
  }

  lemma FreshScopeFits(identifier: string, cls: ScopeClass, kind: BlockKind, declaredIn: Option<nat>, sourceBlockLevel: int, n: nat)
    requires Before(declaredIn, n)
    ensures ScopeOrdered(FreshScope(identifier, cls, kind, declaredIn, sourceBlockLevel), n)
    ensures ScopeInRange(FreshScope(identifier, cls, kind, declaredIn, sourceBlockLevel), n + 1)
  {
  }

  /** The source block level of a scope opened inside `enclosing`: one deeper
      than it, 0 at the outermost. */
  function SourceLevelIn(a: seq<Scope>, enclosing: Option<nat>): int
    requires Before(enclosing, |a|)
  {
    if enclosing.Some? then a[enclosing.value].sourceBlockLevel + 1 else 0
  }

  /** DeclarationScope(ident): the new scope is appended, declared in the
      current scope, one source level deeper than it, and becomes the current
      scope. */
  method NewScope(st: Compilation, identifier: string, cls: ScopeClass, kind: BlockKind) returns (c: nat)
    requires st.Valid()
    modifies st
    ensures c == |old(st.scopes)| && st.currentScope == Some(c)
    ensures st.scopes == old(st.scopes) +
      [FreshScope(identifier, cls, kind, old(st.currentScope), SourceLevelIn(old(st.scopes), old(st.currentScope)))]
    ensures st.currentBlockLevel == old(st.currentBlockLevel) && st.currentRTBlockLevel == old(st.currentRTBlockLevel)
    ensures st.Valid()
  {
    var a := st.scopes;
    var declaredIn := st.currentScope;
    var level := SourceLevelIn(a, declaredIn);
    c := |a|;
    var created := FreshScope(identifier, cls, kind, declaredIn, level);
    FreshScopeFits(identifier, cls, kind, declaredIn, level, c);
    AppendPreservesValid(a, created);
    st.scopes := a + [created];
    st.currentScope := Some(c);
  }

  /** The identifiers of the scopes `cs`, in the order of `cs`. */
  function Identifiers(a: seq<Scope>, cs: seq<nat>): (r: seq<string>)
    requires forall k :: 0 <= k < |cs| ==> cs[k] < |a|
    ensures |r| == |cs|
  {
    if cs == [] then [] else [a[cs[0]].identifier] + Identifiers(a, cs[1..])
  }

  lemma {:induction false} IdentifiersAt(a: seq<Scope>, cs: seq<nat>, k: nat)
    requires forall j :: 0 <= j < |cs| ==> cs[j] < |a|
    requires k < |cs|
    ensures Identifiers(a, cs)[k] == a[cs[k]].identifier
  {
    if k > 0 {
      IdentifiersAt(a, cs[1..], k - 1);
    }
  }

  lemma {:induction false} IdentifiersAppend(a: seq<Scope>, xs: seq<nat>, ys: seq<nat>)
    requires forall k :: 0 <= k < |xs| ==> xs[k] < |a|
    requires forall k :: 0 <= k < |ys| ==> ys[k] < |a|
    ensures Identifiers(a, xs + ys) == Identifiers(a, xs) + Identifiers(a, ys)
  {
    if xs != [] {
      assert (xs + ys)[1..] == xs[1..] + ys;
      IdentifiersAppend(a, xs[1..], ys);
    } else {
      assert xs + ys == ys;
    }
  }

  // ---------------------------------------------------------------------------
  // scopeID
  // ---------------------------------------------------------------------------

  /** scopeID: the identifier, qualified by the enclosing scope's ID as long as
      the runtime block level is above 1.  None where the source would follow a
      missing declaredIn. */
  function ScopeID(a: seq<Scope>, c: nat): (r: Option<string>)
    requires Valid(a) && c < |a|
    ensures a[c].rtBlockLevel <= 1 ==> r == Some(a[c].identifier)
    ensures r.Some? ==> EndsWith(r.value, a[c].identifier)
    decreases c
  {
    if a[c].rtBlockLevel > 1 then
      if a[c].declaredIn.None? then None
      else match ScopeID(a, a[c].declaredIn.value)
        case None => None
        case Some(outer) =>
          var id := outer + "." + a[c].identifier;
          assert id[|id| - |a[c].identifier|..] == a[c].identifier;
          Some(id)
    else Some(a[c].identifier)
  }

  /** The scopes scopeID names: `c` and, while the runtime level is above 1,
      the enclosing ones, innermost first. */
  function LevelChain(a: seq<Scope>, c: nat): (r: seq<nat>)
    requires Valid(a) && c < |a|
    ensures |r| >= 1 && r[0] == c
    ensures forall k :: 0 <= k < |r| ==> r[k] < |a|
    decreases c
  {
    if a[c].rtBlockLevel > 1 && a[c].declaredIn.Some? then [c] + LevelChain(a, a[c].declaredIn.value) else [c]
  }

  /** scopeID is the '.'-joined identifiers of the level chain, outermost
      first; it exists exactly when that chain ends at runtime level 0 or 1. */
  lemma {:induction false} ScopeIDJoinsLevelChain(a: seq<Scope>, c: nat)
    requires Valid(a) && c < |a|
    ensures var cs := LevelChain(a, c);
      ScopeID(a, c) == if a[cs[|cs| - 1]].rtBlockLevel <= 1 then Some(Join(Reverse(Identifiers(a, cs)), ".")) else None
    decreases c
  {
    var cs := LevelChain(a, c);
    if a[c].rtBlockLevel > 1 && a[c].declaredIn.Some? {
      var d := a[c].declaredIn.value;
      ScopeIDJoinsLevelChain(a, d);
      var ds := LevelChain(a, d);
      assert cs[1..] == ds;
      assert cs[|cs| - 1] == ds[|ds| - 1];
      var ids := Identifiers(a, cs);
      assert ids[1..] == Identifiers(a, ds);
      assert Reverse(ids) == Reverse(Identifiers(a, ds)) + [a[c].identifier];
      JoinSnoc(Reverse(Identifiers(a, ds)), a[c].identifier, ".");
    } else {
      assert cs == [c];
    }
  }

  // ---------------------------------------------------------------------------
  // findLabelMeaning
  // ---------------------------------------------------------------------------

  /** findLabelMeaning: the first label named `ident` (ignoring case) in the
      scope's own label list, else in the enclosing scopes outward. */
  function FindLabelMeaning(a: seq<Scope>, c: nat, ident: string): (r: Option<Meaning>)
    requires Valid(a) && c < |a|
    ensures r.Some? ==>
      r.value.declaredAs.Some? && r.value.declaredAs.value.FLabel? &&
      FoundValid(a, r.value.declaredAs.value) &&
      EqualsIgnoreCase(ident, FoundName(a, r.value.declaredAs.value)) &&
      r.value.foundIn == Some(r.value.declaredAs.value.scope) && r.value.declaredIn == r.value.foundIn &&
      !r.value.foundBehindInvisible && r.value.declaredAs.value.scope in EnclosingChain(a, Some(c))
    ensures r.None? <==>
      forall k :: 0 <= k < |EnclosingChain(a, Some(c))| ==>
        FirstNamed(LabelNames(a[EnclosingChain(a, Some(c))[k]].labels), ident).None?
    decreases c
  {
    var k := FirstNamed(LabelNames(a[c].labels), ident);
    if k.Some? then Some(Meaning(Some(FLabel(c, k.value)), Some(c), Some(c), false))
    else if a[c].declaredIn.Some? then FindLabelMeaning(a, a[c].declaredIn.value, ident)
    else None
  }

  /** The innermost scope with the label wins. */
  lemma {:induction false} InnermostLabelWins(a: seq<Scope>, c: nat, ident: string, j: nat)
    requires Valid(a) && c < |a|
    requires j < |EnclosingChain(a, Some(c))|
    requires FirstNamed(LabelNames(a[EnclosingChain(a, Some(c))[j]].labels), ident).Some?
    requires forall i :: 0 <= i < j ==> FirstNamed(LabelNames(a[EnclosingChain(a, Some(c))[i]].labels), ident).None?
    ensures var s := EnclosingChain(a, Some(c))[j];
      FindLabelMeaning(a, c, ident) ==
        Some(Meaning(Some(FLabel(s, FirstNamed(LabelNames(a[s].labels), ident).value)), Some(s), Some(s), false))
    decreases c
  {
    var chain := EnclosingChain(a, Some(c));
    if j > 0 {
      assert FirstNamed(LabelNames(a[c].labels), ident).None? by { assert chain[0] == c; }
      var d := a[c].declaredIn.value;
      var rest := EnclosingChain(a, Some(d));
      assert chain[1..] == rest;
      forall i | 0 <= i < j - 1
        ensures FirstNamed(LabelNames(a[rest[i]].labels), ident).None?
      {
        assert rest[i] == chain[i + 1];
      }
      assert rest[j - 1] == chain[j];
      InnermostLabelWins(a, d, ident, j - 1);
    }
  }

  // ---------------------------------------------------------------------------
  // findProcedure
  // ---------------------------------------------------------------------------

  /** The scope findProcedure(ident) yields: the first scope outward from `c`
      whose identifier matches, when it is a procedure; None when that scope
      is not a procedure or no scope matches. */
  function ProcedureNamed(a: seq<Scope>, c: nat, ident: string): (r: Option<nat>)
    requires Valid(a) && c < |a|
    ensures r.Some? ==>
      r.value < |a| && IsProcedureDeclaration(a[r.value].cls) && r.value in EnclosingChain(a, Some(c)) &&
      EqualsIgnoreCase(ident, a[r.value].identifier)
  {
    var chain := EnclosingChain(a, Some(c));
    var k := FirstNamed(Identifiers(a, chain), ident);
    if k.Some? && IsProcedureDeclaration(a[chain[k.value]].cls) then
      IdentifiersAt(a, chain, k.value);
      Some(chain[k.value])
    else None
  }

  /** findProcedure: walks declaredIn outward and stops at the first scope
      with a matching identifier. */
  method FindProcedure(a: seq<Scope>, c: nat, ident: string) returns (r: Option<nat>)
    requires Valid(a) && c < |a|
    ensures r == ProcedureNamed(a, c, ident)
  {
    ghost var chain := EnclosingChain(a, Some(c));
    ghost var names := Identifiers(a, chain);
    IdentifiersAll(a, chain);
    var scope: Option<nat> := Some(c);
    ghost var i := 0;
    while scope.Some?
      invariant 0 <= i <= |chain|
      invariant scope.Some? <==> i < |chain|
      invariant scope.Some? ==> scope.value == chain[i]
      invariant forall j :: 0 <= j < i ==> !EqualsIgnoreCase(ident, names[j])
      decreases |chain| - i
    {
      var s := scope.value;
      if EqualsIgnoreCase(ident, a[s].identifier) {
        FirstNamedIsFirst(names, ident, i);
        if IsProcedureDeclaration(a[s].cls) {
          return Some(s);
        }
        return None;
      }
      EnclosingChainNext(a, Some(c), i);
      scope := a[s].declaredIn;
      i := i + 1;
    }
    return None;
  }

  lemma {:induction false} IdentifiersAll(a: seq<Scope>, cs: seq<nat>)
    requires forall j :: 0 <= j < |cs| ==> cs[j] < |a|
    ensures forall k :: 0 <= k < |cs| ==> Identifiers(a, cs)[k] == a[cs[k]].identifier
  {
    forall k | 0 <= k < |cs| ensures Identifiers(a, cs)[k] == a[cs[k]].identifier {
      IdentifiersAt(a, cs, k);
    }
  }

  /** Consecutive scopes on the enclosing chain are linked by declaredIn. */
  lemma {:induction false} EnclosingChainNext(a: seq<Scope>, s: Option<nat>, i: nat)
    requires Valid(a) && Before(s, |a|)
    requires i < |EnclosingChain(a, s)|
    ensures var chain := EnclosingChain(a, s);
      a[chain[i]].declaredIn == if i + 1 < |chain| then Some(chain[i + 1]) else None
    decreases i
  {
    var chain := EnclosingChain(a, s);
    assert chain == [s.value] + EnclosingChain(a, a[s.value].declaredIn);
    if i > 0 {
      EnclosingChainNext(a, a[s.value].declaredIn, i - 1);
    }
  }

  // ---------------------------------------------------------------------------
  // edCTX
  // ---------------------------------------------------------------------------

  /** The context expression for a scope `d` levels out: "(_CUR" and one
      "._SL" per level, then ")". */
  function CtxPath(d: int): (s: string)
  {
    "(_CUR" + Repeat("._SL", if d > 0 then d else 0) + ")"
  }

  /** Different positive distances give different paths, and a distance of
      zero or less gives "(_CUR)". */
  lemma CtxPathDistinguishesLevels(d1: int, d2: int)
    ensures d1 <= 0 ==> CtxPath(d1) == "(_CUR)"
    ensures d1 >= 0 && d2 >= 0 && CtxPath(d1) == CtxPath(d2) ==> d1 == d2
  {
    if d1 >= 0 && d2 >= 0 && CtxPath(d1) == CtxPath(d2) {
      assert |CtxPath(d1)| == 6 + 4 * d1;
    }
  }

  /** edCTX(ctxDiff): the loop `while((ctxDiff--)>0)` appends one "._SL" per
      positive step. */
  method EdCTXDiff(ctxDiff: int) returns (s: string)
    ensures s == CtxPath(ctxDiff)
  {
    var ret := "_CUR";
    var d := ctxDiff;
    var more := d > 0;
    d := d - 1;
    while more
      invariant more ==> d >= 0
      invariant ret == "_CUR" + Repeat("._SL", if more then ctxDiff - 1 - d else (if ctxDiff > 0 then ctxDiff else 0))
      invariant !more ==> d < 0 || ctxDiff <= 0
      decreases if more then d + 1 else 0
    {
      ret := ret + "._SL";
      more := d > 0;
      d := d - 1;
    }
    s := "(" + ret + ")";
  }

  /** What edCTX() of scope `c` gives, seen from the scope `current`. */
  function CtxOf(a: seq<Scope>, c: nat, current: nat): string
    requires c < |a| && current < |a|
  {
    if a[c].rtBlockLevel == 0 then "CTX_" else CtxPath(a[current].rtBlockLevel - a[c].rtBlockLevel)
  }

  /** A context expression is never empty and never contains a comma. */
  lemma CtxOfHasNoComma(a: seq<Scope>, c: nat, current: nat)
    requires c < |a| && current < |a|
    ensures ',' !in CtxOf(a, c, current) && |CtxOf(a, c, current)| > 0
  {
    var d := a[current].rtBlockLevel - a[c].rtBlockLevel;
    if a[c].rtBlockLevel != 0 {
      RepeatHasNoComma(if d > 0 then d else 0);
    }
  }

  lemma RepeatHasNoComma(n: nat)
    ensures ',' !in Repeat("._SL", n)
  {
    if n > 0 {
      RepeatHasNoComma(n - 1);
    }
  }

  /** edCTX(): "CTX_" for a scope on runtime level 0, otherwise the path from
      the current scope's runtime level. */
  method EdCTX(a: seq<Scope>, c: nat, current: nat) returns (s: string)
    requires c < |a| && current < |a|
    ensures a[c].rtBlockLevel == 0 ==> s == "CTX_"
    ensures a[c].rtBlockLevel != 0 ==> s == CtxPath(a[current].rtBlockLevel - a[c].rtBlockLevel)
    ensures s == CtxOf(a, c, current)
  {
    if a[c].rtBlockLevel == 0 {
      return "CTX_";
    }
    var curLevel := a[current].rtBlockLevel;
    var ctxDiff := curLevel - a[c].rtBlockLevel;
    s := EdCTXDiff(ctxDiff);
  }

  // ---------------------------------------------------------------------------
  // edScopeChain, edJavaClassName
  // ---------------------------------------------------------------------------

  /** edScopeChain: the identifier, then '.' and the enclosing scope's chain. */
  function EdScopeChain(a: seq<Scope>, c: nat): (r: string)
    requires Valid(a) && c < |a|
    ensures StartsWith(r, a[c].identifier)
    ensures a[c].declaredIn.None? <==> r == a[c].identifier
    decreases c
  {
    if a[c].declaredIn.None? then a[c].identifier
    else
      var r := a[c].identifier + "." + EdScopeChain(a, a[c].declaredIn.value);
      assert r[..|a[c].identifier|] == a[c].identifier && |r| > |a[c].identifier|;
      r
  }

  /** The scope chain is the identifiers of the enclosing chain, innermost
      first, joined by '.'. */
  lemma {:induction false} ScopeChainJoinsIdentifiers(a: seq<Scope>, c: nat)
    requires Valid(a) && c < |a|
    ensures EdScopeChain(a, c) == Join(Identifiers(a, EnclosingChain(a, Some(c))), ".")
    decreases c
  {
    var chain := EnclosingChain(a, Some(c));
    if a[c].declaredIn.Some? {
      var d := a[c].declaredIn.value;
      ScopeChainJoinsIdentifiers(a, d);
      assert chain == [c] + EnclosingChain(a, Some(d));
      assert Identifiers(a, chain) == [a[c].identifier] + Identifiers(a, EnclosingChain(a, Some(d)));
      JoinCons(a[c].identifier, Identifiers(a, EnclosingChain(a, Some(d))), ".");
    } else {
      assert chain == [c];
    }
  }

  /** The scopes whose identifiers make up the Java class name: block
      declarations other than standard classes and standard procedures. */
  predicate NamesJavaClass(cls: ScopeClass)
  {
    IsBlockDeclaration(cls) && cls != StandardClassDecl && cls != StandardProcedureDecl
  }

  /** The identifiers of the naming scopes among `cs`, in the order of `cs`. */
  function NamingIdentifiers(a: seq<Scope>, cs: seq<nat>): seq<string>
    requires forall k :: 0 <= k < |cs| ==> cs[k] < |a|
  {
    if cs == [] then []
    else (if NamesJavaClass(a[cs[0]].cls) then [a[cs[0]].identifier] else []) + NamingIdentifiers(a, cs[1..])
  }

  lemma {:induction false} NamingIdentifiersSnoc(a: seq<Scope>, cs: seq<nat>, s: nat)
    requires forall k :: 0 <= k < |cs| ==> cs[k] < |a|
    requires s < |a|
    ensures NamingIdentifiers(a, cs + [s]) ==
      NamingIdentifiers(a, cs) + (if NamesJavaClass(a[s].cls) then [a[s].identifier] else [])
  {
    if cs != [] {
      var t := cs[1..];
      assert forall k :: 0 <= k < |t| ==> t[k] == cs[k + 1];
      assert (cs + [s])[0] == cs[0];
      assert (cs + [s])[1..] == t + [s];
      NamingIdentifiersSnoc(a, t, s);
    } else {
      assert [s][1..] == [];
    }
  }

  /** The Java class name of a scope: the naming identifiers on its enclosing
      chain, outermost first, joined by '_'; None when there are none. */
  function JavaClassName(a: seq<Scope>, c: nat): (r: Option<string>)
    requires Valid(a) && c < |a|
  {
    var ids := NamingIdentifiers(a, EnclosingChain(a, Some(c)));
    if ids == [] then None else Some(Join(Reverse(ids), "_"))
  }

  /** edJavaClassName: walks declaredIn outward, prefixing each naming
      identifier and '_' to the name built so far. */
  method EdJavaClassName(a: seq<Scope>, c: nat) returns (id: Option<string>)
    requires Valid(a) && c < |a|
    ensures id == JavaClassName(a, c)
  {
    ghost var chain := EnclosingChain(a, Some(c));
    var scope: Option<nat> := Some(c);
    id := None;
    ghost var i := 0;
    while scope.Some?
      invariant 0 <= i <= |chain|
      invariant scope.Some? <==> i < |chain|
      invariant scope.Some? ==> scope.value == chain[i]
      invariant id == JoinedName(NamingIdentifiers(a, chain[..i]))
      decreases |chain| - i
    {
      var s := scope.value;
      TakeSnoc(chain, i);
      NamingStep(a, chain[..i], s, id);
      if NamesJavaClass(a[s].cls) {
        if id.None? {
          id := Some(a[s].identifier);
        } else {
          id := Some(a[s].identifier + "_" + id.value);
        }
      }
      EnclosingChainNext(a, Some(c), i);
      scope := a[s].declaredIn;
      i := i + 1;
    }
    assert chain[..i] == chain;
  }

  /** One step of edJavaClassName's walk: a naming scope puts its identifier
      and '_' in front of the name built so far. */
  lemma NamingStep(a: seq<Scope>, done: seq<nat>, s: nat, id: Option<string>)
    requires forall k :: 0 <= k < |done| ==> done[k] < |a|
    requires s < |a| && id == JoinedName(NamingIdentifiers(a, done))
    ensures forall k :: 0 <= k < |done + [s]| ==> (done + [s])[k] < |a|
    ensures JoinedName(NamingIdentifiers(a, done + [s])) ==
      if !NamesJavaClass(a[s].cls) then id
      else if id.None? then Some(a[s].identifier)
      else Some(a[s].identifier + "_" + id.value)
  {
    NamingIdentifiersSnoc(a, done, s);
    var ids := NamingIdentifiers(a, done);
    if NamesJavaClass(a[s].cls) {
      JoinedNameSnoc(ids, a[s].identifier);
    } else {
      assert ids + [] == ids;
    }
  }

  function JoinedName(ids: seq<string>): Option<string>
  {
    if ids == [] then None else Some(Join(Reverse(ids), "_"))
  }

  lemma JoinedNameSnoc(ids: seq<string>, x: string)
    ensures JoinedName(ids + [x]) == Some(if ids == [] then x else x + "_" + JoinedName(ids).value)
  {
    assert Reverse(ids + [x]) == [x] + Reverse(ids) by { ReverseSnoc(ids, x); }
    if ids != [] {
      JoinCons(x, Reverse(ids), "_");
    }
  }

  lemma {:induction false} ReverseSnoc<T>(s: seq<T>, x: T)
    ensures Reverse(s + [x]) == [x] + Reverse(s)
  {
    if s != [] {
      assert (s + [x])[1..] == s[1..] + [x];
      ReverseSnoc(s[1..], x);
    } else {
      assert [x][1..] == [];
    }
  }
}
