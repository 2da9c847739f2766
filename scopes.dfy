// The scope graph the declaration classes build: every block, class and
// procedure is one record in an arena, and the object references `declaredIn`,
// the resolved prefix class and the scope behind a HIDDEN specification are
// indices into it.  An arena is well formed when each of those indices is
// smaller than the index of the scope that holds it, which is exactly the
// condition that the enclosing and prefix relations together have no cycle.

module Scopes {
  import opened Util
  import opened Types
  import opened Parameters

  /** The block kinds used by the declaration files (the files come from
      different versions of the compiler, each using some of these). */
  datatype BlockKind =
    | StandardClassBlock | ConnectionBlock | CompoundStatement | SubBlock
    | ProcedureBlock | MethodBlock | ContextFreeMethod | StaticMethod | MemberMethod
    | ClassBlock | PrefixedBlock | SimulaProgram

  /** The Java class a scope object is an instance of. */
  datatype ScopeClass =
    | ClassDecl | StandardClassDecl | PrefixedBlockDecl
    | ProcedureDecl | StandardProcedureDecl
    | MaybeBlockDecl | ConnectionDecl

  /** `instanceof ClassDeclaration` (standard classes and prefixed blocks are
      subclasses of ClassDeclaration). */
  predicate IsClassDeclaration(c: ScopeClass)
  {
    c == ClassDecl || c == StandardClassDecl || c == PrefixedBlockDecl
  }

  /** `instanceof ProcedureDeclaration`. */
  predicate IsProcedureDeclaration(c: ScopeClass)
  {
    c == ProcedureDecl || c == StandardProcedureDecl
  }

  /** `instanceof BlockDeclaration` (every scope but a connection block). */
  predicate IsBlockDeclaration(c: ScopeClass)
  {
    c != ConnectionDecl
  }

  datatype DeclKind = VariableDecl | ArrayDecl | ClassDeclKind | ProcedureDeclKind | SwitchDecl | ExternalDecl

  /** A declaration in a declaration list.  `scope` is the arena index of the
      declaration when it is itself a scope (a class or a procedure);
      `specProtected` records whether the virtual specification it matches is
      protected. */
  datatype Decl = Decl(
    identifier: string,
    kind: DeclKind,
    typ: Option<Type>,
    scope: Option<nat>,
    specProtected: bool)

  /** A virtual of the BlockDeclaration version: its declaring scope and its match. */
  datatype Matched = NoMatch | LabelMatch(labelScope: nat, labelIndex: nat) | BlockMatch(block: nat)

  datatype Virtual = Virtual(identifier: string, declaredIn: nat, matched: Matched)

  /** A label: where it was declared (which stays put when the label is moved to
      another scope's list), its index and prefix level, and its virtual. */
  datatype Label = Label(
    identifier: string,
    declaredIn: nat,
    index: int,
    prefixLevel: int,
    myVirtual: Option<VirtualRef>)

  /** A position in some scope's virtual list (for a procedure's own virtual
      match: a position in its class's virtual match list). */
  datatype VirtualRef = VirtualRef(scope: nat, index: nat)

  datatype VirtualKind = VProcedure | VLabel | VSwitch

  datatype VSpec = VSpec(identifier: string, kind: VirtualKind, typ: Option<Type>, hasDefaultMatch: bool)

  /** A procedure matching the virtual specification `spec` of some class. */
  datatype VMatch = VMatch(identifier: string, specScope: nat, specIndex: nat, matchScope: nat)

  /** HIDDEN x, with the (resolved) scope behind the hidden attribute. */
  datatype Hidden = Hidden(identifier: string, behind: Option<nat>)

  datatype Scope = Scope(
    identifier: string,
    cls: ScopeClass,
    blockKind: BlockKind,
    declaredIn: Option<nat>,
    prefixName: Option<string>,
    prefix: Option<nat>,
    sourceBlockLevel: int,
    rtBlockLevel: int,
    blockLevel: int,
    externalIdent: Option<string>,
    typ: Option<Type>,
    checked: bool,
    parameters: seq<ParamRec>,
    declarations: seq<Decl>,
    labels: seq<Label>,
    virtualSpecs: seq<VSpec>,
    virtualMatches: seq<VMatch>,
    hidden: seq<Hidden>,
    protectedList: seq<string>,
    protectedAttrs: set<Found>,
    virtualList: seq<Virtual>,
    hasLocalClasses: bool,
    detachUsed: bool,
    code1: Option<seq<string>>,
    code2: seq<string>,
    myVirtual: Option<VirtualRef>)

  predicate Before(o: Option<nat>, i: nat) { o.None? || o.value < i }

  /** The links that every scope walk follows point to earlier scopes, and a
      virtual is declared in the scope whose virtual list holds it. */
  predicate ScopeOrdered(s: Scope, i: nat)
  {
    Before(s.declaredIn, i) && Before(s.prefix, i) &&
    (forall h :: 0 <= h < |s.hidden| ==> Before(s.hidden[h].behind, i)) &&
    forall k :: 0 <= k < |s.virtualList| ==> s.virtualList[k].declaredIn == i
  }

  /** The other references stay inside the arena. */
  predicate ScopeInRange(s: Scope, n: nat)
  {
    (forall k :: 0 <= k < |s.labels| ==> s.labels[k].declaredIn < n) &&
    (forall k :: 0 <= k < |s.declarations| ==> Before(s.declarations[k].scope, n))
  }

  predicate Valid(a: seq<Scope>)
  {
    forall i :: 0 <= i < |a| ==> ScopeOrdered(a[i], i) && ScopeInRange(a[i], |a|)
  }

  lemma ValidAt(a: seq<Scope>, i: nat)
    requires Valid(a) && i < |a|
    ensures ScopeOrdered(a[i], i) && ScopeInRange(a[i], |a|)
  {
  }

  /** Replacing one scope by a record with the same links keeps the arena valid. */
  lemma UpdatePreservesValid(a: seq<Scope>, i: nat, s: Scope)
    requires Valid(a) && i < |a|
    requires ScopeOrdered(s, i) && ScopeInRange(s, |a|)
    ensures Valid(a[i := s])
  {
  }

  /** Appending a scope whose links point into the arena keeps it valid. */
  lemma AppendPreservesValid(a: seq<Scope>, s: Scope)
    requires Valid(a)
    requires ScopeOrdered(s, |a|) && ScopeInRange(s, |a| + 1)
    ensures Valid(a + [s])
  {
    var b := a + [s];
    forall i | 0 <= i < |b|
      ensures ScopeOrdered(b[i], i) && ScopeInRange(b[i], |b|)
    {
      if i < |a| {
        ValidAt(a, i);
        assert b[i] == a[i];
      }
    }
  }

  // ---------------------------------------------------------------------------
  // Chains
  // ---------------------------------------------------------------------------

  /** The scopes from `s` outward along declaredIn, innermost first. */
  function EnclosingChain(a: seq<Scope>, s: Option<nat>): (r: seq<nat>)
    requires Valid(a) && Before(s, |a|)
    ensures forall k :: 0 <= k < |r| ==> r[k] < |a|
    ensures s.None? <==> r == []
    ensures s.Some? ==> r[0] == s.value
    decreases if s.Some? then s.value + 1 else 0
  {
    if s.None? then [] else [s.value] + EnclosingChain(a, a[s.value].declaredIn)
  }

  /** The strict prefix chain of `c`: its prefix, the prefix's prefix, ... */
  function PrefixChain(a: seq<Scope>, c: nat): (r: seq<nat>)
    requires Valid(a) && c < |a|
    ensures forall k :: 0 <= k < |r| ==> r[k] < c
    ensures a[c].prefix.None? <==> r == []
    decreases c
  {
    if a[c].prefix.None? then [] else [a[c].prefix.value] + PrefixChain(a, a[c].prefix.value)
  }

  /** A class never occurs on its own strict prefix chain. */
  lemma PrefixChainAcyclic(a: seq<Scope>, c: nat)
    requires Valid(a) && c < |a|
    ensures c !in PrefixChain(a, c)
  {
  }

  /** Every element of the chain of a prefix is on the chain (transitivity). */
  lemma {:induction false} PrefixChainTransitive(a: seq<Scope>, c: nat, k: nat)
    requires Valid(a) && c < |a| && k < |PrefixChain(a, c)|
    ensures PrefixChain(a, PrefixChain(a, c)[k]) == PrefixChain(a, c)[k + 1..]
    decreases c
  {
    var p := a[c].prefix.value;
    if k > 0 {
      PrefixChainTransitive(a, p, k - 1);
      assert PrefixChain(a, c)[k] == PrefixChain(a, p)[k - 1];
      assert PrefixChain(a, c)[k + 1..] == PrefixChain(a, p)[k..];
    }
  }

  // ---------------------------------------------------------------------------
  // Case-insensitive linear search (Util.equals / equalsIgnoreCase)
  // ---------------------------------------------------------------------------

  /** The first position whose name equals `ident` ignoring case. */
  function FirstNamed(names: seq<string>, ident: string): (r: Option<nat>)
    ensures r.Some? ==> r.value < |names| && EqualsIgnoreCase(ident, names[r.value])
    ensures r.Some? ==> forall j :: 0 <= j < r.value ==> !EqualsIgnoreCase(ident, names[j])
    ensures r.None? ==> forall j :: 0 <= j < |names| ==> !EqualsIgnoreCase(ident, names[j])
  {
    if names == [] then None
    else if EqualsIgnoreCase(ident, names[0]) then Some(0)
    else match FirstNamed(names[1..], ident)
      case None => None
      case Some(k) => Some(k + 1)
  }

  /** The for-each loop with an early return that every list search uses. */
  method SearchNames(names: seq<string>, ident: string) returns (r: Option<nat>)
    ensures r == FirstNamed(names, ident)
  {
    var i := 0;
    while i < |names|
      invariant 0 <= i <= |names|
      invariant forall j :: 0 <= j < i ==> !EqualsIgnoreCase(ident, names[j])
    {
      if EqualsIgnoreCase(ident, names[i]) {
        FirstNamedIsFirst(names, ident, i);
        return Some(i);
      }
      i := i + 1;
    }
    return None;
  }

  lemma FirstNamedIsFirst(names: seq<string>, ident: string, i: nat)
    requires i < |names| && EqualsIgnoreCase(ident, names[i])
    requires forall j :: 0 <= j < i ==> !EqualsIgnoreCase(ident, names[j])
    ensures FirstNamed(names, ident) == Some(i)
  {
  }

  /** Searching two lists one after the other finds the first match of the
      first list, else the first match of the second. */
  lemma {:induction false} FirstNamedAppend(x: seq<string>, y: seq<string>, ident: string)
    ensures FirstNamed(x + y, ident) ==
      if FirstNamed(x, ident).Some? then FirstNamed(x, ident)
      else if FirstNamed(y, ident).Some? then Some(|x| + FirstNamed(y, ident).value)
      else None
  {
    if x == [] {
      assert x + y == y;
    } else {
      assert (x + y)[0] == x[0];
      assert (x + y)[1..] == x[1..] + y;
      FirstNamedAppend(x[1..], y, ident);
    }
  }

  lemma FirstNamedAbsent(names: seq<string>, ident: string)
    requires forall j :: 0 <= j < |names| ==> !EqualsIgnoreCase(ident, names[j])
    ensures FirstNamed(names, ident) == None
  {
  }

  // ---------------------------------------------------------------------------
  // Names of the lists of a scope
  // ---------------------------------------------------------------------------

  function ParamNames(ps: seq<ParamRec>): (r: seq<string>)
    ensures |r| == |ps| && forall k :: 0 <= k < |ps| ==> r[k] == ps[k].identifier
  {
    if ps == [] then [] else [ps[0].identifier] + ParamNames(ps[1..])
  }

  function DeclNames(ds: seq<Decl>): (r: seq<string>)
    ensures |r| == |ds| && forall k :: 0 <= k < |ds| ==> r[k] == ds[k].identifier
  {
    if ds == [] then [] else [ds[0].identifier] + DeclNames(ds[1..])
  }

  function LabelNames(ls: seq<Label>): (r: seq<string>)
    ensures |r| == |ls| && forall k :: 0 <= k < |ls| ==> r[k] == ls[k].identifier
  {
    if ls == [] then [] else [ls[0].identifier] + LabelNames(ls[1..])
  }

  function MatchNames(ms: seq<VMatch>): (r: seq<string>)
    ensures |r| == |ms| && forall k :: 0 <= k < |ms| ==> r[k] == ms[k].identifier
  {
    if ms == [] then [] else [ms[0].identifier] + MatchNames(ms[1..])
  }

  function SpecNames(vs: seq<VSpec>): (r: seq<string>)
    ensures |r| == |vs| && forall k :: 0 <= k < |vs| ==> r[k] == vs[k].identifier
  {
    if vs == [] then [] else [vs[0].identifier] + SpecNames(vs[1..])
  }

  function HiddenNames(hs: seq<Hidden>): (r: seq<string>)
    ensures |r| == |hs| && forall k :: 0 <= k < |hs| ==> r[k] == hs[k].identifier
  {
    if hs == [] then [] else [hs[0].identifier] + HiddenNames(hs[1..])
  }

  function VirtualNames(vs: seq<Virtual>): (r: seq<string>)
    ensures |r| == |vs| && forall k :: 0 <= k < |vs| ==> r[k] == vs[k].identifier
  {
    if vs == [] then [] else [vs[0].identifier] + VirtualNames(vs[1..])
  }

  // ---------------------------------------------------------------------------
  // Meanings
  // ---------------------------------------------------------------------------

  /** The declaration an identifier was bound to: a position in one of the
      lists of a scope. */
  datatype Found =
    | FParam(scope: nat, index: nat)
    | FDecl(scope: nat, index: nat)
    | FLabel(scope: nat, index: nat)
    | FMatch(scope: nat, index: nat)
    | FSpec(scope: nat, index: nat)

  /** Meaning(declaredAs, declaredIn, foundIn, foundBehindInvisible); the
      placeholder "no meaning" has no declaration and no scopes. */
  datatype Meaning = Meaning(
    declaredAs: Option<Found>,
    declaredIn: Option<nat>,
    foundIn: Option<nat>,
    foundBehindInvisible: bool)

  predicate FoundValid(a: seq<Scope>, f: Found)
  {
    f.scope < |a| &&
    match f
    case FParam(s, k) => k < |a[s].parameters|
    case FDecl(s, k) => k < |a[s].declarations|
    case FLabel(s, k) => k < |a[s].labels|
    case FMatch(s, k) => k < |a[s].virtualMatches|
    case FSpec(s, k) => k < |a[s].virtualSpecs|
  }

  function FoundName(a: seq<Scope>, f: Found): string
    requires FoundValid(a, f)
  {
    match f
    case FParam(s, k) => a[s].parameters[k].identifier
    case FDecl(s, k) => a[s].declarations[k].identifier
    case FLabel(s, k) => a[s].labels[k].identifier
    case FMatch(s, k) => a[s].virtualMatches[k].identifier
    case FSpec(s, k) => a[s].virtualSpecs[k].identifier
  }

  /** `decl.isProtected != null`: the attributes that the checking of a
      PROTECTED specification marked are recorded with the scope holding them. */
  predicate FoundProtected(a: seq<Scope>, f: Found)
    requires FoundValid(a, f)
  {
    f in a[f.scope].protectedAttrs
  }

  /** The scope a found declaration stands for, when it is a class or procedure. */
  function FoundScope(a: seq<Scope>, f: Found): Option<nat>
    requires FoundValid(a, f)
  {
    match f
    case FDecl(s, k) => a[s].declarations[k].scope
    case _ => None
  }

  /** Java's `"" + s` for a nullable string. */
  function OrNull(s: Option<string>): string
  {
    if s.Some? then s.value else "null"
  }
}
