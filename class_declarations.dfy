// ClassDeclaration.java: attribute lookup inside a class and along its prefix
// chain (with HIDDEN and PROTECTED), the label count, the INNER rule of a class
// body, the pre- and post-INNER code of the prefix chain, the constructor's
// formal parameter list and the attribute-file record.  The implicit root of
// this file's prefix chains is "SIMULA_BLOCK".

module ClassDeclarations {
  import opened Util
  import opened Types
  import opened Parameters
  import opened Scopes
  import opened Prefixes

  // ---------------------------------------------------------------------------
  // search*List (the same for-each loop over one list, each by its own name)
  // ---------------------------------------------------------------------------

  /** searchHiddenList: the first HIDDEN specification of `ident`. */
  method SearchHiddenList(a: seq<Scope>, c: nat, ident: string) returns (r: Option<nat>)
    requires c < |a|
    ensures r.Some? ==> r.value < |a[c].hidden| && EqualsIgnoreCase(ident, a[c].hidden[r.value].identifier)
    ensures r.Some? ==> forall j :: 0 <= j < r.value ==> !EqualsIgnoreCase(ident, a[c].hidden[j].identifier)
    ensures r.None? <==> forall j :: 0 <= j < |a[c].hidden| ==> !EqualsIgnoreCase(ident, a[c].hidden[j].identifier)
    ensures r == FirstNamed(HiddenNames(a[c].hidden), ident)
  {
    r := SearchNames(HiddenNames(a[c].hidden), ident);
  }

  /** searchProtectedList: the first PROTECTED specification of `ident`. */
  method SearchProtectedList(a: seq<Scope>, c: nat, ident: string) returns (r: Option<nat>)
    requires c < |a|
    ensures r.Some? ==> r.value < |a[c].protectedList| && EqualsIgnoreCase(ident, a[c].protectedList[r.value])
    ensures r.Some? ==> forall j :: 0 <= j < r.value ==> !EqualsIgnoreCase(ident, a[c].protectedList[j])
    ensures r.None? <==> forall j :: 0 <= j < |a[c].protectedList| ==> !EqualsIgnoreCase(ident, a[c].protectedList[j])
  {
    r := SearchNames(a[c].protectedList, ident);
  }

  /** searchVirtualSpecList: the first virtual specification of `ident`. */
  method SearchVirtualSpecList(a: seq<Scope>, c: nat, ident: string) returns (r: Option<nat>)
    requires c < |a|
    ensures r.Some? ==> r.value < |a[c].virtualSpecs| && EqualsIgnoreCase(ident, a[c].virtualSpecs[r.value].identifier)
    ensures r.Some? ==> forall j :: 0 <= j < r.value ==> !EqualsIgnoreCase(ident, a[c].virtualSpecs[j].identifier)
    ensures r.None? <==> forall j :: 0 <= j < |a[c].virtualSpecs| ==> !EqualsIgnoreCase(ident, a[c].virtualSpecs[j].identifier)
  {
    r := SearchNames(SpecNames(a[c].virtualSpecs), ident);
  }

  // ---------------------------------------------------------------------------
  // findLocalAttribute
  // ---------------------------------------------------------------------------

  /** The attribute findLocalAttribute returns: the first parameter named
      `ident` (ignoring case), else the first such declaration, label, virtual
      match or virtual specification, in that order. */
  function LocalAttribute(a: seq<Scope>, c: nat, ident: string): (r: Option<Found>)
    requires c < |a|
    ensures r.Some? ==> FoundValid(a, r.value) && r.value.scope == c && EqualsIgnoreCase(ident, FoundName(a, r.value))
    ensures r.None? <==> NoAttrNamed(a[c], ident)
  {
    var s := a[c];
    var p, d, l := FirstNamed(ParamNames(s.parameters), ident), FirstNamed(DeclNames(s.declarations), ident),
                   FirstNamed(LabelNames(s.labels), ident);
    var m, v := FirstNamed(MatchNames(s.virtualMatches), ident), FirstNamed(SpecNames(s.virtualSpecs), ident);
    if p.Some? then Some(FParam(c, p.value))
    else if d.Some? then Some(FDecl(c, d.value))
    else if l.Some? then Some(FLabel(c, l.value))
    else if m.Some? then Some(FMatch(c, m.value))
    else if v.Some? then Some(FSpec(c, v.value))
    else None
  }

  /** No attribute of the class is named `ident`. */
  predicate NoAttrNamed(s: Scope, ident: string)
  {
    (forall k :: 0 <= k < |s.parameters| ==> !EqualsIgnoreCase(ident, s.parameters[k].identifier)) &&
    (forall k :: 0 <= k < |s.declarations| ==> !EqualsIgnoreCase(ident, s.declarations[k].identifier)) &&
    (forall k :: 0 <= k < |s.labels| ==> !EqualsIgnoreCase(ident, s.labels[k].identifier)) &&
    (forall k :: 0 <= k < |s.virtualMatches| ==> !EqualsIgnoreCase(ident, s.virtualMatches[k].identifier)) &&
    (forall k :: 0 <= k < |s.virtualSpecs| ==> !EqualsIgnoreCase(ident, s.virtualSpecs[k].identifier))
  }

  /** The five loops of findLocalAttribute, each returning at its first match. */
  method FindLocalAttribute(a: seq<Scope>, c: nat, ident: string) returns (r: Option<Found>)
    requires c < |a|
    ensures r == LocalAttribute(a, c, ident)
  {
    var s := a[c];
    var k := SearchNames(ParamNames(s.parameters), ident);
    if k.Some? {
      return Some(FParam(c, k.value));
    }
    k := SearchNames(DeclNames(s.declarations), ident);
    if k.Some? {
      return Some(FDecl(c, k.value));
    }
    k := SearchNames(LabelNames(s.labels), ident);
    if k.Some? {
      return Some(FLabel(c, k.value));
    }
    k := SearchNames(MatchNames(s.virtualMatches), ident);
    if k.Some? {
      return Some(FMatch(c, k.value));
    }
    k := SearchNames(SpecNames(s.virtualSpecs), ident);
    if k.Some? {
      return Some(FSpec(c, k.value));
    }
    return None;
  }

  /** findLocalProcedure: the first declaration named `ident` if it is a
      procedure; the search stops at the first name match either way. */
  method FindLocalProcedure(a: seq<Scope>, c: nat, ident: string) returns (r: Option<nat>)
    requires c < |a|
    ensures var k := FirstNamed(DeclNames(a[c].declarations), ident);
      r == if k.Some? && a[c].declarations[k.value].kind == ProcedureDeclKind then k else None
    ensures r.Some? ==>
      r.value < |a[c].declarations| && a[c].declarations[r.value].kind == ProcedureDeclKind &&
      EqualsIgnoreCase(ident, a[c].declarations[r.value].identifier)
  {
    var ds := a[c].declarations;
    ghost var names := DeclNames(ds);
    var i := 0;
    while i < |ds|
      invariant 0 <= i <= |ds|
      invariant forall j :: 0 <= j < i ==> !EqualsIgnoreCase(ident, names[j])
    {
      assert names[i] == ds[i].identifier;
      if EqualsIgnoreCase(ident, ds[i].identifier) {
        FirstNamedIsFirst(names, ident, i);
        if ds[i].kind == ProcedureDeclKind {
          return Some(i);
        }
        return None;
      }
      i := i + 1;
    }
    FirstNamedAbsent(names, ident);
    return None;
  }

  // ---------------------------------------------------------------------------
  // findVisibleAttributeMeaning
  // ---------------------------------------------------------------------------

  /** A meaning for `ident` found from class `c`: it names a declaration whose
      identifier is `ident`, declaredIn is `c` and foundIn holds the declaration. */
  predicate Binds(a: seq<Scope>, c: nat, ident: string, m: Meaning)
  {
    m.declaredAs.Some? && FoundValid(a, m.declaredAs.value) &&
    EqualsIgnoreCase(ident, FoundName(a, m.declaredAs.value)) &&
    m.declaredIn == Some(c) && m.foundIn == Some(m.declaredAs.value.scope)
  }

  /** The first HIDDEN specification of `ident` in scope `s`. */
  function HiddenAt(a: seq<Scope>, s: nat, ident: string): Option<nat>
    requires s < |a|
  {
    FirstNamed(HiddenNames(a[s].hidden), ident)
  }

  /** The scope behind the hidden specification `h` of scope `s`. */
  function BehindHidden(a: seq<Scope>, s: nat, h: nat): (r: Option<nat>)
    requires Valid(a) && s < |a| && h < |a[s].hidden|
    ensures Before(r, s)
  {
    ValidAt(a, s);
    a[s].hidden[h].behind
  }

  /** The labelled SEARCH loop: from scope `s` on, a HIDDEN specification sends
      the search to the scope behind it and sets the flag; otherwise the first
      local attribute is the answer, else the search goes on at the prefix. */
  function VisibleFrom(a: seq<Scope>, c: nat, s: Option<nat>, ident: string, behind: bool): (r: Option<Meaning>)
    requires Valid(a) && c < |a| && Before(s, |a|)
    ensures r.Some? ==> Binds(a, c, ident, r.value)
    ensures r.Some? ==> s.Some? && r.value.foundIn.value <= s.value
    ensures r.Some? && behind ==> r.value.foundBehindInvisible
    decreases if s.Some? then s.value + 1 else 0
  {
    if s.None? then None
    else
      var h := HiddenAt(a, s.value, ident);
      if h.Some? then VisibleFrom(a, c, BehindHidden(a, s.value, h.value), ident, true)
      else match LocalAttribute(a, s.value, ident)
        case Some(f) => Some(Meaning(Some(f), Some(c), Some(s.value), behind))
        case None => VisibleFrom(a, c, a[s.value].prefix, ident, behind)
  }

  /** findVisibleAttributeMeaning: an own attribute is taken without any HIDDEN
      check; otherwise the search runs along the prefix chain. */
  function VisibleAttributeMeaning(a: seq<Scope>, c: nat, ident: string): (r: Option<Meaning>)
    requires Valid(a) && c < |a|
    ensures r.Some? ==> Binds(a, c, ident, r.value)
    ensures LocalAttribute(a, c, ident).Some? ==>
      r.Some? && r.value.declaredAs == LocalAttribute(a, c, ident) &&
      r.value.foundIn == Some(c) && !r.value.foundBehindInvisible
  {
    match LocalAttribute(a, c, ident)
    case Some(f) => Some(Meaning(Some(f), Some(c), Some(c), false))
    case None => VisibleFrom(a, c, a[c].prefix, ident, false)
  }

  method FindVisibleAttributeMeaning(a: seq<Scope>, c: nat, ident: string) returns (r: Option<Meaning>)
    requires Valid(a) && c < |a|
    ensures r == VisibleAttributeMeaning(a, c, ident)
  {
    var searchBehindHidden := false;
    var scope: Option<nat> := Some(c);
    var decl := FindLocalAttribute(a, c, ident);
    if decl.Some? {
      return Some(Meaning(decl, Some(c), scope, searchBehindHidden));
    }
    scope := a[c].prefix;
    while scope.Some?
      invariant Before(scope, |a|)
      invariant VisibleAttributeMeaning(a, c, ident) == VisibleFrom(a, c, scope, ident, searchBehindHidden)
      decreases if scope.Some? then scope.value + 1 else 0
    {
      var hdn := SearchHiddenList(a, scope.value, ident);
      if hdn.Some? {
        scope := BehindHidden(a, scope.value, hdn.value);
        searchBehindHidden := true;
        continue;
      }
      decl := FindLocalAttribute(a, scope.value, ident);
      if decl.Some? {
        return Some(Meaning(decl, Some(c), scope, searchBehindHidden));
      }
      scope := a[scope.value].prefix;
    }
    return None;
  }

  /** No scope on the strict prefix chain of `c` hides `ident`. */
  predicate NoHiddenOnChain(a: seq<Scope>, chain: seq<nat>, ident: string)
    requires forall k :: 0 <= k < |chain| ==> chain[k] < |a|
  {
    forall k :: 0 <= k < |chain| ==> HiddenAt(a, chain[k], ident).None?
  }

  /** The first scope of `chain` with a local attribute `ident`, as a meaning;
      the reference lookup along a prefix chain without HIDDEN. */
  function FirstOnChain(a: seq<Scope>, c: nat, chain: seq<nat>, ident: string): Option<Meaning>
    requires forall k :: 0 <= k < |chain| ==> chain[k] < |a|
  {
    if chain == [] then None
    else match LocalAttribute(a, chain[0], ident)
      case Some(f) => Some(Meaning(Some(f), Some(c), Some(chain[0]), false))
      case None => FirstOnChain(a, c, chain[1..], ident)
  }

  /** Without HIDDEN specifications of `ident`, the visible meaning is the
      innermost declaration on the class's prefix chain (the class first). */
  lemma {:induction false} VisibleFromWithoutHidden(a: seq<Scope>, c: nat, s: nat, ident: string)
    requires Valid(a) && c < |a| && s < |a|
    requires NoHiddenOnChain(a, [s] + PrefixChain(a, s), ident)
    ensures VisibleFrom(a, c, Some(s), ident, false) == FirstOnChain(a, c, [s] + PrefixChain(a, s), ident)
    decreases s
  {
    assert HiddenAt(a, s, ident).None? by { assert ([s] + PrefixChain(a, s))[0] == s; }
    var chain := [s] + PrefixChain(a, s);
    if LocalAttribute(a, s, ident).None? && a[s].prefix.Some? {
      var p := a[s].prefix.value;
      assert chain[1..] == [p] + PrefixChain(a, p);
      assert NoHiddenOnChain(a, [p] + PrefixChain(a, p), ident) by {
        forall k | 0 <= k < |[p] + PrefixChain(a, p)|
          ensures HiddenAt(a, ([p] + PrefixChain(a, p))[k], ident).None?
        {
          assert ([p] + PrefixChain(a, p))[k] == chain[k + 1];
        }
      }
      VisibleFromWithoutHidden(a, c, p, ident);
    }
  }

  lemma VisibleWithoutHidden(a: seq<Scope>, c: nat, ident: string)
    requires Valid(a) && c < |a|
    requires NoHiddenOnChain(a, PrefixChain(a, c), ident)
    ensures VisibleAttributeMeaning(a, c, ident) == FirstOnChain(a, c, [c] + PrefixChain(a, c), ident)
  {
    if LocalAttribute(a, c, ident).None? && a[c].prefix.Some? {
      var p := a[c].prefix.value;
      assert PrefixChain(a, c) == [p] + PrefixChain(a, p);
      assert ([c] + PrefixChain(a, c))[1..] == PrefixChain(a, c);
      VisibleFromWithoutHidden(a, c, p, ident);
    }
  }

  // ---------------------------------------------------------------------------
  // withinScope and findRemoteAttributeMeaning
  // ---------------------------------------------------------------------------

  /** withinScope(other), from the scope `s` outward along declaredIn: `other`
      is one of the enclosing scopes, or a prefix of an enclosing class. */
  predicate WithinFrom(a: seq<Scope>, s: Option<nat>, other: nat)
    requires Valid(a) && Before(s, |a|)
    decreases if s.Some? then s.value + 1 else 0
  {
    s.Some? &&
    (s.value == other ||
     (IsClassDeclaration(a[s.value].cls) && SubClassOf(a, s.value, other)) ||
     WithinFrom(a, a[s.value].declaredIn, other))
  }

  /** WithinFrom is a property of the enclosing chain. */
  lemma {:induction false} WithinFromOnChain(a: seq<Scope>, s: Option<nat>, other: nat)
    requires Valid(a) && Before(s, |a|)
    ensures WithinFrom(a, s, other) <==>
      exists k :: 0 <= k < |EnclosingChain(a, s)| &&
        (EnclosingChain(a, s)[k] == other ||
         (IsClassDeclaration(a[EnclosingChain(a, s)[k]].cls) && SubClassOf(a, EnclosingChain(a, s)[k], other)))
    decreases if s.Some? then s.value + 1 else 0
  {
    if s.Some? {
      var chain := EnclosingChain(a, s);
      var up := a[s.value].declaredIn;
      WithinFromOnChain(a, up, other);
      assert chain == [s.value] + EnclosingChain(a, up);
      assert forall k :: 0 < k < |chain| ==> chain[k] == EnclosingChain(a, up)[k - 1];
      if WithinFrom(a, up, other) {
        var k :| 0 <= k < |EnclosingChain(a, up)| &&
          (EnclosingChain(a, up)[k] == other ||
           (IsClassDeclaration(a[EnclosingChain(a, up)[k]].cls) && SubClassOf(a, EnclosingChain(a, up)[k], other)));
        assert chain[k + 1] == EnclosingChain(a, up)[k];
      }
    }
  }

  /** The two nested loops of withinScope; the inner one is the loop of
      isSubClassOf. */
  method WithinScope(a: seq<Scope>, current: Option<nat>, other: nat) returns (r: bool)
    requires Valid(a) && Before(current, |a|)
    ensures r == WithinFrom(a, current, other)
  {
    var scope := current;
    while scope.Some?
      invariant Before(scope, |a|)
      invariant WithinFrom(a, current, other) == WithinFrom(a, scope, other)
      decreases if scope.Some? then scope.value + 1 else 0
    {
      if scope.value == other {
        return true;
      }
      if IsClassDeclaration(a[scope.value].cls) {
        var sub := IsSubClassOf(a, scope.value, other);
        if sub {
          return true;
        }
      }
      scope := a[scope.value].declaredIn;
    }
    return false;
  }

  /** The protection of the virtual specification a declaration matches. */
  predicate SpecProtected(a: seq<Scope>, f: Found)
    requires FoundValid(a, f)
  {
    f.FDecl? && a[f.scope].declarations[f.index].specProtected
  }

  /** The SEARCH loop of findRemoteAttributeMeaning: as for visible lookup, but a
      protected attribute is passed over (setting the flag) unless the current
      scope is within the scope holding it. */
  function RemoteFrom(a: seq<Scope>, c: nat, current: Option<nat>, s: Option<nat>, ident: string, behind: bool): (r: Option<Meaning>)
    requires Valid(a) && c < |a| && Before(current, |a|) && Before(s, |a|)
    ensures r.Some? ==> Binds(a, c, ident, r.value)
    ensures r.Some? ==> !FoundProtected(a, r.value.declaredAs.value) || WithinFrom(a, current, r.value.foundIn.value)
    ensures r.Some? && behind ==> r.value.foundBehindInvisible
    decreases if s.Some? then s.value + 1 else 0
  {
    if s.None? then None
    else
      var h := HiddenAt(a, s.value, ident);
      if h.Some? then RemoteFrom(a, c, current, BehindHidden(a, s.value, h.value), ident, true)
      else match LocalAttribute(a, s.value, ident)
        case Some(f) =>
          if !FoundProtected(a, f) || WithinFrom(a, current, s.value)
          then Some(Meaning(Some(f), Some(c), Some(s.value), behind))
          else RemoteFrom(a, c, current, a[s.value].prefix, ident, true)
        case None => RemoteFrom(a, c, current, a[s.value].prefix, ident, behind)
  }

  /** findRemoteAttributeMeaning (x.ident seen from the scope `current`): an
      own attribute that is neither protected nor matches a protected virtual
      is taken at once; otherwise the SEARCH loop starts at the class itself. */
  function RemoteAttributeMeaning(a: seq<Scope>, c: nat, current: Option<nat>, ident: string): (r: Option<Meaning>)
    requires Valid(a) && c < |a| && Before(current, |a|)
    ensures r.Some? ==> Binds(a, c, ident, r.value)
    ensures r.Some? ==> !FoundProtected(a, r.value.declaredAs.value) || WithinFrom(a, current, r.value.foundIn.value)
  {
    match LocalAttribute(a, c, ident)
    case Some(f) =>
      if !(FoundProtected(a, f) || SpecProtected(a, f)) then Some(Meaning(Some(f), Some(c), Some(c), false))
      else RemoteFrom(a, c, current, Some(c), ident, false)
    case None => RemoteFrom(a, c, current, Some(c), ident, false)
  }

  method FindRemoteAttributeMeaning(a: seq<Scope>, c: nat, current: Option<nat>, ident: string) returns (r: Option<Meaning>)
    requires Valid(a) && c < |a| && Before(current, |a|)
    ensures r == RemoteAttributeMeaning(a, c, current, ident)
  {
    var behindProtected := false;
    var scope: Option<nat> := Some(c);
    var decl := FindLocalAttribute(a, c, ident);
    if decl.Some? {
      var prtected := FoundProtected(a, decl.value);
      if SpecProtected(a, decl.value) {
        prtected := true;
      }
      if !prtected {
        return Some(Meaning(decl, Some(c), scope, behindProtected));
      }
    }
    while scope.Some?
      invariant Before(scope, |a|)
      invariant RemoteAttributeMeaning(a, c, current, ident) == RemoteFrom(a, c, current, scope, ident, behindProtected)
      decreases if scope.Some? then scope.value + 1 else 0
    {
      var hdn := SearchHiddenList(a, scope.value, ident);
      if hdn.Some? {
        scope := BehindHidden(a, scope.value, hdn.value);
        behindProtected := true;
        continue;
      }
      var decl2 := FindLocalAttribute(a, scope.value, ident);
      if decl2.Some? {
        var prtected := FoundProtected(a, decl2.value);
        var within := WithinScope(a, current, scope.value);
        if within {
          prtected := false;
        }
        if !prtected {
          return Some(Meaning(decl2, Some(c), scope, behindProtected));
        }
        behindProtected := true;
      }
      scope := a[scope.value].prefix;
    }
    return None;
  }

  /** Nothing in the arena is protected. */
  predicate NothingProtected(a: seq<Scope>)
  {
    forall x :: 0 <= x < |a| ==>
      a[x].protectedAttrs == {} &&
      forall k :: 0 <= k < |a[x].declarations| ==> !a[x].declarations[k].specProtected
  }

  lemma {:induction false} RemoteFromUnprotected(a: seq<Scope>, c: nat, current: Option<nat>, s: Option<nat>, ident: string, behind: bool)
    requires Valid(a) && c < |a| && Before(current, |a|) && Before(s, |a|)
    requires NothingProtected(a)
    ensures RemoteFrom(a, c, current, s, ident, behind) == VisibleFrom(a, c, s, ident, behind)
    decreases if s.Some? then s.value + 1 else 0
  {
    if s.Some? {
      var h := HiddenAt(a, s.value, ident);
      if h.Some? {
        RemoteFromUnprotected(a, c, current, BehindHidden(a, s.value, h.value), ident, true);
      } else if LocalAttribute(a, s.value, ident).None? {
        RemoteFromUnprotected(a, c, current, a[s.value].prefix, ident, behind);
      }
    }
  }

  /** Without PROTECTED, and when the class does not hide the name itself,
      remote access finds exactly what visible access finds. */
  lemma RemoteIsVisibleWithoutProtection(a: seq<Scope>, c: nat, current: Option<nat>, ident: string)
    requires Valid(a) && c < |a| && Before(current, |a|)
    requires NothingProtected(a) && HiddenAt(a, c, ident).None?
    ensures RemoteAttributeMeaning(a, c, current, ident) == VisibleAttributeMeaning(a, c, ident)
  {
    if LocalAttribute(a, c, ident).None? {
      RemoteFromUnprotected(a, c, current, a[c].prefix, ident, false);
    }
  }

  /** A protected attribute of the class itself is found from inside the class. */
  lemma ProtectedVisibleFromInside(a: seq<Scope>, c: nat, ident: string)
    requires Valid(a) && c < |a|
    requires HiddenAt(a, c, ident).None? && LocalAttribute(a, c, ident).Some?
    ensures RemoteAttributeMeaning(a, c, Some(c), ident) ==
      Some(Meaning(LocalAttribute(a, c, ident), Some(c), Some(c), false))
  {
  }

  /** From a scope outside the class and its subclasses, an attribute marked
      protected in the class itself is never the answer. */
  lemma ProtectedHiddenFromOutside(a: seq<Scope>, c: nat, current: Option<nat>, ident: string)
    requires Valid(a) && c < |a| && Before(current, |a|)
    requires LocalAttribute(a, c, ident).Some? && FoundProtected(a, LocalAttribute(a, c, ident).value)
    requires !WithinFrom(a, current, c)
    ensures var r := RemoteAttributeMeaning(a, c, current, ident);
      r.Some? ==> r.value.declaredAs != LocalAttribute(a, c, ident)
  {
  }

  // ---------------------------------------------------------------------------
  // getNlabels
  // ---------------------------------------------------------------------------

  /** getNlabels: the own labels plus those of the real prefixes. */
  function Nlabels(a: seq<Scope>, c: nat): (r: nat)
    requires Valid(a) && c < |a|
    ensures r >= |a[c].labels|
    decreases c
  {
    if HasNoRealPrefix(a, c, SimulaBlockRoot) then |a[c].labels|
    else |a[c].labels| + Nlabels(a, a[c].prefix.value)
  }

  /** The number of labels of the scopes `cs`. */
  function LabelCount(a: seq<Scope>, cs: seq<nat>): nat
    requires forall k :: 0 <= k < |cs| ==> cs[k] < |a|
  {
    if cs == [] then 0 else |a[cs[0]].labels| + LabelCount(a, cs[1..])
  }

  /** The label count is the sum over the class and its real prefixes. */
  lemma {:induction false} NlabelsSumsRealChain(a: seq<Scope>, c: nat)
    requires Valid(a) && c < |a|
    ensures var cs := RealChain(a, c, SimulaBlockRoot);
      (forall k :: 0 <= k < |cs| ==> cs[k] < |a|) && Nlabels(a, c) == LabelCount(a, cs)
    decreases c
  {
    var cs := RealChain(a, c, SimulaBlockRoot);
    if !HasNoRealPrefix(a, c, SimulaBlockRoot) {
      NlabelsSumsRealChain(a, a[c].prefix.value);
      assert cs[1..] == RealChain(a, a[c].prefix.value, SimulaBlockRoot);
    }
  }

  // ---------------------------------------------------------------------------
  // isDetachUsed
  // ---------------------------------------------------------------------------

  /** isDetachUsed: detach is called in the class itself or, recursively, in
      its prefix class. */
  function IsDetachUsed(a: seq<Scope>, c: nat): bool
    requires Valid(a) && c < |a|
    decreases c
  {
    a[c].detachUsed || (a[c].prefix.Some? && IsDetachUsed(a, a[c].prefix.value))
  }

  /** Detach is used exactly when the class or some class on its prefix chain
      has the flag set. */
  lemma {:induction false} DetachUsedAlongChain(a: seq<Scope>, c: nat)
    requires Valid(a) && c < |a|
    ensures IsDetachUsed(a, c) <==>
      a[c].detachUsed || exists k :: k in PrefixChain(a, c) && a[k].detachUsed
    decreases c
  {
    if a[c].prefix.Some? {
      var p := a[c].prefix.value;
      DetachUsedAlongChain(a, p);
      assert PrefixChain(a, c) == [p] + PrefixChain(a, p);
      if IsDetachUsed(a, c) && !a[c].detachUsed {
        if !a[p].detachUsed {
          var k :| k in PrefixChain(a, p) && a[k].detachUsed;
          assert k in PrefixChain(a, c);
        } else {
          assert p in PrefixChain(a, c);
        }
      }
    }
  }

  // ---------------------------------------------------------------------------
  // doParseBody: the INNER rule
  // ---------------------------------------------------------------------------

  /** One round of the statement loop of doParseBody: the statement parsed (a
      null statement is not kept) and whether INNER followed it. */
  datatype BodyPart = BodyPart(stm: Option<nat>, inner: bool)

  /** A statement of the class body: a parsed statement or the INNER statement. */
  datatype BodyStm = Stm(id: nat) | Inner

  /** The statement a body part contributes. */
  function StmOf(p: BodyPart): seq<BodyStm>
  {
    if p.stm.Some? then [Stm(p.stm.value)] else []
  }

  /** The parsed statements of the parts lo..hi-1, in order. */
  function Plain(ps: seq<BodyPart>, lo: nat, hi: nat): seq<BodyStm>
    requires lo <= hi <= |ps|
    decreases hi - lo
  {
    if hi == lo then [] else Plain(ps, lo, hi - 1) + StmOf(ps[hi - 1])
  }

  /** The number of INNER keywords among the parts lo..hi-1. */
  function InnerKeywords(ps: seq<BodyPart>, lo: nat, hi: nat): nat
    requires lo <= hi <= |ps|
    decreases hi - lo
  {
    if hi == lo then 0 else InnerKeywords(ps, lo, hi - 1) + (if ps[hi - 1].inner then 1 else 0)
  }

  function InnerCount(ss: seq<BodyStm>): nat
  {
    if ss == [] then 0 else InnerCount(ss[..|ss| - 1]) + (if ss[|ss| - 1] == Inner then 1 else 0)
  }

  /** The position of the first INNER keyword. */
  function FirstInner(ps: seq<BodyPart>): (r: Option<nat>)
    ensures r.Some? ==> r.value < |ps| && ps[r.value].inner && forall j :: 0 <= j < r.value ==> !ps[j].inner
    ensures r.None? ==> forall j :: 0 <= j < |ps| ==> !ps[j].inner
  {
    if ps == [] then None
    else if ps[0].inner then Some(0)
    else match FirstInner(ps[1..])
      case None => None
      case Some(k) => Some(k + 1)
  }

  lemma {:induction false} InnerCountOfPlain(ps: seq<BodyPart>, lo: nat, hi: nat)
    requires lo <= hi <= |ps|
    ensures InnerCount(Plain(ps, lo, hi)) == 0
    decreases hi - lo
  {
    if hi > lo {
      InnerCountOfPlain(ps, lo, hi - 1);
      var t := StmOf(ps[hi - 1]);
      assert InnerCount(t) == 0 by {
        if t != [] {
          assert t[..0] == [];
        }
      }
      InnerCountAppend(Plain(ps, lo, hi - 1), t);
    }
  }

  lemma {:induction false} InnerCountAppend(x: seq<BodyStm>, y: seq<BodyStm>)
    ensures InnerCount(x + y) == InnerCount(x) + InnerCount(y)
    decreases |y|
  {
    if y != [] {
      assert (x + y)[..|x + y| - 1] == x + y[..|y| - 1];
      InnerCountAppend(x, y[..|y| - 1]);
    } else {
      assert x + y == x;
    }
  }

  /** No INNER keyword among the first `n` parts. */
  predicate NoInnerBefore(parts: seq<BodyPart>, n: nat)
    requires n <= |parts|
  {
    forall j :: 0 <= j < n ==> !parts[j].inner
  }

  /** doParseBody's statement loop: the first INNER is kept as an INNER
      statement at its place, every further one is an error, and an implicit
      INNER is appended to a body without one. */
  method ParseBody(parts: seq<BodyPart>) returns (stms: seq<BodyStm>, errors: seq<string>)
    ensures InnerCount(stms) == 1
    ensures FirstInner(parts).None? ==> stms == Plain(parts, 0, |parts|) + [Inner]
    ensures FirstInner(parts).Some? ==>
      var k := FirstInner(parts).value;
      stms == Plain(parts, 0, k + 1) + [Inner] + Plain(parts, k + 1, |parts|)
    ensures |errors| == if InnerKeywords(parts, 0, |parts|) == 0 then 0 else InnerKeywords(parts, 0, |parts|) - 1
    ensures forall e :: e in errors ==> e == "Max one INNER per Block"
  {
    var seen := false;
    ghost var k := 0;
    stms := [];
    errors := [];
    var i := 0;
    while i < |parts|
      invariant 0 <= i <= |parts|
      invariant !seen ==> NoInnerBefore(parts, i) && stms == Plain(parts, 0, i)
      invariant seen ==>
        k < i && parts[k].inner && NoInnerBefore(parts, k) &&
        stms == Plain(parts, 0, k + 1) + [Inner] + Plain(parts, k + 1, i)
      invariant seen <==> InnerKeywords(parts, 0, i) > 0
      invariant |errors| == if seen then InnerKeywords(parts, 0, i) - 1 else 0
      invariant forall e :: e in errors ==> e == "Max one INNER per Block"
    {
      stms := stms + StmOf(parts[i]);
      if parts[i].inner {
        if seen {
          errors := errors + ["Max one INNER per Block"];
        } else {
          k := i;
          stms := stms + [Inner];
        }
        seen := true;
      }
      i := i + 1;
    }
    if !seen {
      stms := stms + [Inner];
    }
    ParseBodyEnd(parts, seen, k, stms);
  }

  /** The state the statement loop ends in gives doParseBody's result. */
  lemma ParseBodyEnd(parts: seq<BodyPart>, seen: bool, k: nat, stms: seq<BodyStm>)
    requires !seen ==> NoInnerBefore(parts, |parts|) && stms == Plain(parts, 0, |parts|) + [Inner]
    requires seen ==>
      k < |parts| && parts[k].inner && NoInnerBefore(parts, k) &&
      stms == Plain(parts, 0, k + 1) + [Inner] + Plain(parts, k + 1, |parts|)
    ensures InnerCount(stms) == 1
    ensures FirstInner(parts).None? ==> stms == Plain(parts, 0, |parts|) + [Inner]
    ensures FirstInner(parts).Some? ==>
      var k := FirstInner(parts).value;
      stms == Plain(parts, 0, k + 1) + [Inner] + Plain(parts, k + 1, |parts|)
  {
    if !seen {
      InnerCountOfPlain(parts, 0, |parts|);
      InnerCountAppend(Plain(parts, 0, |parts|), [Inner]);
    } else {
      assert FirstInner(parts) == Some(k) by {
        var f := FirstInner(parts);
        assert f.Some?;
        assert !(f.value < k) && !(f.value > k);
      }
      var before, after := Plain(parts, 0, k + 1), Plain(parts, k + 1, |parts|);
      InnerCountOfPlain(parts, 0, k + 1);
      InnerCountOfPlain(parts, k + 1, |parts|);
      InnerCountAppend(before, [Inner]);
      InnerCountAppend(before + [Inner], after);
    }
  }

  // ---------------------------------------------------------------------------
  // saveClassStms, writeCode1, writeCode2
  // ---------------------------------------------------------------------------

  /** An emitted line: code, or a debug comment (written only in debug mode). */
  datatype Line = Code(text: string) | Debug(text: string)

  function CodeLines(ss: seq<string>): (r: seq<Line>)
    ensures |r| == |ss| && forall k :: 0 <= k < |ss| ==> r[k] == Code(ss[k])
  {
    if ss == [] then [] else [Code(ss[0])] + CodeLines(ss[1..])
  }

  /** The code lines of an emission, without the debug comments. */
  function CodeOnly(ls: seq<Line>): seq<string>
  {
    if ls == [] then [] else (if ls[0].Code? then [ls[0].text] else []) + CodeOnly(ls[1..])
  }

  lemma {:induction false} CodeOnlyAppend(x: seq<Line>, y: seq<Line>)
    ensures CodeOnly(x + y) == CodeOnly(x) + CodeOnly(y)
  {
    if x != [] {
      assert (x + y)[1..] == x[1..] + y;
      CodeOnlyAppend(x[1..], y);
    } else {
      assert x + y == y;
    }
  }

  lemma {:induction false} CodeOnlyOfCodeLines(ss: seq<string>)
    ensures CodeOnly(CodeLines(ss)) == ss
  {
    if ss != [] {
      CodeOnlyOfCodeLines(ss[1..]);
    }
  }

  /** The statements' code of a class as saveClassStms records it: the code
      already saved, else what coding the statements gives (`render`, the part
      of the compiler that codes statements, which is not modelled). */
  function Code1Of(a: seq<Scope>, x: nat, render: nat -> seq<string>): seq<string>
    requires x < |a|
  {
    if a[x].code1.Some? then a[x].code1.value else render(x)
  }

  /** saveClassStms: codes the statements only when no code was saved yet. */
  function SaveClassStms(s: Scope, statementsCode: seq<string>): (r: Scope)
    ensures r.code1 == Some(if s.code1.Some? then s.code1.value else statementsCode)
    ensures r == s.(code1 := r.code1)
  {
    if s.code1.None? then s.(code1 := Some(statementsCode)) else s
  }

  /** The code1 lists of the scopes `cs`, in the order of `cs`. */
  function Code1Along(a: seq<Scope>, cs: seq<int>, render: nat -> seq<string>): seq<string>
    requires forall k :: 0 <= k < |cs| ==> 0 <= cs[k] < |a|
  {
    if cs == [] then [] else Code1Along(a, cs[..|cs| - 1], render) + Code1Of(a, cs[|cs| - 1], render)
  }

  /** The arena after writeCode1 of `c`: the statements' code of every class
      on the real chain is saved. */
  function SaveChain(a: seq<Scope>, c: nat, render: nat -> seq<string>): (b: seq<Scope>)
    requires Valid(a) && c < |a|
    ensures |b| == |a|
    ensures forall x :: 0 <= x < |a| ==>
      b[x] == if x in RealChain(a, c, SimulaBlockRoot) then SaveClassStms(a[x], render(x)) else a[x]
  {
    seq(|a|, x requires 0 <= x < |a| =>
      if x in RealChain(a, c, SimulaBlockRoot) then SaveClassStms(a[x], render(x)) else a[x])
  }

  /** Saving code changes no link, so the arena stays well formed. */
  lemma SaveChainValid(a: seq<Scope>, c: nat, render: nat -> seq<string>)
    requires Valid(a) && c < |a|
    ensures var b := SaveChain(a, c, render);
      Valid(b) && forall x :: 0 <= x < |a| ==> b[x] == a[x].(code1 := b[x].code1)
  {
    var b := SaveChain(a, c, render);
    forall i | 0 <= i < |b|
      ensures ScopeOrdered(b[i], i) && ScopeInRange(b[i], |b|)
    {
      ValidAt(a, i);
      assert b[i] == a[i].(code1 := b[i].code1);
    }
  }

  /** The lines writeCode1 emits: the real prefix's lines first, then a debug
      comment and the class's own saved code.  Saving the code of one class
      does not change what any other class emits, and no class occurs twice on
      the chain, so every class emits the code it has, or gets, saved. */
  function WriteCode1Lines(a: seq<Scope>, c: nat, render: nat -> seq<string>): seq<Line>
    requires Valid(a) && c < |a|
    decreases c
  {
    (if HasNoRealPrefix(a, c, SimulaBlockRoot) then [] else WriteCode1Lines(a, a[c].prefix.value, render))
      + OwnCode1Lines(a, c, render)
  }

  /** What writeCode1 emits for the class itself: a debug comment, then the
      saved code. */
  function OwnCode1Lines(a: seq<Scope>, c: nat, render: nat -> seq<string>): (r: seq<Line>)
    requires c < |a|
    ensures CodeOnly(r) == Code1Of(a, c, render)
  {
    var d := [Debug("// Class " + a[c].identifier + ": " + (if |a[c].code2| > 0 then "Code before inner" else "Code"))];
    CodeOnlyAppend(d, CodeLines(Code1Of(a, c, render)));
    CodeOnlyOfCodeLines(Code1Of(a, c, render));
    d + CodeLines(Code1Of(a, c, render))
  }

  /** The pre-INNER code runs along the real chain, the root-most class first. */
  lemma {:induction false} WriteCode1RootFirst(a: seq<Scope>, c: nat, render: nat -> seq<string>)
    requires Valid(a) && c < |a|
    ensures var cs := Reverse(RealChain(a, c, SimulaBlockRoot));
      (forall k :: 0 <= k < |cs| ==> 0 <= cs[k] < |a|) &&
      CodeOnly(WriteCode1Lines(a, c, render)) == Code1Along(a, cs, render)
    decreases c
  {
    RealChainReverse(a, c);
    var cs := Reverse(RealChain(a, c, SimulaBlockRoot));
    var pre := if HasNoRealPrefix(a, c, SimulaBlockRoot) then [] else WriteCode1Lines(a, a[c].prefix.value, render);
    if !HasNoRealPrefix(a, c, SimulaBlockRoot) {
      WriteCode1RootFirst(a, a[c].prefix.value, render);
    }
    CodeOnlyAppend(pre, OwnCode1Lines(a, c, render));
  }

  /** The reversed real chain of a class is the reversed chain of its real
      prefix followed by the class itself. */
  lemma RealChainReverse(a: seq<Scope>, c: nat)
    requires Valid(a) && c < |a|
    ensures var cs := RealChain(a, c, SimulaBlockRoot);
      Reverse(cs)[..|cs| - 1] == (if HasNoRealPrefix(a, c, SimulaBlockRoot) then [] else Reverse(RealChain(a, a[c].prefix.value, SimulaBlockRoot))) &&
      Reverse(cs)[|cs| - 1] == c &&
      (forall k :: 0 <= k < |Reverse(cs)| ==> 0 <= Reverse(cs)[k] < |a|)
  {
    var cs := RealChain(a, c, SimulaBlockRoot);
    assert Reverse(cs) == Reverse(cs[1..]) + [c];
    ReverseElements(cs);
    forall k | 0 <= k < |Reverse(cs)| ensures 0 <= Reverse(cs)[k] < |a| {
      assert Reverse(cs)[k] in cs;
    }
  }

  /** The classes on the real chain: the class and those on its prefix's. */
  lemma RealChainMembers(a: seq<Scope>, c: nat)
    requires Valid(a) && c < |a|
    ensures forall x :: x in RealChain(a, c, SimulaBlockRoot) <==>
      x == c || (!HasNoRealPrefix(a, c, SimulaBlockRoot) && x in RealChain(a, a[c].prefix.value, SimulaBlockRoot))
  {
  }

  /** writeCode2: the own post-INNER code first, then the real prefixes'. */
  function WriteCode2(a: seq<Scope>, c: nat): (r: seq<Line>)
    requires Valid(a) && c < |a|
    ensures HasNoRealPrefix(a, c, SimulaBlockRoot) ==> CodeOnly(r) == a[c].code2
    decreases c
  {
    var own := OwnCode2Lines(a[c]);
    assert own + [] == own;
    own + (if HasNoRealPrefix(a, c, SimulaBlockRoot) then [] else WriteCode2(a, a[c].prefix.value))
  }

  /** What writeCode2 emits for the class itself: nothing when it has no code
      after INNER, else a debug comment and that code. */
  function OwnCode2Lines(s: Scope): (r: seq<Line>)
    ensures CodeOnly(r) == s.code2
  {
    if |s.code2| > 0 then
      var d := [Debug("// Class " + s.identifier + ": Code after inner")];
      CodeOnlyAppend(d, CodeLines(s.code2));
      CodeOnlyOfCodeLines(s.code2);
      d + CodeLines(s.code2)
    else []
  }

  /** The code2 lists of the scopes `cs`, in the order of `cs`. */
  function Code2Along(a: seq<Scope>, cs: seq<nat>): seq<string>
    requires forall k :: 0 <= k < |cs| ==> cs[k] < |a|
  {
    if cs == [] then [] else a[cs[0]].code2 + Code2Along(a, cs[1..])
  }

  /** The post-INNER code runs along the real chain, the class first. */
  lemma {:induction false} WriteCode2OwnFirst(a: seq<Scope>, c: nat)
    requires Valid(a) && c < |a|
    ensures var cs := RealChain(a, c, SimulaBlockRoot);
      (forall k :: 0 <= k < |cs| ==> cs[k] < |a|) && CodeOnly(WriteCode2(a, c)) == Code2Along(a, cs)
    decreases c
  {
    var cs := RealChain(a, c, SimulaBlockRoot);
    var rest := if HasNoRealPrefix(a, c, SimulaBlockRoot) then [] else WriteCode2(a, a[c].prefix.value);
    CodeOnlyAppend(OwnCode2Lines(a[c]), rest);
    if !HasNoRealPrefix(a, c, SimulaBlockRoot) {
      WriteCode2OwnFirst(a, a[c].prefix.value);
      assert cs[1..] == RealChain(a, a[c].prefix.value, SimulaBlockRoot);
    }
  }

  /** codeStatements (writeCode1 then writeCode2): a subclass's statements sit
      between its real prefix's code before and after INNER. */
  lemma CodeStatementsNest(a: seq<Scope>, c: nat, render: nat -> seq<string>)
    requires Valid(a) && c < |a| && !HasNoRealPrefix(a, c, SimulaBlockRoot)
    ensures var p := a[c].prefix.value; var b := SaveChain(a, c, render);
      Valid(b) &&
      CodeOnly(WriteCode1Lines(a, c, render) + WriteCode2(b, c)) ==
        CodeOnly(WriteCode1Lines(a, p, render)) + Code1Of(a, c, render) + a[c].code2 + CodeOnly(WriteCode2(a, p))
  {
    var p := a[c].prefix.value;
    var b := SaveChain(a, c, render);
    SaveChainValid(a, c, render);
    WriteCode2Unchanged(a, b, c);
    NestLines(WriteCode1Lines(a, p, render), OwnCode1Lines(a, c, render), OwnCode2Lines(a[c]), WriteCode2(a, p));
  }

  lemma NestLines(pre: seq<Line>, own1: seq<Line>, own2: seq<Line>, post: seq<Line>)
    ensures CodeOnly((pre + own1) + (own2 + post)) == CodeOnly(pre) + CodeOnly(own1) + CodeOnly(own2) + CodeOnly(post)
  {
    CodeOnlyAppend(pre, own1);
    CodeOnlyAppend(own2, post);
    CodeOnlyAppend(pre + own1, own2 + post);
  }

  /** writeCode2 does not read the saved code1. */
  lemma {:induction false} WriteCode2Unchanged(a: seq<Scope>, b: seq<Scope>, c: nat)
    requires Valid(a) && Valid(b) && c < |a| && |b| == |a|
    requires forall x :: 0 <= x < |a| ==> b[x] == a[x].(code1 := b[x].code1)
    ensures WriteCode2(b, c) == WriteCode2(a, c)
    decreases c
  {
    assert b[c] == a[c].(code1 := b[c].code1);
    assert OwnCode2Lines(b[c]) == OwnCode2Lines(a[c]) by {
      assert b[c].code2 == a[c].code2 && b[c].identifier == a[c].identifier;
    }
    if a[c].prefix.Some? {
      var p := a[c].prefix.value;
      assert b[p] == a[p].(code1 := b[p].code1);
      assert HasNoRealPrefix(b, c, SimulaBlockRoot) == HasNoRealPrefix(a, c, SimulaBlockRoot);
      if !HasNoRealPrefix(a, c, SimulaBlockRoot) {
        WriteCode2Unchanged(a, b, p);
      }
    }
  }

  /** code1 is computed at most once: once writeCode1 has run, running it again
      leaves the arena as it is and emits the same lines, whatever coding the
      statements would now give. */
  lemma WriteCode1Cached(a: seq<Scope>, c: nat, render: nat -> seq<string>, render2: nat -> seq<string>)
    requires Valid(a) && c < |a|
    ensures var b := SaveChain(a, c, render);
      Valid(b) && SaveChain(b, c, render2) == b && WriteCode1Lines(b, c, render2) == WriteCode1Lines(a, c, render)
  {
    var b := SaveChain(a, c, render);
    SaveChainValid(a, c, render);
    RealChainSameLinks(a, b, c);
    forall x | x in RealChain(a, c, SimulaBlockRoot)
      ensures b[x].code1 == Some(Code1Of(a, x, render))
    {
    }
    WriteCode1LinesCached(a, b, c, render, render2);
  }

  lemma {:induction false} RealChainSameLinks(a: seq<Scope>, b: seq<Scope>, c: nat)
    requires Valid(a) && Valid(b) && c < |a| && |b| == |a|
    requires forall x :: 0 <= x < |a| ==> b[x] == a[x].(code1 := b[x].code1)
    ensures RealChain(b, c, SimulaBlockRoot) == RealChain(a, c, SimulaBlockRoot)
    decreases c
  {
    assert b[c] == a[c].(code1 := b[c].code1);
    if a[c].prefix.Some? {
      var p := a[c].prefix.value;
      assert b[p] == a[p].(code1 := b[p].code1);
      RealChainSameLinks(a, b, p);
    }
  }

  /** Every class on the real chain of `c` has in `b` the code `a` would give it. */
  predicate SavedAlong(a: seq<Scope>, b: seq<Scope>, c: nat, render: nat -> seq<string>)
    requires Valid(a) && c < |a| && |b| == |a|
  {
    forall x :: x in RealChain(a, c, SimulaBlockRoot) ==> b[x].code1 == Some(Code1Of(a, x, render))
  }

  lemma SavedAlongStep(a: seq<Scope>, b: seq<Scope>, c: nat, render: nat -> seq<string>)
    requires Valid(a) && c < |a| && |b| == |a| && SavedAlong(a, b, c, render)
    ensures b[c].code1 == Some(Code1Of(a, c, render))
    ensures !HasNoRealPrefix(a, c, SimulaBlockRoot) ==> SavedAlong(a, b, a[c].prefix.value, render)
  {
    RealChainMembers(a, c);
  }

  lemma {:induction false} WriteCode1LinesCached(a: seq<Scope>, b: seq<Scope>, c: nat, render: nat -> seq<string>, render2: nat -> seq<string>)
    requires Valid(a) && Valid(b) && c < |a| && |b| == |a|
    requires forall x :: 0 <= x < |a| ==> b[x] == a[x].(code1 := b[x].code1)
    requires SavedAlong(a, b, c, render)
    ensures WriteCode1Lines(b, c, render2) == WriteCode1Lines(a, c, render)
    decreases c
  {
    SavedAlongStep(a, b, c, render);
    assert b[c] == a[c].(code1 := b[c].code1);
    assert Code1Of(b, c, render2) == Code1Of(a, c, render);
    OwnCode1Same(a, b, c, render, render2);
    if a[c].prefix.Some? {
      var p := a[c].prefix.value;
      assert b[p] == a[p].(code1 := b[p].code1);
      assert HasNoRealPrefix(b, c, SimulaBlockRoot) == HasNoRealPrefix(a, c, SimulaBlockRoot);
      if !HasNoRealPrefix(a, c, SimulaBlockRoot) {
        WriteCode1LinesCached(a, b, p, render, render2);
      }
    }
  }

  lemma OwnCode1Same(a: seq<Scope>, b: seq<Scope>, c: nat, render: nat -> seq<string>, render2: nat -> seq<string>)
    requires c < |a| && c < |b| && b[c] == a[c].(code1 := b[c].code1)
    requires Code1Of(b, c, render2) == Code1Of(a, c, render)
    ensures OwnCode1Lines(b, c, render2) == OwnCode1Lines(a, c, render)
  {
  }

  // ---------------------------------------------------------------------------
  // edFormalParameterList
  // ---------------------------------------------------------------------------

  /** A parameter whose kind (and, for a simple one, type) is known, as after
      its checking, so that toJavaType is defined. */
  predicate Typed(p: ParamRec)
  {
    p.kind.Some? && (p.kind.value == Simple ==> p.typ.Some?)
  }

  /** "<javatype> s<externalIdent>" for each parameter; `qual` gives the Java
      name of the class qualifying a reference parameter. */
  function FormalEntries(ps: seq<ParamRec>, qual: ParamRec -> Option<string>): (r: seq<string>)
    requires AllTyped(ps)
    ensures |r| == |ps|
  {
    if ps == [] then []
    else
      assert Typed(ps[0]);
      [FormalEntry(ps[0], qual)] + FormalEntries(ps[1..], qual)
  }

  predicate AllTyped(ps: seq<ParamRec>)
  {
    forall k :: 0 <= k < |ps| ==> Typed(ps[k])
  }

  /** The declaration of one formal of the constructor. */
  function FormalEntry(p: ParamRec, qual: ParamRec -> Option<string>): string
    requires Typed(p)
  {
    ParamJavaType(p, qual(p)) + " s" + OrNull(p.externalIdent)
  }

  lemma {:induction false} FormalEntriesSnoc(ps: seq<ParamRec>, p: ParamRec, qual: ParamRec -> Option<string>)
    requires AllTyped(ps) && Typed(p)
    ensures AllTyped(ps + [p])
    ensures FormalEntries(ps + [p], qual) == FormalEntries(ps, qual) + [FormalEntry(p, qual)]
  {
    if ps != [] {
      assert (ps + [p])[1..] == ps[1..] + [p];
      FormalEntriesSnoc(ps[1..], p, qual);
    } else {
      assert [p][1..] == [];
    }
  }

  /** edFormalParameterList: the constructor's formals, the static link first and
      then every chained parameter in prefix-first order. */
  method EdFormalParameterList(a: seq<Scope>, c: nat, qual: ParamRec -> Option<string>) returns (s: string)
    requires Valid(a) && c < |a|
    requires AllTyped(ChainParameters(a, c))
    ensures s == "(" + Join(["_RTObject staticLink"] + FormalEntries(ChainParameters(a, c), qual), ",") + ") {"
  {
    var ps := CollectChainParameters(a, c);
    s := EdFormals(ps, qual);
  }

  /** The for-each loop of edFormalParameterList over the chained parameters. */
  method EdFormals(ps: seq<ParamRec>, qual: ParamRec -> Option<string>) returns (s: string)
    requires AllTyped(ps)
    ensures s == "(" + Join(["_RTObject staticLink"] + FormalEntries(ps, qual), ",") + ") {"
  {
    s := "(_RTObject staticLink";
    ghost var names := ["_RTObject staticLink"];
    assert ps[..0] == [];
    for i := 0 to |ps|
      invariant AllTyped(ps[..i])
      invariant names == ["_RTObject staticLink"] + FormalEntries(ps[..i], qual)
      invariant s == "(" + Join(names, ",")
    {
      TypedPrefixStep(ps, i);
      FormalStep(s, names, ps[..i], ps[i], qual);
      names := names + [FormalEntry(ps[i], qual)];
      s := s + "," + FormalEntry(ps[i], qual);
    }
    assert ps[..|ps|] == ps;
    s := s + ") {";
  }

  lemma TypedPrefixStep(ps: seq<ParamRec>, i: nat)
    requires AllTyped(ps) && i < |ps|
    ensures ps[..i + 1] == ps[..i] + [ps[i]] && Typed(ps[i]) && AllTyped(ps[..i])
  {
    assert forall j :: 0 <= j < i ==> ps[..i][j] == ps[j];
  }

  lemma FormalStep(s: string, names: seq<string>, done: seq<ParamRec>, p: ParamRec, qual: ParamRec -> Option<string>)
    requires AllTyped(done) && Typed(p)
    requires names == ["_RTObject staticLink"] + FormalEntries(done, qual)
    requires s == "(" + Join(names, ",")
    ensures AllTyped(done + [p])
    ensures names + [FormalEntry(p, qual)] == ["_RTObject staticLink"] + FormalEntries(done + [p], qual)
    ensures s + "," + FormalEntry(p, qual) == "(" + Join(names + [FormalEntry(p, qual)], ",")
  {
    var e := FormalEntry(p, qual);
    FormalEntriesSnoc(done, p, qual);
    assert names + [e] == ["_RTObject staticLink"] + (FormalEntries(done, qual) + [e]);
    JoinExtend("(", s, names, e, ",");
  }

  // ---------------------------------------------------------------------------
  // writeExternal / readExternal
  // ---------------------------------------------------------------------------

  /** The fields writeExternal writes, in the order it writes them (the
      virtual match list is not written). */
  datatype ClassExternal = ClassExternal(
    identifier: string,
    externalIdent: Option<string>,
    typ: Option<Type>,
    rtBlockLevel: int,
    prefixName: Option<string>,
    hasLocalClasses: bool,
    detachUsed: bool,
    parameters: seq<ParamRec>,
    virtualSpecs: seq<VSpec>,
    hidden: seq<Hidden>,
    protectedList: seq<string>,
    labels: seq<Label>,
    declarations: seq<Decl>,
    code1: Option<seq<string>>,
    code2: seq<string>,
    externalPrefixIdent: Option<string>)

  function WriteExternal(s: Scope, externalPrefixIdent: Option<string>): ClassExternal
  {
    ClassExternal(s.identifier, s.externalIdent, s.typ, s.rtBlockLevel, s.prefixName,
                  s.hasLocalClasses, s.detachUsed, s.parameters, s.virtualSpecs, s.hidden,
                  s.protectedList, s.labels, s.declarations, s.code1, s.code2, externalPrefixIdent)
  }

  /** readExternal fills a fresh class declaration (declared in `declaredIn`)
      with the fields in the same order; the kind is set to Class. */
  function ReadExternal(r: ClassExternal, declaredIn: Option<nat>): (Scope, Option<string>)
  {
    (Scope(r.identifier, ClassDecl, ClassBlock, declaredIn, r.prefixName, None, 0, r.rtBlockLevel, 0,
           r.externalIdent, r.typ, false, r.parameters, r.declarations, r.labels, r.virtualSpecs, [],
           r.hidden, r.protectedList, {}, [], r.hasLocalClasses, r.detachUsed, r.code1, r.code2, None),
     r.externalPrefixIdent)
  }

  /** Every written field is read back; the virtual match list comes back empty. */
  lemma ExternalRoundTrip(s: Scope, externalPrefixIdent: Option<string>)
    ensures var (t, x) := ReadExternal(WriteExternal(s, externalPrefixIdent), s.declaredIn);
      x == externalPrefixIdent &&
      t.identifier == s.identifier && t.externalIdent == s.externalIdent && t.typ == s.typ &&
      t.rtBlockLevel == s.rtBlockLevel && t.prefixName == s.prefixName &&
      t.hasLocalClasses == s.hasLocalClasses && t.detachUsed == s.detachUsed &&
      t.parameters == s.parameters && t.virtualSpecs == s.virtualSpecs && t.hidden == s.hidden &&
      t.protectedList == s.protectedList && t.labels == s.labels && t.declarations == s.declarations &&
      t.code1 == s.code1 && t.code2 == s.code2 && t.declaredIn == s.declaredIn &&
      t.virtualMatches == [] && t.cls == ClassDecl
  {
  }
}
