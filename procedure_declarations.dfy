// ProcedureDeclaration.java: a procedure's parameter list and its additions,
// the attribute search, the semantic check (external identifiers, block
// level, registration as the match of a virtual specification), the formal
// parameter list of the generated Java method or constructor, the setPar
// method used for formal and virtual calls, and the attribute-file record.

module ProcedureDeclarations {
  import opened Util
  import opened Types
  import opened Parameters
  import opened Scopes
  import opened DeclarationScopes
  import opened ClassDeclarations
  import opened BlockDeclarations

  // ---------------------------------------------------------------------------
  // addParameter
  // ---------------------------------------------------------------------------

  /** The error for a parameter name used twice, as written: it names the
      procedure (the `identifier` field), not the parameter. */
  function DuplicateMessageAsWritten(procIdent: string, p: ParamRec): string
  {
    "Parameter already defined: " + procIdent
  }

  /** The error naming the parameter that is defined twice. */
  function DuplicateMessage(p: ParamRec): string
  {
    "Parameter already defined: " + p.identifier
  }

  /** For procedure P with parameter x, adding another x reports P, so the
      message does not say which parameter is the duplicate. */
  lemma DuplicateMessageAsWrittenNamesProcedure()
    ensures var x := ParamRec("x", None, Some(Integer), Some(Simple), None, 0);
      DuplicateMessageAsWritten("P", x) == "Parameter already defined: P" &&
      DuplicateMessageAsWritten("P", x) != DuplicateMessage(x)
  {
    var x := ParamRec("x", None, Some(Integer), Some(Simple), None, 0);
    assert DuplicateMessage(x)[27] == 'x';
  }

  /** Every name differs from every other one, ignoring case. */
  predicate DistinctIgnoringCase(names: seq<string>)
  {
    forall i, j :: 0 <= i < j < |names| ==> !EqualsIgnoreCase(names[i], names[j])
  }

  /** addParameter: a parameter whose name is already used (ignoring case) is
      rejected with an error and the list is left as it was; any other is
      appended. */
  function ParamAdded(ps: seq<ParamRec>, p: ParamRec): (r: (seq<ParamRec>, Option<string>))
    ensures (r.1.Some? <==> exists k :: 0 <= k < |ps| && EqualsIgnoreCase(p.identifier, ps[k].identifier))
    ensures r.1.Some? ==> r.0 == ps && r.1 == Some(DuplicateMessage(p))
    ensures r.1.None? ==> r.0 == ps + [p]
  {
    var k := FirstNamed(ParamNames(ps), p.identifier);
    if k.Some? then (ps, Some(DuplicateMessage(p))) else (ps + [p], None)
  }

  /** The parameter names stay pairwise distinct under addParameter. */
  lemma ParamAddedKeepsDistinct(ps: seq<ParamRec>, p: ParamRec)
    requires DistinctIgnoringCase(ParamNames(ps))
    ensures DistinctIgnoringCase(ParamNames(ParamAdded(ps, p).0))
  {
    var r := ParamAdded(ps, p).0;
    if r != ps {
      var ns := ParamNames(r);
      forall i, j | 0 <= i < j < |ns| ensures !EqualsIgnoreCase(ns[i], ns[j]) {
        if j == |ps| {
          assert ns[j] == p.identifier && ns[i] == ps[i].identifier;
          NotEqualsIgnoreCaseSymmetric(p.identifier, ns[i]);
        } else {
          assert ns[i] == ParamNames(ps)[i] && ns[j] == ParamNames(ps)[j];
        }
      }
    }
  }

  lemma NotEqualsIgnoreCaseSymmetric(a: string, b: string)
    requires !EqualsIgnoreCase(a, b)
    ensures !EqualsIgnoreCase(b, a)
  {
    if EqualsIgnoreCase(b, a) {
      EqualsIgnoreCaseSymmetric(b, a);
    }
  }

  /** addParameter on procedure `c`: the for-each loop looking for the name,
      then the append. */
  method AddParameter(st: Compilation, c: nat, p: ParamRec) returns (error: Option<string>)
    requires st.Valid() && c < |st.scopes|
    modifies st
    ensures var r := ParamAdded(old(st.scopes[c].parameters), p);
      st.scopes == old(st.scopes)[c := old(st.scopes[c]).(parameters := r.0)] && error == r.1
    ensures st.currentScope == old(st.currentScope)
    ensures st.currentBlockLevel == old(st.currentBlockLevel) && st.currentRTBlockLevel == old(st.currentRTBlockLevel)
    ensures st.Valid()
  {
    var a := st.scopes;
    var k := SearchNames(ParamNames(a[c].parameters), p.identifier);
    if k.Some? {
      error := Some(DuplicateMessage(p));
      st.scopes := a[c := a[c]];
      return;
    }
    error := None;
    var s := a[c].(parameters := a[c].parameters + [p]);
    ValidAt(a, c);
    UpdatePreservesValid(a, c, s);
    st.scopes := a[c := s];
  }

  // ---------------------------------------------------------------------------
  // findVisibleAttributeMeaning
  // ---------------------------------------------------------------------------

  /** The declarations are searched first, then the parameters, then the
      labels, ignoring case; the meaning is declared and found in the
      procedure and not behind a HIDDEN specification. */
  function ProcVisibleAttribute(a: seq<Scope>, c: nat, ident: string): (r: Option<Meaning>)
    requires c < |a|
    ensures r.Some? ==> r.value.declaredIn == Some(c) && r.value.foundIn == Some(c) && !r.value.foundBehindInvisible
    ensures r.Some? ==>
      r.value.declaredAs.Some? && FoundValid(a, r.value.declaredAs.value) &&
      r.value.declaredAs.value.scope == c && EqualsIgnoreCase(ident, FoundName(a, r.value.declaredAs.value))
    ensures r.Some? ==> !r.value.declaredAs.value.FMatch? && !r.value.declaredAs.value.FSpec?
  {
    match FirstNamed(DeclNames(a[c].declarations), ident)
    case Some(k) => Some(Meaning(Some(FDecl(c, k)), Some(c), Some(c), false))
    case None =>
      match FirstNamed(ParamNames(a[c].parameters), ident)
      case Some(k) => Some(Meaning(Some(FParam(c, k)), Some(c), Some(c), false))
      case None =>
        match FirstNamed(LabelNames(a[c].labels), ident)
        case Some(k) => Some(Meaning(Some(FLabel(c, k)), Some(c), Some(c), false))
        case None => None
  }

  /** Nothing is found exactly when no list has the name; a parameter is
      found only when no declaration has it, a label only when neither a
      declaration nor a parameter has it. */
  lemma ProcVisibleAttributeOrder(a: seq<Scope>, c: nat, ident: string)
    requires c < |a|
    ensures var r := ProcVisibleAttribute(a, c, ident);
      var ds := a[c].declarations; var ps := a[c].parameters; var ls := a[c].labels;
      (r.None? <==>
         (forall k :: 0 <= k < |ds| ==> !EqualsIgnoreCase(ident, ds[k].identifier)) &&
         (forall k :: 0 <= k < |ps| ==> !EqualsIgnoreCase(ident, ps[k].identifier)) &&
         (forall k :: 0 <= k < |ls| ==> !EqualsIgnoreCase(ident, ls[k].identifier))) &&
      (r.Some? && !r.value.declaredAs.value.FDecl? ==>
         forall k :: 0 <= k < |ds| ==> !EqualsIgnoreCase(ident, ds[k].identifier)) &&
      (r.Some? && r.value.declaredAs.value.FLabel? ==>
         forall k :: 0 <= k < |ps| ==> !EqualsIgnoreCase(ident, ps[k].identifier))
  {
    var ds := a[c].declarations;
    var ps := a[c].parameters;
    var ls := a[c].labels;
    if FirstNamed(DeclNames(ds), ident).None? {
      assert forall k :: 0 <= k < |ds| ==> DeclNames(ds)[k] == ds[k].identifier;
      if FirstNamed(ParamNames(ps), ident).None? {
        assert forall k :: 0 <= k < |ps| ==> ParamNames(ps)[k] == ps[k].identifier;
        if FirstNamed(LabelNames(ls), ident).None? {
          assert forall k :: 0 <= k < |ls| ==> LabelNames(ls)[k] == ls[k].identifier;
        }
      }
    }
  }

  /** The three for-each loops with early returns. */
  method FindProcVisibleAttribute(a: seq<Scope>, c: nat, ident: string) returns (r: Option<Meaning>)
    requires c < |a|
    ensures r == ProcVisibleAttribute(a, c, ident)
  {
    var k := SearchNames(DeclNames(a[c].declarations), ident);
    if k.Some? {
      return Some(Meaning(Some(FDecl(c, k.value)), Some(c), Some(c), false));
    }
    k := SearchNames(ParamNames(a[c].parameters), ident);
    if k.Some? {
      return Some(Meaning(Some(FParam(c, k.value)), Some(c), Some(c), false));
    }
    k := SearchNames(LabelNames(a[c].labels), ident);
    if k.Some? {
      return Some(Meaning(Some(FLabel(c, k.value)), Some(c), Some(c), false));
    }
    return None;
  }

  // ---------------------------------------------------------------------------
  // doChecking
  // ---------------------------------------------------------------------------

  /** A procedure coded as a Java method is named by its own identifier. */
  predicate IsMethodKind(k: BlockKind)
  {
    k == ContextFreeMethod || k == StaticMethod || k == MemberMethod
  }

  /** The external identifier doChecking gives a procedure: its identifier
      for a method kind, else the one it has, else edJavaClassName. */
  function ProcExternalIdent(a: seq<Scope>, c: nat): (r: Option<string>)
    requires Valid(a) && c < |a|
    ensures IsMethodKind(a[c].blockKind) ==> r == Some(a[c].identifier)
    ensures !IsMethodKind(a[c].blockKind) ==>
      r == if a[c].externalIdent.Some? then a[c].externalIdent else JavaClassName(a, c)
  {
    if IsMethodKind(a[c].blockKind) then Some(a[c].identifier)
    else if a[c].externalIdent.None? then JavaClassName(a, c)
    else a[c].externalIdent
  }

  /** The virtual specification a procedure matches (found by
      getVirtualSpecification, which is not part of this model) names a
      specification in the arena, and the procedure is declared in a class. */
  predicate SpecFits(a: seq<Scope>, c: nat, spec: Option<VirtualRef>)
    requires c < |a|
  {
    spec.Some? ==>
      spec.value.scope < |a| && spec.value.index < |a[spec.value.scope].virtualSpecs| && a[c].declaredIn.Some?
  }

  /** The procedure's own record after doChecking, entered at block level
      `level`; `myVirtual` is the position its match takes in the enclosing
      class when it matches a virtual specification. */
  function ProcOwnChecked(a: seq<Scope>, c: nat, level: int, spec: Option<VirtualRef>): (s: Scope)
    requires Valid(a) && c < |a| && SpecFits(a, c, spec)
    ensures ScopeOrdered(s, c) && ScopeInRange(s, |a|)
  {
    ValidAt(a, c);
    a[c].(externalIdent := ProcExternalIdent(a, c), blockLevel := level + 1,
          parameters := if a[c].blockKind == ProcedureBlock then WithExternalIdentifiers(a[c].parameters, 0)
                        else a[c].parameters,
          myVirtual := if spec.Some? then Some(VirtualRef(a[c].declaredIn.value, |a[a[c].declaredIn.value].virtualMatches|))
                       else a[c].myVirtual,
          checked := true)
  }

  /** Appending match `m` to class `d`, and giving its specification a
      default match when `d` is the class that specifies it. */
  function MatchRegistered(b: seq<Scope>, d: nat, m: VMatch): (r: seq<Scope>)
    requires Valid(b) && d < |b| && m.specScope < |b| && m.specIndex < |b[m.specScope].virtualSpecs|
    ensures |r| == |b| && Valid(r)
  {
    var t := b[d].(virtualMatches := b[d].virtualMatches + [m]);
    ValidAt(b, d);
    UpdatePreservesValid(b, d, t);
    var b1 := b[d := t];
    if d == m.specScope then
      var vs := b1[d].virtualSpecs;
      var t1 := b1[d].(virtualSpecs := vs[m.specIndex := vs[m.specIndex].(hasDefaultMatch := true)]);
      ValidAt(b1, d);
      UpdatePreservesValid(b1, d, t1);
      b1[d := t1]
    else b1
  }

  /** The arena after doChecking of procedure `c`, entered at block level
      `level` and matching the virtual specification `spec` (the checking of
      its parameters, declarations, statements and labels aside). */
  function ProcChecked(a: seq<Scope>, c: nat, level: int, spec: Option<VirtualRef>): (r: seq<Scope>)
    requires Valid(a) && c < |a| && SpecFits(a, c, spec)
    ensures |r| == |a| && Valid(r) && r[c].checked
  {
    if a[c].checked then a
    else
      var own := ProcOwnChecked(a, c, level, spec);
      UpdatePreservesValid(a, c, own);
      var b := a[c := own];
      if spec.None? then b
      else
        ValidAt(a, c);
        MatchRegistered(b, a[c].declaredIn.value, VMatch(a[c].identifier, spec.value.scope, spec.value.index, c))
  }

  /** Checking a procedure twice is checking it once. */
  lemma ProcCheckedIdempotent(a: seq<Scope>, c: nat, level1: int, level2: int, spec1: Option<VirtualRef>, spec2: Option<VirtualRef>)
    requires Valid(a) && c < |a| && SpecFits(a, c, spec1)
    requires SpecFits(ProcChecked(a, c, level1, spec1), c, spec2)
    ensures ProcChecked(ProcChecked(a, c, level1, spec1), c, level2, spec2) == ProcChecked(a, c, level1, spec1)
  {
  }

  /** What the check does to the procedure itself: one level deeper, its
      external identifier, for a plain procedure the parameters' external
      identifiers "p$<id>", and, when it matches a virtual, the position of
      its match in the enclosing class. */
  lemma ProcCheckedOwnFields(a: seq<Scope>, c: nat, level: int, spec: Option<VirtualRef>)
    requires Valid(a) && c < |a| && SpecFits(a, c, spec) && !a[c].checked
    ensures var r := ProcChecked(a, c, level, spec);
      r[c].blockLevel == level + 1 && r[c].externalIdent == ProcExternalIdent(a, c) &&
      r[c].identifier == a[c].identifier && r[c].declarations == a[c].declarations &&
      r[c].labels == a[c].labels && |r[c].parameters| == |a[c].parameters| &&
      (forall k :: 0 <= k < |a[c].parameters| ==>
         r[c].parameters[k] == a[c].parameters[k].(externalIdent := r[c].parameters[k].externalIdent) &&
         (a[c].blockKind == ProcedureBlock ==>
            r[c].parameters[k].externalIdent == Some("p$" + a[c].parameters[k].identifier))) &&
      (spec.Some? ==> r[c].myVirtual == Some(VirtualRef(a[c].declaredIn.value, |a[a[c].declaredIn.value].virtualMatches|)))
  {
    ValidAt(a, c);
  }

  /** A procedure matching a virtual specification appends exactly one match
      to its enclosing class; the specification gets a default match exactly
      when that class is the one that specifies it; no other scope changes. */
  lemma ProcCheckedRegistersMatch(a: seq<Scope>, c: nat, level: int, spec: Option<VirtualRef>)
    requires Valid(a) && c < |a| && SpecFits(a, c, spec) && !a[c].checked && spec.Some?
    ensures var r := ProcChecked(a, c, level, spec); var d := a[c].declaredIn.value;
      var sp := spec.value;
      r[d].virtualMatches == a[d].virtualMatches + [VMatch(a[c].identifier, sp.scope, sp.index, c)] &&
      |r[sp.scope].virtualSpecs| == |a[sp.scope].virtualSpecs| &&
      r[sp.scope].virtualSpecs[sp.index] ==
        a[sp.scope].virtualSpecs[sp.index].(hasDefaultMatch := d == sp.scope || a[sp.scope].virtualSpecs[sp.index].hasDefaultMatch) &&
      (forall j :: 0 <= j < |a[sp.scope].virtualSpecs| && j != sp.index ==>
         r[sp.scope].virtualSpecs[j] == a[sp.scope].virtualSpecs[j]) &&
      forall x :: 0 <= x < |a| && x != c && x != d ==> r[x] == a[x]
  {
    ValidAt(a, c);
  }

  /** A procedure matching no virtual changes no other scope. */
  lemma ProcCheckedWithoutSpec(a: seq<Scope>, c: nat, level: int)
    requires Valid(a) && c < |a|
    ensures var r := ProcChecked(a, c, level, None);
      forall x :: 0 <= x < |a| && x != c ==> r[x] == a[x]
  {
  }

  /** doChecking: nothing for a procedure already checked; otherwise the
      external identifier, one block level deeper while the body is checked,
      the parameters' external identifiers, the virtual match, and the
      current scope and level restored. */
  method ProcDoChecking(st: Compilation, c: nat, spec: Option<VirtualRef>)
    requires st.Valid() && c < |st.scopes| && SpecFits(st.scopes, c, spec)
    modifies st
    ensures st.scopes == ProcChecked(old(st.scopes), c, old(st.currentBlockLevel), spec)
    ensures st.currentScope == if old(st.scopes[c].checked) then old(st.currentScope) else old(st.scopes[c].declaredIn)
    ensures st.currentBlockLevel == old(st.currentBlockLevel) && st.currentRTBlockLevel == old(st.currentRTBlockLevel)
    ensures st.Valid()
  {
    var a := st.scopes;
    if a[c].checked {
      return;
    }
    st.currentBlockLevel := st.currentBlockLevel + 1;
    var level := st.currentBlockLevel;
    st.currentScope := Some(c);
    var s := CheckOwn(a, c, level, spec);
    ValidAt(a, c);
    var d := a[c].declaredIn;
    UpdatePreservesValid(a, c, s);
    st.scopes := a[c := s];
    if spec.Some? {
      RegisterMatch(st, d.value, VMatch(a[c].identifier, spec.value.scope, spec.value.index, c));
    }
    st.currentScope := d;
    st.currentBlockLevel := level - 1;
  }

  /** The external identifier: the three method kinds, then the
      `else if` that belongs to the last of them only. */
  method CheckExternalIdent(a: seq<Scope>, c: nat) returns (ext: Option<string>)
    requires Valid(a) && c < |a|
    ensures ext == ProcExternalIdent(a, c)
  {
    var s := a[c];
    ext := s.externalIdent;
    if s.blockKind == ContextFreeMethod { ext := Some(s.identifier); }
    if s.blockKind == StaticMethod { ext := Some(s.identifier); }
    if s.blockKind == MemberMethod {
      ext := Some(s.identifier);
    } else if ext.None? {
      ext := EdJavaClassName(a, c);
    }
  }

  /** The procedure's own fields set by doChecking at block level `level`. */
  method CheckOwn(a: seq<Scope>, c: nat, level: int, spec: Option<VirtualRef>) returns (s: Scope)
    requires Valid(a) && c < |a| && SpecFits(a, c, spec)
    ensures s == ProcOwnChecked(a, c, level - 1, spec)
  {
    var ext := CheckExternalIdent(a, c);
    var ps := a[c].parameters;
    if a[c].blockKind == ProcedureBlock {
      ps := SetExternalIdentifiers(ps, 0);
    }
    var vr := a[c].myVirtual;
    if spec.Some? {
      vr := Some(VirtualRef(a[c].declaredIn.value, |a[a[c].declaredIn.value].virtualMatches|));
    }
    s := a[c].(externalIdent := ext, blockLevel := level, parameters := ps, myVirtual := vr, checked := true);
  }

  /** `decl.virtualMatchList.add(myVirtual)`, then the default match. */
  method RegisterMatch(st: Compilation, d: nat, m: VMatch)
    requires st.Valid() && d < |st.scopes| && m.specScope < |st.scopes| && m.specIndex < |st.scopes[m.specScope].virtualSpecs|
    modifies st
    ensures st.scopes == MatchRegistered(old(st.scopes), d, m)
    ensures st.currentScope == old(st.currentScope)
    ensures st.currentBlockLevel == old(st.currentBlockLevel) && st.currentRTBlockLevel == old(st.currentRTBlockLevel)
    ensures st.Valid()
  {
    var b := st.scopes;
    var t := b[d].(virtualMatches := b[d].virtualMatches + [m]);
    ValidAt(b, d);
    UpdatePreservesValid(b, d, t);
    b := b[d := t];
    if d == m.specScope {
      var vs := b[d].virtualSpecs;
      var t1 := b[d].(virtualSpecs := vs[m.specIndex := vs[m.specIndex].(hasDefaultMatch := true)]);
      ValidAt(b, d);
      UpdatePreservesValid(b, d, t1);
      b := b[d := t1];
    }
    st.scopes := b;
  }

  // ---------------------------------------------------------------------------
  // edFormalParameterList
  // ---------------------------------------------------------------------------

  /** The leading static link of a procedure's formals, when there is one. */
  function ProcLead(addStaticLink: bool): seq<string>
  {
    if addStaticLink then ["RTObject$ SL$"] else []
  }

  /** edFormalParameterList(isInlineMethod, addStaticLink): the static link
      when asked for, then "<javatype> <identifier>" for an inline method or
      "<javatype> s<externalIdent>" otherwise, one per parameter in list
      order, commas between items only. */
  method ProcEdFormalParameterList(a: seq<Scope>, c: nat, qual: ParamRec -> Option<string>,
                                   isInlineMethod: bool, addStaticLink: bool) returns (s: string)
    requires c < |a| && AllTyped(a[c].parameters)
    ensures s == "(" + Join(ProcLead(addStaticLink) + BlockFormals(a[c].parameters, qual, isInlineMethod), ",") + ") {"
  {
    s := BlockFormalsText(ProcLead(addStaticLink), a[c].parameters, qual, isInlineMethod);
  }

  /** When no formal contains a comma, the list splits back into the static
      link (when asked for) and one formal per parameter, in order. */
  lemma ProcFormalsSplit(ps: seq<ParamRec>, qual: ParamRec -> Option<string>, isInlineMethod: bool, addStaticLink: bool)
    requires AllTyped(ps)
    requires forall k :: 0 <= k < |ps| ==> ',' !in BlockFormal(ps[k], qual, isInlineMethod)
    requires addStaticLink || |ps| > 0
    ensures var items := ProcLead(addStaticLink) + BlockFormals(ps, qual, isInlineMethod);
      Split(Join(items, ","), ',') == items
  {
    NoCommaInProcLead(addStaticLink);
    BlockFormalsSplit(ProcLead(addStaticLink), ps, qual, isInlineMethod);
  }

  lemma NoCommaInProcLead(addStaticLink: bool)
    ensures forall i :: 0 <= i < |ProcLead(addStaticLink)| ==> ',' !in ProcLead(addStaticLink)[i]
  {
    assert ',' !in "RTObject$ SL$";
  }

  // ---------------------------------------------------------------------------
  // doCodePrepareFormal
  // ---------------------------------------------------------------------------

  /** How setPar converts the actual `param` for a formal whose Java type is
      `tp`. */
  function TypeValue(p: ParamRec, tp: string): string
    requires Typed(p)
  {
    if p.mode == Some(ByName) then "(" + tp + ")param"
    else if p.kind.value == ArrayKind then "arrayValue(param)" + (if p.mode == Some(ByValue) then ".COPY()" else "")
    else if p.kind.value == ProcedureKind then "procValue(param)"
    else if p.kind.value != Simple then "(" + tp + ")param"
    else if IsArithmeticType(p.typ.value) then tp + "Value(param)"
    else "(" + tp + ")objectValue(param)"
  }

  /** The value is copied exactly for an array passed by value. */
  lemma CopyOnlyForArrayByValue(p: ParamRec, tp: string)
    requires Typed(p)
    ensures EndsWith(TypeValue(p, tp), ".COPY()") <==> p.kind.value == ArrayKind && p.mode == Some(ByValue)
  {
    var v := TypeValue(p, tp);
    if p.kind.value == ArrayKind && p.mode == Some(ByValue) {
      assert v == "arrayValue(param)" + ".COPY()";
    } else {
      assert |v| >= 5 && v[|v| - 2] != '(' by {
        if p.mode == Some(ByName) || (p.kind.value != ArrayKind && p.kind.value != ProcedureKind && p.kind.value != Simple) {
          assert v == "(" + tp + ")param";
        } else if p.kind.value == ArrayKind {
          assert v == "arrayValue(param)";
        } else if p.kind.value == ProcedureKind {
          assert v == "procValue(param)";
        } else if IsArithmeticType(p.typ.value) {
          assert v == tp + "Value(param)";
        } else {
          assert v == "(" + tp + ")objectValue(param)";
        }
      }
    }
  }

  /** The case line for the k-th parameter. */
  function CaseLine(k: nat, p: ParamRec, qual: ParamRec -> Option<string>): string
    requires Typed(p)
  {
    "case " + IntToString(k) + ": " + OrNull(p.externalIdent) + "=" + TypeValue(p, ParamJavaType(p, qual(p))) + "; break;"
  }

  /** `f(0, xs[0]), ..., f(n-1, xs[n-1])`: the first `n` items numbered. */
  function Numbered<T>(xs: seq<T>, f: (nat, T) --> string, n: nat): (r: seq<string>)
    requires n <= |xs| && forall k :: 0 <= k < n ==> f.requires(k, xs[k])
    ensures |r| == n
  {
    if n == 0 then [] else Numbered(xs, f, n - 1) + [f(n - 1, xs[n - 1])]
  }

  lemma {:induction false} NumberedAt<T>(xs: seq<T>, f: (nat, T) --> string, n: nat, k: nat)
    requires n <= |xs| && forall k :: 0 <= k < n ==> f.requires(k, xs[k])
    requires k < n
    ensures Numbered(xs, f, n)[k] == f(k, xs[k])
  {
    if k < n - 1 {
      NumberedAt(xs, f, n - 1, k);
    }
  }

  /** The case lines for the first `n` parameters of `ps`, the k-th
      numbered k. */
  function CaseLines(ps: seq<ParamRec>, qual: ParamRec -> Option<string>, n: nat): (r: seq<string>)
    requires AllTyped(ps) && n <= |ps|
    ensures |r| == n
  {
    Numbered(ps, (k: nat, p: ParamRec) requires Typed(p) => CaseLine(k, p, qual), n)
  }

  const DefaultCase := "default: throw new RuntimeException(\"Wrong number of parameters\");"
  const NparLine := "private int $npar=0; // Number of actual parameters transmitted."
  const SwitchLine := "switch($npar++) {"
  const CatchLine := "catch(ClassCastException e) { throw new RuntimeException(\"Wrong type of parameter: \"+$npar+\" \"+param,e);}"

  function PrepareHead(javaIdent: string): (r: seq<string>)
    ensures |r| == 4 && r[3] == SwitchLine
  {
    [NparLine, "public " + javaIdent + " setPar(Object param) {", "try {", SwitchLine]
  }

  function PrepareTail(javaIdent: string): (r: seq<string>)
    ensures |r| == 8 && r[0] == DefaultCase
  {
    [DefaultCase, "}", "}", CatchLine, "return(this);", "}",
     "public " + javaIdent + "(RTObject$ SL$)", "{ super(SL$); }"]
  }

  /** The code lines of doCodePrepareFormal (its debug lines aside). */
  function PrepareFormalLines(javaIdent: string, ps: seq<ParamRec>, qual: ParamRec -> Option<string>): seq<string>
    requires AllTyped(ps)
  {
    PrepareHead(javaIdent) + CaseLines(ps, qual, |ps|) + PrepareTail(javaIdent)
  }

  /** The switch has one case per parameter, numbered 0..n-1 in parameter
      order, each assigning the parameter's external identifier; the
      default case that follows them rejects any further actual. */
  lemma PrepareFormalCases(javaIdent: string, ps: seq<ParamRec>, qual: ParamRec -> Option<string>)
    requires AllTyped(ps)
    ensures var r := PrepareFormalLines(javaIdent, ps, qual);
      |r| == |ps| + 12 && r[3] == SwitchLine && r[4 + |ps|] == DefaultCase &&
      forall k :: 0 <= k < |ps| ==> Typed(ps[k]) && r[4 + k] == CaseLine(k, ps[k], qual)
  {
    var h := PrepareHead(javaIdent);
    var cs := CaseLines(ps, qual, |ps|);
    var t := PrepareTail(javaIdent);
    var r := PrepareFormalLines(javaIdent, ps, qual);
    assert r == h + cs + t;
    IndexAfter(h, cs, t);
    forall k | 0 <= k < |ps| ensures Typed(ps[k]) && r[4 + k] == CaseLine(k, ps[k], qual) {
      CaseLinesAt(ps, qual, k);
      IndexMiddle(h, cs, t, k);
    }
  }

  lemma CaseLinesAt(ps: seq<ParamRec>, qual: ParamRec -> Option<string>, k: nat)
    requires AllTyped(ps) && k < |ps|
    ensures Typed(ps[k]) && CaseLines(ps, qual, |ps|)[k] == CaseLine(k, ps[k], qual)
  {
    NumberedAt(ps, (k: nat, p: ParamRec) requires Typed(p) => CaseLine(k, p, qual), |ps|, k);
  }

  lemma IndexMiddle<T>(h: seq<T>, m: seq<T>, t: seq<T>, k: nat)
    requires k < |m|
    ensures (h + m + t)[|h| + k] == m[k]
  {
  }

  lemma IndexAfter<T>(h: seq<T>, m: seq<T>, t: seq<T>)
    requires |t| > 0
    ensures (h + m + t)[|h| + |m|] == t[0] && (h + m + t)[..|h|] == h
  {
  }

  /** doCodePrepareFormal: the loop numbering the cases with `npar`. */
  method CodePrepareFormal(javaIdent: string, ps: seq<ParamRec>, qual: ParamRec -> Option<string>)
    returns (lines: seq<string>)
    requires AllTyped(ps)
    ensures lines == PrepareFormalLines(javaIdent, ps, qual)
  {
    lines := PrepareHead(javaIdent);
    var npar := 0;
    for i := 0 to |ps|
      invariant npar == i
      invariant lines == PrepareHead(javaIdent) + CaseLines(ps, qual, i)
    {
      assert Typed(ps[i]);
      var e := CaseLine(npar, ps[i], qual);
      SnocAfter(lines, PrepareHead(javaIdent), CaseLines(ps, qual, i), e);
      lines := lines + [e];
      npar := npar + 1;
    }
    lines := lines + PrepareTail(javaIdent);
  }

  // ---------------------------------------------------------------------------
  // writeExternal / readExternal
  // ---------------------------------------------------------------------------

  /** The fields writeExternal writes, in the order it writes them. */
  datatype ProcExternal = ProcExternal(
    identifier: string,
    externalIdent: Option<string>,
    typ: Option<Type>,
    blockLevel: int,
    hasLocalClasses: bool,
    parameters: seq<ParamRec>,
    labels: seq<Label>,
    declarations: seq<Decl>)

  function ProcWriteExternal(s: Scope): ProcExternal
  {
    ProcExternal(s.identifier, s.externalIdent, s.typ, s.blockLevel, s.hasLocalClasses,
                 s.parameters, s.labels, s.declarations)
  }

  /** readExternal fills a fresh procedure declaration (declared in
      `declaredIn`) with the fields in the same order; the kind is set to
      Procedure. */
  function ProcReadExternal(r: ProcExternal, declaredIn: Option<nat>): Scope
  {
    FreshScope(r.identifier, ProcedureDecl, ProcedureBlock, declaredIn, 0)
      .(externalIdent := r.externalIdent, typ := r.typ, blockLevel := r.blockLevel,
        hasLocalClasses := r.hasLocalClasses, parameters := r.parameters, labels := r.labels,
        declarations := r.declarations)
  }

  /** Every written field is read back. */
  lemma ProcExternalRoundTrip(s: Scope)
    ensures var t := ProcReadExternal(ProcWriteExternal(s), s.declaredIn);
      t.identifier == s.identifier && t.externalIdent == s.externalIdent && t.typ == s.typ &&
      t.blockLevel == s.blockLevel && t.hasLocalClasses == s.hasLocalClasses &&
      t.parameters == s.parameters && t.labels == s.labels && t.declarations == s.declarations &&
      t.declaredIn == s.declaredIn && t.blockKind == ProcedureBlock && t.cls == ProcedureDecl
  {
  }
}
