// BlockDeclaration.java: what blocks, classes and procedures share in this
// version of the compiler -- the virtual lookup along the prefix chain, the
// classification of a BEGIN ... END block once its body is parsed, the
// semantic check that numbers the labels and binds the labels and the block
// itself to virtuals, and the formal parameter list of the generated Java
// constructor or method.  The implicit root of this file's prefix chains is
// "CLASS".

module BlockDeclarations {
  import opened Util
  import opened Parameters
  import opened Scopes
  import opened Prefixes
  import opened DeclarationScopes
  import opened ClassDeclarations
  import opened LabelMoves

  // ---------------------------------------------------------------------------
  // findVirtual
  // ---------------------------------------------------------------------------

  /** No virtual of the scope's own list is named `ident` (ignoring case). */
  predicate NoVirtualNamed(s: Scope, ident: string)
  {
    forall k :: 0 <= k < |s.virtualList| ==> !EqualsIgnoreCase(ident, s.virtualList[k].identifier)
  }

  /** A position in the virtual list of some scope of the arena. */
  predicate VirtualRefIn(a: seq<Scope>, v: Option<VirtualRef>)
  {
    v.Some? ==> v.value.scope < |a| && v.value.index < |a[v.value.scope].virtualList|
  }

  /** findVirtual: the first virtual named `ident` in the scope's own virtual
      list, else the one its prefix class finds, else none. */
  function VirtualOf(a: seq<Scope>, c: nat, ident: string): (r: Option<VirtualRef>)
    requires Valid(a) && c < |a|
    ensures VirtualRefIn(a, r)
    ensures r.Some? ==> r.value.scope == c || r.value.scope in PrefixChain(a, c)
    ensures r.Some? ==> FirstNamed(VirtualNames(a[r.value.scope].virtualList), ident) == Some(r.value.index)
    decreases c
  {
    var k := FirstNamed(VirtualNames(a[c].virtualList), ident);
    if k.Some? then Some(VirtualRef(c, k.value))
    else if a[c].prefix.Some? then VirtualOf(a, a[c].prefix.value, ident)
    else None
  }

  /** The own-list loop of findVirtual, then the recursive call on the prefix. */
  method FindVirtual(a: seq<Scope>, c: nat, ident: string) returns (r: Option<VirtualRef>)
    requires Valid(a) && c < |a|
    ensures r == VirtualOf(a, c, ident)
    decreases c
  {
    var k := SearchNames(VirtualNames(a[c].virtualList), ident);
    if k.Some? {
      return Some(VirtualRef(c, k.value));
    }
    var prfx := a[c].prefix;
    if prfx.Some? {
      r := FindVirtual(a, prfx.value, ident);
    } else {
      r := None;
    }
  }

  lemma NoVirtualNamedIff(s: Scope, ident: string)
    ensures NoVirtualNamed(s, ident) <==> FirstNamed(VirtualNames(s.virtualList), ident).None?
  {
    var names := VirtualNames(s.virtualList);
    var f := FirstNamed(names, ident);
    if f.Some? {
      assert names[f.value] == s.virtualList[f.value].identifier;
    }
  }

  /** findVirtual finds nothing iff no scope on the prefix chain, the scope
      itself included, has a virtual of that name. */
  lemma {:induction false} VirtualOfNone(a: seq<Scope>, c: nat, ident: string)
    requires Valid(a) && c < |a|
    ensures VirtualOf(a, c, ident).None? <==> NoVirtualNamed(a[c], ident) && NoneAlong(a, PrefixChain(a, c), ident)
    decreases c
  {
    NoVirtualNamedIff(a[c], ident);
    if a[c].prefix.Some? {
      var p := a[c].prefix.value;
      var chain := PrefixChain(a, c);
      var rest := PrefixChain(a, p);
      assert chain == [p] + rest;
      VirtualOfNone(a, p, ident);
      NoneAlongCons(a, p, rest, ident);
      if NoVirtualNamed(a[c], ident) {
        assert VirtualOf(a, c, ident) == VirtualOf(a, p, ident);
      }
    }
  }

  /** No scope of `cs` has a virtual named `ident`. */
  predicate NoneAlong(a: seq<Scope>, cs: seq<nat>, ident: string)
    requires forall k :: 0 <= k < |cs| ==> cs[k] < |a|
  {
    forall k :: 0 <= k < |cs| ==> NoVirtualNamed(a[cs[k]], ident)
  }

  lemma NoneAlongCons(a: seq<Scope>, p: nat, rest: seq<nat>, ident: string)
    requires p < |a| && forall k :: 0 <= k < |rest| ==> rest[k] < |a|
    ensures forall k :: 0 <= k < |[p] + rest| ==> ([p] + rest)[k] < |a|
    ensures NoneAlong(a, [p] + rest, ident) <==> NoVirtualNamed(a[p], ident) && NoneAlong(a, rest, ident)
  {
    var cs := [p] + rest;
    assert cs[0] == p;
    assert forall k :: 0 <= k < |rest| ==> rest[k] == cs[k + 1];
  }

  /** The virtual found is in the first scope along the prefix chain that has
      one of that name: every scope of the chain before it (the scope itself
      and its prefixes with a larger index) has none. */
  lemma {:induction false} VirtualOfIsFirst(a: seq<Scope>, c: nat, ident: string)
    requires Valid(a) && c < |a|
    requires VirtualOf(a, c, ident).Some?
    ensures var s := VirtualOf(a, c, ident).value.scope;
      (s != c ==> NoVirtualNamed(a[c], ident)) &&
      forall k :: 0 <= k < |PrefixChain(a, c)| && PrefixChain(a, c)[k] > s ==>
        NoVirtualNamed(a[PrefixChain(a, c)[k]], ident)
    decreases c
  {
    NoVirtualNamedIff(a[c], ident);
    var s := VirtualOf(a, c, ident).value.scope;
    if a[c].prefix.Some? && s != c {
      var p := a[c].prefix.value;
      var chain := PrefixChain(a, c);
      var rest := PrefixChain(a, p);
      assert chain == [p] + rest;
      assert VirtualOf(a, c, ident) == VirtualOf(a, p, ident);
      VirtualOfIsFirst(a, p, ident);
      NoVirtualNamedIff(a[p], ident);
      forall k | 0 <= k < |chain| && chain[k] > s
        ensures NoVirtualNamed(a[chain[k]], ident)
      {
        if k > 0 {
          assert chain[k] == rest[k - 1];
        }
      }
    }
  }

  // ---------------------------------------------------------------------------
  // Virtual binding (setMatch / setLabelMatch / virtualList.add)
  // ---------------------------------------------------------------------------

  /** Binding a declaration named `ident` to the virtual `v` that findVirtual
      yielded for it: a virtual declared in `target` gets the declaration as its
      match; a virtual declared elsewhere (in a prefix) is overridden by a new
      virtual with that match, appended to the virtual list of `target`.  The
      second component is the virtual the declaration now matches. */
  function BindVirtual(b: seq<Scope>, target: nat, ident: string, m: Matched, v: Option<VirtualRef>): (r: (seq<Scope>, Option<VirtualRef>))
    requires Valid(b) && target < |b| && VirtualRefIn(b, v)
    ensures |r.0| == |b| && Valid(r.0) && VirtualRefIn(r.0, r.1)
    ensures forall x :: 0 <= x < |b| ==> r.0[x] == b[x].(virtualList := r.0[x].virtualList)
  {
    if v.None? then (b, None)
    else
      var vs := b[v.value.scope].virtualList;
      if vs[v.value.index].declaredIn == target then
        var s := b[v.value.scope].(virtualList := vs[v.value.index := vs[v.value.index].(matched := m)]);
        ValidAt(b, v.value.scope);
        UpdatePreservesValid(b, v.value.scope, s);
        (b[v.value.scope := s], v)
      else
        var ts := b[target].virtualList;
        var s := b[target].(virtualList := ts + [Virtual(ident, target, m)]);
        ValidAt(b, target);
        UpdatePreservesValid(b, target, s);
        (b[target := s], Some(VirtualRef(target, |ts|)))
  }

  /** The virtual lists of `r` are those of `b` after binding a declaration
      named `ident`, declared in `target`, to the virtual `v`: nothing changes
      when there is no virtual; a virtual of `target`'s own list gets the match
      `m` in place; otherwise `target`'s list gets a new virtual of that name
      with that match at its end.  No other virtual list changes. */
  ghost predicate VirtualBound(b: seq<Scope>, r: seq<Scope>, target: nat, ident: string, m: Matched, v: Option<VirtualRef>)
    requires Valid(b) && target < |b| && VirtualRefIn(b, v) && |r| == |b|
  {
    if v.None? then
      forall x :: 0 <= x < |b| ==> r[x].virtualList == b[x].virtualList
    else if v.value.scope == target then
      var vs := b[target].virtualList;
      r[target].virtualList == vs[v.value.index := vs[v.value.index].(matched := m)] &&
      forall x :: 0 <= x < |b| && x != target ==> r[x].virtualList == b[x].virtualList
    else
      r[target].virtualList == b[target].virtualList + [Virtual(ident, target, m)] &&
      forall x :: 0 <= x < |b| && x != target ==> r[x].virtualList == b[x].virtualList
  }

  /** What binding does to the virtual lists. */
  lemma BindVirtualBound(b: seq<Scope>, target: nat, ident: string, m: Matched, v: Option<VirtualRef>)
    requires Valid(b) && target < |b| && VirtualRefIn(b, v)
    ensures VirtualBound(b, BindVirtual(b, target, ident, m, v).0, target, ident, m, v)
  {
    if v.Some? {
      ValidAt(b, v.value.scope);
    }
  }

  lemma VirtualNamesSnoc(vs: seq<Virtual>, x: Virtual)
    ensures VirtualNames(vs + [x]) == VirtualNames(vs) + [x.identifier]
  {
    assert VirtualNames(vs + [x]) == VirtualNames(vs) + [x.identifier] by {
      var l := VirtualNames(vs + [x]);
      var r := VirtualNames(vs) + [x.identifier];
      assert |l| == |r|;
      forall k | 0 <= k < |l| ensures l[k] == r[k] {
        if k < |vs| {
          assert (vs + [x])[k] == vs[k];
        }
      }
    }
  }

  /** A declaration in the scope the search starts from overrides what it
      finds: afterwards findVirtual from that scope yields the virtual the
      declaration matches, and that virtual has the declaration as its match. */
  lemma BindVirtualOverrides(b: seq<Scope>, s: nat, ident: string, m: Matched)
    requires Valid(b) && s < |b| && VirtualOf(b, s, ident).Some?
    ensures var r := BindVirtual(b, s, ident, m, VirtualOf(b, s, ident));
      r.1.Some? && VirtualOf(r.0, s, ident) == r.1 &&
      r.0[r.1.value.scope].virtualList[r.1.value.index].matched == m &&
      EqualsIgnoreCase(ident, r.0[r.1.value.scope].virtualList[r.1.value.index].identifier)
  {
    var v := VirtualOf(b, s, ident).value;
    var r := BindVirtual(b, s, ident, m, Some(v));
    var vs := b[v.scope].virtualList;
    ValidAt(b, v.scope);
    if vs[v.index].declaredIn == s {
      assert v.scope == s;
      var ws := r.0[s].virtualList;
      assert ws == vs[v.index := vs[v.index].(matched := m)];
      assert VirtualNames(ws) == VirtualNames(vs) by {
        var l := VirtualNames(ws);
        var q := VirtualNames(vs);
        assert |l| == |q|;
        forall k | 0 <= k < |l| ensures l[k] == q[k] {
          assert ws[k].identifier == vs[k].identifier;
        }
      }
      assert FirstNamed(VirtualNames(vs), ident) == Some(v.index);
      assert VirtualNames(ws)[v.index] == ws[v.index].identifier;
    } else {
      assert v.scope != s;
      var ts := b[s].virtualList;
      assert FirstNamed(VirtualNames(ts), ident).None?;
      VirtualNamesSnoc(ts, Virtual(ident, s, m));
      FirstNamedAppend(VirtualNames(ts), [ident], ident);
      EqualsIgnoreCaseReflexive(ident);
      assert FirstNamed([ident], ident) == Some(0);
      assert r.0[s].virtualList == ts + [Virtual(ident, s, m)];
    }
  }

  // ---------------------------------------------------------------------------
  // parseMaybeBlock: what happens once the body is parsed
  // ---------------------------------------------------------------------------

  /** The block as classified after its body: a block prefix is recorded; a
      program keeps its kind; otherwise a prefixed block is named after the
      source and line and uses that name as its external identifier, a block
      with declarations becomes a sub-block and any other a compound
      statement, each named after its kind and line. */
  function Classified(s: Scope, blockPrefix: Option<string>, sourceName: string, line: int): (r: Scope)
    ensures r == s.(blockKind := r.blockKind, identifier := r.identifier, externalIdent := r.externalIdent,
                    prefixName := r.prefixName)
    ensures r.prefixName == if blockPrefix.Some? then blockPrefix else s.prefixName
    ensures s.blockKind == SimulaProgram ==> r.blockKind == SimulaProgram && r.identifier == s.identifier
    ensures s.blockKind != SimulaProgram ==>
      (r.blockKind == PrefixedBlock <==> blockPrefix.Some?) &&
      (r.blockKind == SubBlock <==> blockPrefix.None? && |s.declarations| > 0) &&
      (r.blockKind == CompoundStatement <==> blockPrefix.None? && |s.declarations| == 0)
    ensures r.blockKind == PrefixedBlock && s.blockKind != SimulaProgram ==>
      r.identifier == sourceName + "$PBLK" + IntToString(line) && r.externalIdent == Some(r.identifier)
  {
    var s1 := if blockPrefix.Some? then s.(prefixName := blockPrefix) else s;
    if s.blockKind == SimulaProgram then s1
    else if blockPrefix.Some? then
      var id := sourceName + "$PBLK" + IntToString(line);
      s1.(blockKind := PrefixedBlock, identifier := id, externalIdent := Some(id))
    else if |s.declarations| > 0 then s1.(blockKind := SubBlock, identifier := "SubBlock" + IntToString(line))
    else s1.(blockKind := CompoundStatement, identifier := "CompoundStatement" + IntToString(line))
  }

  /** The enclosing scopes the label walk of parseMaybeBlock passes over. */
  predicate NoDeclarations(s: Scope)
  {
    |s.declarations| == 0
  }

  /** The arena after parseMaybeBlock of block `c` (its declarations and
      statements already parsed into it), and whether it ended normally: a
      compound statement with labels moves them to the nearest enclosing
      scope with declarations; when there is none the walk dereferences null,
      which is reported as `false`, with the block already classified. */
  function MaybeBlockEnd(a: seq<Scope>, c: nat, blockPrefix: Option<string>, sourceName: string, line: int): (r: (seq<Scope>, bool))
    requires Valid(a) && c < |a|
    ensures |r.0| == |a| && Valid(r.0)
  {
    var k := Classified(a[c], blockPrefix, sourceName, line);
    ValidAt(a, c);
    UpdatePreservesValid(a, c, k);
    var b := a[c := k];
    if a[c].blockKind != SimulaProgram && k.blockKind == CompoundStatement && |a[c].labels| > 0 then
      var e := SkipOutward(b, a[c].declaredIn, NoDeclarations);
      if e.None? then (b, false)
      else
        EnclosingChainBelow(b, a[c].declaredIn);
        (MovedLabels(b, c, e.value), true)
    else (b, true)
  }

  /** Whether parseMaybeBlock moves the block's labels: only out of a
      compound statement that has labels. */
  predicate MovesLabels(s: Scope, blockPrefix: Option<string>)
  {
    s.blockKind != SimulaProgram && blockPrefix.None? && |s.declarations| == 0 && |s.labels| > 0
  }

  /** A block that is not a compound statement with labels keeps its labels,
      and so does every other scope. */
  lemma MaybeBlockEndKeepsLabelsInPlace(a: seq<Scope>, c: nat, blockPrefix: Option<string>, sourceName: string, line: int)
    requires Valid(a) && c < |a| && !MovesLabels(a[c], blockPrefix)
    ensures var r := MaybeBlockEnd(a, c, blockPrefix, sourceName, line);
      r.1 && forall x :: 0 <= x < |a| ==> r.0[x].labels == a[x].labels
  {
  }

  /** A compound statement with labels moves them to the nearest enclosing
      scope with declarations (appended in order, the block's list emptied);
      the walk fails exactly when no enclosing scope has declarations. */
  lemma MaybeBlockEndMovesLabels(a: seq<Scope>, c: nat, blockPrefix: Option<string>, sourceName: string, line: int)
    requires Valid(a) && c < |a| && MovesLabels(a[c], blockPrefix)
    ensures var r := MaybeBlockEnd(a, c, blockPrefix, sourceName, line);
      var e := SkipOutward(a, a[c].declaredIn, NoDeclarations);
      (r.1 <==> e.Some?) &&
      (e.Some? ==>
         e.value != c && r.0[e.value].labels == a[e.value].labels + a[c].labels && r.0[c].labels == [] &&
         forall x :: 0 <= x < |a| && x != c && x != e.value ==> r.0[x].labels == a[x].labels)
  {
    var k := Classified(a[c], blockPrefix, sourceName, line);
    var b := a[c := k];
    ValidAt(a, c);
    UpdatePreservesValid(a, c, k);
    SameWalk(a, b, c, a[c].declaredIn);
    var e := SkipOutward(a, a[c].declaredIn, NoDeclarations);
    assert k.blockKind == CompoundStatement && k.labels == a[c].labels;
    if e.Some? {
      EnclosingChainBelow(a, a[c].declaredIn);
      var m := MovedLabels(b, c, e.value);
      assert MaybeBlockEnd(a, c, blockPrefix, sourceName, line) == (m, true);
      MovedLabelsEffect(b, c, e.value);
      forall x | 0 <= x < |a| && x != c && x != e.value ensures m[x].labels == a[x].labels {
        assert b[x] == a[x];
      }
    } else {
      assert MaybeBlockEnd(a, c, blockPrefix, sourceName, line) == (b, false);
    }
  }

  /** The walk does not look at the block itself, so classifying the block
      does not change where it ends. */
  lemma {:induction false} SameWalk(a: seq<Scope>, b: seq<Scope>, c: nat, s: Option<nat>)
    requires Valid(a) && Valid(b) && |a| == |b| && c < |a| && Before(s, c)
    requires forall x :: 0 <= x < c ==> b[x] == a[x]
    ensures SkipOutward(b, s, NoDeclarations) == SkipOutward(a, s, NoDeclarations)
    decreases if s.Some? then s.value + 1 else 0
  {
    if s.Some? {
      ValidAt(a, s.value);
      SameWalk(a, b, c, a[s.value].declaredIn);
    }
  }

  /** parseMaybeBlock never loses or duplicates a label. */
  lemma MaybeBlockEndKeepsLabels(a: seq<Scope>, c: nat, blockPrefix: Option<string>, sourceName: string, line: int)
    requires Valid(a) && c < |a|
    ensures LabelBag(MaybeBlockEnd(a, c, blockPrefix, sourceName, line).0) == LabelBag(a)
  {
    var k := Classified(a[c], blockPrefix, sourceName, line);
    var b := a[c := k];
    LabelBagUpdate(a, c, k);
    Cancel(LabelBag(b), LabelBag(a), multiset(a[c].labels));
    ValidAt(a, c);
    UpdatePreservesValid(a, c, k);
    if a[c].blockKind != SimulaProgram && k.blockKind == CompoundStatement && |a[c].labels| > 0 {
      var e := SkipOutward(b, a[c].declaredIn, NoDeclarations);
      if e.Some? {
        EnclosingChainBelow(b, a[c].declaredIn);
        MovedLabelsKeepsAll(b, c, e.value);
      }
    }
  }

  /** The end of parseMaybeBlock: classification, the label walk and move,
      and the current scope set back to the enclosing scope.  `ok` is false
      where the source throws a NullPointerException. */
  method ParseMaybeBlockEnd(st: Compilation, c: nat, blockPrefix: Option<string>, sourceName: string, line: int)
    returns (ok: bool)
    requires st.Valid() && c < |st.scopes|
    modifies st
    ensures (st.scopes, ok) == MaybeBlockEnd(old(st.scopes), c, blockPrefix, sourceName, line)
    ensures st.currentScope == if ok then old(st.scopes[c].declaredIn) else old(st.currentScope)
    ensures st.currentBlockLevel == old(st.currentBlockLevel) && st.currentRTBlockLevel == old(st.currentRTBlockLevel)
    ensures st.Valid()
  {
    var a := st.scopes;
    var r, ok1 := CloseBlock(a, c, blockPrefix, sourceName, line);
    ok := ok1;
    st.scopes := r;
    if ok {
      ValidAt(a, c);
      st.currentScope := a[c].declaredIn;
    }
  }

  /** The changes parseMaybeBlock makes to the scopes. */
  method CloseBlock(a: seq<Scope>, c: nat, blockPrefix: Option<string>, sourceName: string, line: int)
    returns (r: seq<Scope>, ok: bool)
    requires Valid(a) && c < |a|
    ensures (r, ok) == MaybeBlockEnd(a, c, blockPrefix, sourceName, line)
  {
    var s := a[c];
    if blockPrefix.Some? {
      s := s.(prefixName := blockPrefix);
    }
    var compound := false;
    if s.blockKind != SimulaProgram {
      if blockPrefix.Some? {
        var id := sourceName + "$PBLK" + IntToString(line);
        s := s.(blockKind := PrefixedBlock, identifier := id, externalIdent := Some(id));
      } else if |s.declarations| > 0 {
        s := s.(blockKind := SubBlock, identifier := "SubBlock" + IntToString(line));
      } else {
        s := s.(blockKind := CompoundStatement, identifier := "CompoundStatement" + IntToString(line));
        compound := true;
      }
    }
    assert s == Classified(a[c], blockPrefix, sourceName, line);
    ValidAt(a, c);
    UpdatePreservesValid(a, c, s);
    r := a[c := s];
    ok := true;
    if compound && |s.labels| > 0 {
      var e := WalkOutward(r, s.declaredIn, NoDeclarations);
      if e.None? {
        return r, false;
      }
      EnclosingChainBelow(r, s.declaredIn);
      r := MoveLabels(r, c, e.value);
    }
  }

  // ---------------------------------------------------------------------------
  // doChecking
  // ---------------------------------------------------------------------------

  /** currentBlockLevel while a block is checked: one deeper, except for a
      compound statement. */
  function EnteredLevel(kind: BlockKind, level: int): int
  {
    if kind != CompoundStatement then level + 1 else level
  }

  /** setExternalIdentifier(prfx) applied to every parameter. */
  function WithExternalIdentifiers(ps: seq<ParamRec>, prfx: int): (r: seq<ParamRec>)
  {
    seq(|ps|, k requires 0 <= k < |ps| => ps[k].(externalIdent := Some(ExternalIdentifier(ps[k].identifier, prfx))))
  }

  /** The loop `for(Parameter par:parameterList) par.setExternalIdentifier(prfx)`. */
  method SetExternalIdentifiers(ps: seq<ParamRec>, prfx: int) returns (qs: seq<ParamRec>)
    ensures |qs| == |ps|
    ensures forall k :: 0 <= k < |ps| ==>
      qs[k] == ps[k].(externalIdent := Some(ExternalIdentifier(ps[k].identifier, prfx)))
  {
    qs := [];
    for i := 0 to |ps|
      invariant |qs| == i
      invariant forall k :: 0 <= k < i ==>
        qs[k] == ps[k].(externalIdent := Some(ExternalIdentifier(ps[k].identifier, prfx)))
    {
      var p := ps[i];
      var ext: string;
      if prfx > 0 {
        ext := "p" + IntToString(prfx) + "$" + p.identifier;
      } else {
        ext := "p$" + p.identifier;
      }
      qs := qs + [p.(externalIdent := Some(ext))];
    }
  }

  /** A scope with its label and virtual lists emptied. */
  function Stripped(s: Scope): Scope
  {
    s.(labels := [], virtualList := [])
  }

  /** Label `after` is label `before` numbered at position j: index j + 1 and
      prefix level `prfx`, its name and declaring scope unchanged. */
  predicate Numbered(before: Label, after: Label, j: nat, prfx: int)
  {
    after == before.(index := j + 1, prefixLevel := prfx, myVirtual := after.myVirtual)
  }

  /** The external identifier doChecking gives a block: its own identifier for
      a method block, otherwise the one it has, or else edJavaClassName. */
  function BlockExternalIdent(a: seq<Scope>, c: nat): (r: Option<string>)
    requires Valid(a) && c < |a|
    ensures a[c].blockKind == MethodBlock ==> r == Some(a[c].identifier)
    ensures a[c].blockKind != MethodBlock && a[c].externalIdent.Some? ==> r == a[c].externalIdent
    ensures a[c].blockKind != MethodBlock && a[c].externalIdent.None? ==> r == JavaClassName(a, c)
  {
    if a[c].blockKind == MethodBlock then Some(a[c].identifier)
    else if a[c].externalIdent.None? then JavaClassName(a, c)
    else a[c].externalIdent
  }

  /** What doChecking of block `c`, entered with currentBlockLevel `level`,
      does to the arena `a`, giving `r` (the checking of its parameters,
      declarations and statements, which belongs to other declaration kinds,
      aside): the block gets its external identifier, its block level and
      its parameters' external identifiers; its labels are numbered 1..n in
      list order with the block's prefix level; it is bound to the virtual of
      its name seen from its enclosing scope, which gets the block as its
      match; it is marked checked.  Otherwise only virtual lists change. */
  ghost predicate CheckedFrom(a: seq<Scope>, r: seq<Scope>, c: nat, level: int)
    requires Valid(a) && c < |a| && a[c].declaredIn.Some?
  {
    var prfx := PrefixLevel(a, c, ClassRoot);
    |r| == |a| && Valid(r) &&
    Stripped(r[c]) == Stripped(a[c]).(externalIdent := BlockExternalIdent(a, c),
                                        blockLevel := EnteredLevel(a[c].blockKind, level),
                                        parameters := WithExternalIdentifiers(a[c].parameters, prfx),
                                        myVirtual := r[c].myVirtual, checked := true) &&
    |r[c].labels| == |a[c].labels| &&
    (forall j :: 0 <= j < |a[c].labels| ==> Numbered(a[c].labels[j], r[c].labels[j], j, prfx)) &&
    r[c].myVirtual == VirtualOf(r, a[c].declaredIn.value, a[c].identifier) &&
    (r[c].myVirtual.Some? ==>
       r[r[c].myVirtual.value.scope].virtualList[r[c].myVirtual.value.index].matched == BlockMatch(c)) &&
    (forall x :: 0 <= x < |a| && x != c ==> Stripped(r[x]) == Stripped(a[x]) && r[x].labels == a[x].labels) &&
    exists hist :: CheckedThrough(a, r, c, level, hist)
  }

  /** The block as entered: its external identifier, block level and the
      parameters' external identifiers set. */
  function Entered(a: seq<Scope>, c: nat, level: int): Scope
    requires Valid(a) && c < |a|
  {
    a[c].(externalIdent := BlockExternalIdent(a, c),
          blockLevel := EnteredLevel(a[c].blockKind, level),
          parameters := WithExternalIdentifiers(a[c].parameters, PrefixLevel(a, c, ClassRoot)))
  }

  /** How the virtual lists of `r` come about: `hist` are the arenas the label
      loop goes through, from the block as entered; each label's virtual is
      the one found for it in the arena of its iteration; then the block is
      bound to the virtual of its name seen from its enclosing scope. */
  ghost predicate CheckedThrough(a: seq<Scope>, r: seq<Scope>, c: nat, level: int, hist: seq<seq<Scope>>)
    requires Valid(a) && c < |a| && a[c].declaredIn.Some?
  {
    var n := |a[c].labels|;
    var d := a[c].declaredIn.value;
    ValidAt(a, c);
    |hist| == n + 1 && hist[0] == a[c := Entered(a, c, level)] &&
    Valid(hist[n]) && |hist[n]| == |a| && |r| == |a| && |r[c].labels| == n &&
    (forall j :: 0 <= j < n ==>
       LabelStepped(hist[j], hist[j + 1], c, PrefixLevel(a, c, ClassRoot), j) &&
       Valid(hist[j]) && c < |hist[j]| &&
       r[c].labels[j].myVirtual == VirtualOf(hist[j], c, a[c].labels[j].identifier)) &&
    VirtualBound(hist[n], r, d, a[c].identifier, BlockMatch(c), VirtualOf(hist[n], d, a[c].identifier))
  }

  /** findVirtual depends only on the virtual lists and the prefixes. */
  lemma {:induction false} VirtualOfFrame(a: seq<Scope>, b: seq<Scope>, c: nat, ident: string)
    requires Valid(a) && Valid(b) && |a| == |b| && c < |a|
    requires forall x :: 0 <= x < |a| ==> a[x].virtualList == b[x].virtualList && a[x].prefix == b[x].prefix
    ensures VirtualOf(a, c, ident) == VirtualOf(b, c, ident)
    decreases c
  {
    ValidAt(a, c);
    if a[c].prefix.Some? {
      VirtualOfFrame(a, b, a[c].prefix.value, ident);
    }
  }

  /** doChecking: does nothing for a block already checked; otherwise sets the
      external identifier, enters the block (one level deeper unless it is a
      compound statement), numbers and binds the labels, binds the block to a
      virtual of its enclosing scope, and leaves the block with the current
      scope and block level restored. */
  method BlockDoChecking(st: Compilation, c: nat)
    requires st.Valid() && c < |st.scopes| && st.scopes[c].declaredIn.Some?
    modifies st
    ensures old(st.scopes[c].checked) ==> st.scopes == old(st.scopes) && st.currentScope == old(st.currentScope)
    ensures !old(st.scopes[c].checked) ==>
      CheckedFrom(old(st.scopes), st.scopes, c, old(st.currentBlockLevel)) &&
      st.currentScope == old(st.scopes[c].declaredIn)
    ensures st.currentBlockLevel == old(st.currentBlockLevel)
    ensures st.currentRTBlockLevel == old(st.currentRTBlockLevel)
    ensures st.Valid()
  {
    var a := st.scopes;
    var level := st.currentBlockLevel;
    if a[c].checked {
      return;
    }
    st.currentBlockLevel := EnteredLevel(a[c].blockKind, level);
    st.currentScope := Some(c);
    var b := CheckScopes(a, c, level);
    st.scopes := b;
    st.currentScope := a[c].declaredIn;
    st.currentBlockLevel := level;
  }

  /** The changes doChecking makes to the scopes, for a block not yet checked. */
  method CheckScopes(a: seq<Scope>, c: nat, level: int) returns (r: seq<Scope>)
    requires Valid(a) && c < |a| && a[c].declaredIn.Some? && !a[c].checked
    ensures |r| == |a| && Valid(r)
    ensures CheckedFrom(a, r, c, level)
  {
    var b, hist := EnterAndNumber(a, c, level);
    ValidAt(a, c);
    r := BindBlock(b, c, a[c].declaredIn.value, a[c].identifier);
    assert CheckedThrough(a, r, c, level, hist);
  }

  /** Entering the block and the label loop. */
  method EnterAndNumber(a: seq<Scope>, c: nat, level: int) returns (b: seq<Scope>, ghost hist: seq<seq<Scope>>)
    requires Valid(a) && c < |a|
    ensures |b| == |a| && Valid(b)
    ensures Stripped(b[c]) == Stripped(a[c]).(externalIdent := BlockExternalIdent(a, c),
                                               blockLevel := EnteredLevel(a[c].blockKind, level),
                                               parameters := WithExternalIdentifiers(a[c].parameters, PrefixLevel(a, c, ClassRoot)))
    ensures |b[c].labels| == |a[c].labels|
    ensures forall j :: 0 <= j < |a[c].labels| ==> Numbered(a[c].labels[j], b[c].labels[j], j, PrefixLevel(a, c, ClassRoot))
    ensures forall x :: 0 <= x < |a| && x != c ==> Stripped(b[x]) == Stripped(a[x]) && b[x].labels == a[x].labels
    ensures |hist| == |a[c].labels| + 1 && hist[0] == a[c := Entered(a, c, level)] && hist[|a[c].labels|] == b
    ensures forall j :: 0 <= j < |a[c].labels| ==>
      LabelStepped(hist[j], hist[j + 1], c, PrefixLevel(a, c, ClassRoot), j) &&
      Valid(hist[j]) && c < |hist[j]| &&
      b[c].labels[j].myVirtual == VirtualOf(hist[j], c, a[c].labels[j].identifier)
  {
    var entered := EnterBlock(a, c, level);
    ValidAt(a, c);
    UpdatePreservesValid(a, c, entered);
    b, hist := BindLabels(a[c := entered], c, PrefixLevel(a, c, ClassRoot));
  }

  /** The block's own virtual binding, in the enclosing scope `d`, and the
      checked mark. */
  method BindBlock(b: seq<Scope>, c: nat, d: nat, ident: string) returns (r: seq<Scope>)
    requires Valid(b) && c < |b| && d < |b| && d != c
    ensures |r| == |b| && Valid(r)
    ensures Stripped(r[c]) == Stripped(b[c]).(myVirtual := r[c].myVirtual, checked := true)
    ensures r[c].labels == b[c].labels
    ensures r[c].myVirtual == VirtualOf(r, d, ident)
    ensures r[c].myVirtual.Some? ==>
      r[r[c].myVirtual.value.scope].virtualList[r[c].myVirtual.value.index].matched == BlockMatch(c)
    ensures forall x :: 0 <= x < |b| && x != c ==> Stripped(r[x]) == Stripped(b[x]) && r[x].labels == b[x].labels
    ensures VirtualBound(b, r, d, ident, BlockMatch(c), VirtualOf(b, d, ident))
  {
    var v := FindVirtual(b, d, ident);
    var bound := BindVirtual(b, d, ident, BlockMatch(c), v);
    BindVirtualBound(b, d, ident, BlockMatch(c), v);
    var b2 := bound.0;
    r := WithBlockVirtual(b2, c, bound.1);
    forall x | 0 <= x < |b|
      ensures Stripped(b2[x]) == Stripped(b[x]) && b2[x].labels == b[x].labels
    {
      StrippedIgnoresVirtuals(b[x], b2[x].virtualList);
    }
    BindBlockVirtual(b, c, d, ident, v, r);
    VirtualBoundFrame(b, b2, r, d, ident, BlockMatch(c), v);
  }

  /** The arena with scope `c` bound to the virtual `v` and marked checked. */
  function WithBlockVirtual(b: seq<Scope>, c: nat, v: Option<VirtualRef>): (r: seq<Scope>)
    requires Valid(b) && c < |b|
    ensures |r| == |b| && Valid(r) && r[c] == b[c].(myVirtual := v, checked := true)
    ensures forall x :: 0 <= x < |b| ==> r[x].virtualList == b[x].virtualList && r[x].prefix == b[x].prefix
    ensures forall x :: 0 <= x < |b| && x != c ==> r[x] == b[x]
  {
    var t := b[c].(myVirtual := v, checked := true);
    ValidAt(b, c);
    UpdatePreservesValid(b, c, t);
    b[c := t]
  }

  lemma StrippedIgnoresVirtuals(s: Scope, vs: seq<Virtual>)
    ensures Stripped(s.(virtualList := vs)) == Stripped(s)
    ensures s.(virtualList := vs).labels == s.labels
  {
  }

  /** The block's binding to a virtual survives the final update of the block. */
  lemma BindBlockVirtual(b: seq<Scope>, c: nat, d: nat, ident: string, v: Option<VirtualRef>, r: seq<Scope>)
    requires Valid(b) && c < |b| && d < |b| && c != d && v == VirtualOf(b, d, ident)
    requires var bound := BindVirtual(b, d, ident, BlockMatch(c), v);
      r == WithBlockVirtual(bound.0, c, bound.1)
    ensures var bound := BindVirtual(b, d, ident, BlockMatch(c), v);
      r[c].myVirtual == bound.1 && bound.1 == VirtualOf(r, d, ident) &&
      (bound.1.Some? ==> r[bound.1.value.scope].virtualList[bound.1.value.index].matched == BlockMatch(c))
  {
    var bound := BindVirtual(b, d, ident, BlockMatch(c), v);
    var b2 := bound.0;
    VirtualOfFrame(b2, r, d, ident);
    if v.Some? {
      BindVirtualOverrides(b, d, ident, BlockMatch(c));
      var w := bound.1.value;
      assert r[w.scope].virtualList == b2[w.scope].virtualList;
    }
  }

  /** The first part of doChecking: the external identifier, the block level
      and the parameters' external identifiers. */
  method EnterBlock(a: seq<Scope>, c: nat, level: int) returns (entered: Scope)
    requires Valid(a) && c < |a|
    ensures entered == a[c].(externalIdent := BlockExternalIdent(a, c),
                             blockLevel := EnteredLevel(a[c].blockKind, level),
                             parameters := WithExternalIdentifiers(a[c].parameters, PrefixLevel(a, c, ClassRoot)))
  {
    var s := a[c];
    var ext := s.externalIdent;
    if s.blockKind == MethodBlock {
      ext := Some(s.identifier);
    } else if ext.None? {
      ext := EdJavaClassName(a, c);
    }
    var blockLevel := level;
    if s.blockKind != CompoundStatement {
      blockLevel := level + 1;
    }
    var prfx := PrefixLevel(a, c, ClassRoot);
    var qs := SetExternalIdentifiers(s.parameters, prfx);
    assert qs == WithExternalIdentifiers(s.parameters, prfx);
    entered := s.(externalIdent := ext, blockLevel := blockLevel, parameters := qs);
  }

  /** VirtualBound looks only at the virtual lists of its result. */
  lemma VirtualBoundFrame(b: seq<Scope>, r1: seq<Scope>, r2: seq<Scope>, target: nat, ident: string, m: Matched, v: Option<VirtualRef>)
    requires Valid(b) && target < |b| && VirtualRefIn(b, v) && |r1| == |b| == |r2|
    requires forall x :: 0 <= x < |b| ==> r1[x].virtualList == r2[x].virtualList
    requires VirtualBound(b, r1, target, ident, m, v)
    ensures VirtualBound(b, r2, target, ident, m, v)
  {
  }

  /** `r` is `b` after iteration i of the label loop of block `c`: label i
      gets index i + 1, the prefix level `prfx` and the virtual findVirtual
      yields for its name from the block, that virtual is bound to the label
      in the scope the label was declared in (the new virtual that binding may
      create is not the label's), and nothing else changes. */
  ghost predicate LabelStepped(b: seq<Scope>, r: seq<Scope>, c: nat, prfx: int, i: nat)
  {
    Valid(b) && c < |b| && i < |b[c].labels| && |r| == |b| && Valid(r) &&
    var lab := b[c].labels[i];
    var v := VirtualOf(b, c, lab.identifier);
    r[c].labels == b[c].labels[i := lab.(index := i + 1, prefixLevel := prfx, myVirtual := v)] &&
    (ValidAt(b, c); VirtualBound(b, r, lab.declaredIn, lab.identifier, LabelMatch(c, i), v)) &&
    (forall x :: 0 <= x < |b| ==> Stripped(r[x]) == Stripped(b[x])) &&
    forall x :: 0 <= x < |b| && x != c ==> r[x].labels == b[x].labels
  }

  /** The label loop of doChecking: labels numbered 1..n in list order with
      the prefix level `prfx`, each with the virtual found for it when its turn
      came (in the arena `hist` records for that iteration); only label and
      virtual lists change. */
  method BindLabels(b0: seq<Scope>, c: nat, prfx: int) returns (b: seq<Scope>, ghost hist: seq<seq<Scope>>)
    requires Valid(b0) && c < |b0|
    ensures |b| == |b0| && Valid(b) && |b[c].labels| == |b0[c].labels|
    ensures |hist| == |b0[c].labels| + 1 && hist[0] == b0 && hist[|b0[c].labels|] == b
    ensures forall j :: 0 <= j < |b0[c].labels| ==> Numbered(b0[c].labels[j], b[c].labels[j], j, prfx)
    ensures forall j :: 0 <= j < |b0[c].labels| ==>
      LabelStepped(hist[j], hist[j + 1], c, prfx, j) && Valid(hist[j]) && c < |hist[j]| &&
      b[c].labels[j].myVirtual == VirtualOf(hist[j], c, b0[c].labels[j].identifier)
    ensures forall x :: 0 <= x < |b0| ==> Stripped(b[x]) == Stripped(b0[x])
    ensures forall x :: 0 <= x < |b0| && x != c ==> b[x].labels == b0[x].labels
  {
    b := b0;
    hist := [b0];
    var n := |b0[c].labels|;
    for i := 0 to n
      invariant LabelLoop(b0, c, prfx, i, hist, b)
    {
      var r := LabelStep(b, c, prfx, i);
      LabelLoopStep(b0, c, prfx, i, hist, b, r);
      hist := hist + [r];
      b := r;
    }
  }

  /** The invariant of the label loop after i iterations. */
  ghost predicate LabelLoop(b0: seq<Scope>, c: nat, prfx: int, i: nat, hist: seq<seq<Scope>>, b: seq<Scope>)
  {
    Valid(b0) && c < |b0| && i <= |b0[c].labels| &&
    |hist| == i + 1 && hist[0] == b0 && hist[i] == b &&
    |b| == |b0| && Valid(b) && |b[c].labels| == |b0[c].labels| &&
    (forall j :: 0 <= j < i ==> LabelStepped(hist[j], hist[j + 1], c, prfx, j) && Valid(hist[j]) && c < |hist[j]|) &&
    (forall j :: 0 <= j < i ==> Numbered(b0[c].labels[j], b[c].labels[j], j, prfx)) &&
    (forall j :: 0 <= j < i ==> b[c].labels[j].myVirtual == VirtualOf(hist[j], c, b0[c].labels[j].identifier)) &&
    (forall j :: i <= j < |b0[c].labels| ==> b[c].labels[j] == b0[c].labels[j]) &&
    (forall x :: 0 <= x < |b0| ==> Stripped(b[x]) == Stripped(b0[x])) &&
    (forall x :: 0 <= x < |b0| && x != c ==> b[x].labels == b0[x].labels)
  }

  lemma LabelLoopStep(b0: seq<Scope>, c: nat, prfx: int, i: nat, hist: seq<seq<Scope>>, b: seq<Scope>, r: seq<Scope>)
    requires LabelLoop(b0, c, prfx, i, hist, b) && i < |b0[c].labels|
    requires LabelStepped(b, r, c, prfx, i)
    ensures LabelLoop(b0, c, prfx, i + 1, hist + [r], r)
  {
    LabelLoopHistory(b0, c, prfx, i, hist, b, r);
    LabelLoopLabels(b0, c, prfx, i, hist, b, r);
  }

  lemma LabelLoopHistory(b0: seq<Scope>, c: nat, prfx: int, i: nat, hist: seq<seq<Scope>>, b: seq<Scope>, r: seq<Scope>)
    requires LabelLoop(b0, c, prfx, i, hist, b) && i < |b0[c].labels|
    requires LabelStepped(b, r, c, prfx, i)
    ensures |hist + [r]| == i + 2 && (hist + [r])[0] == b0 && (hist + [r])[i + 1] == r
    ensures forall j :: 0 <= j < i + 1 ==>
      LabelStepped((hist + [r])[j], (hist + [r])[j + 1], c, prfx, j) && Valid((hist + [r])[j]) && c < |(hist + [r])[j]|
  {
    var h := hist + [r];
    forall j | 0 <= j < i + 1
      ensures LabelStepped(h[j], h[j + 1], c, prfx, j) && Valid(h[j]) && c < |h[j]|
    {
      assert h[j] == hist[j];
      if j < i {
        assert h[j + 1] == hist[j + 1];
      }
    }
  }

  lemma LabelLoopLabels(b0: seq<Scope>, c: nat, prfx: int, i: nat, hist: seq<seq<Scope>>, b: seq<Scope>, r: seq<Scope>)
    requires LabelLoop(b0, c, prfx, i, hist, b) && i < |b0[c].labels|
    requires LabelStepped(b, r, c, prfx, i)
    ensures |r[c].labels| == |b0[c].labels|
    ensures forall j :: 0 <= j < i + 1 ==> Numbered(b0[c].labels[j], r[c].labels[j], j, prfx)
    ensures forall j :: 0 <= j < i + 1 ==>
      Valid((hist + [r])[j]) && c < |(hist + [r])[j]| &&
      r[c].labels[j].myVirtual == VirtualOf((hist + [r])[j], c, b0[c].labels[j].identifier)
    ensures forall j :: i + 1 <= j < |b0[c].labels| ==> r[c].labels[j] == b0[c].labels[j]
  {
    var h := hist + [r];
    assert forall j :: 0 <= j <= i ==> h[j] == hist[j];
  }

  /** The body of the label loop for label i. */
  method LabelStep(b: seq<Scope>, c: nat, prfx: int, i: nat) returns (r: seq<Scope>)
    requires Valid(b) && c < |b| && i < |b[c].labels|
    ensures LabelStepped(b, r, c, prfx, i)
    ensures |r| == |b| && Valid(r)
    ensures r[c].labels == b[c].labels[i := b[c].labels[i].(index := i + 1, prefixLevel := prfx,
                                                            myVirtual := VirtualOf(b, c, b[c].labels[i].identifier))]
    ensures VirtualBound(b, r, b[c].labels[i].declaredIn, b[c].labels[i].identifier, LabelMatch(c, i),
                         VirtualOf(b, c, b[c].labels[i].identifier))
    ensures forall x :: 0 <= x < |b| ==> Stripped(r[x]) == Stripped(b[x])
    ensures forall x :: 0 <= x < |b| && x != c ==> r[x].labels == b[x].labels
  {
    var lab := b[c].labels[i];
    var v := FindVirtual(b, c, lab.identifier);
    ValidAt(b, c);
    var bound := BindVirtual(b, lab.declaredIn, lab.identifier, LabelMatch(c, i), v);
    BindVirtualBound(b, lab.declaredIn, lab.identifier, LabelMatch(c, i), v);
    var b1 := bound.0;
    r := WithLabel(b1, c, i, lab.(index := i + 1, prefixLevel := prfx, myVirtual := v));
    VirtualBoundFrame(b, b1, r, lab.declaredIn, lab.identifier, LabelMatch(c, i), v);
    forall x | 0 <= x < |b|
      ensures Stripped(r[x]) == Stripped(b[x])
    {
      StrippedIgnoresVirtuals(b[x], b1[x].virtualList);
    }
    LabelSteppedIntro(b, r, c, prfx, i);
  }

  /** The arena with label i of scope `c` replaced by `l`. */
  function WithLabel(b: seq<Scope>, c: nat, i: nat, l: Label): (r: seq<Scope>)
    requires Valid(b) && c < |b| && i < |b[c].labels| && l.declaredIn < |b|
    ensures |r| == |b| && Valid(r) && r[c].labels == b[c].labels[i := l]
    ensures forall x :: 0 <= x < |b| ==> r[x].virtualList == b[x].virtualList && Stripped(r[x]) == Stripped(b[x])
    ensures forall x :: 0 <= x < |b| && x != c ==> r[x].labels == b[x].labels
  {
    var s := b[c].(labels := b[c].labels[i := l]);
    ValidAt(b, c);
    UpdatePreservesValid(b, c, s);
    b[c := s]
  }

  lemma LabelSteppedIntro(b: seq<Scope>, r: seq<Scope>, c: nat, prfx: int, i: nat)
    requires Valid(b) && c < |b| && i < |b[c].labels| && |r| == |b| && Valid(r)
    requires r[c].labels == b[c].labels[i := b[c].labels[i].(index := i + 1, prefixLevel := prfx,
                                                             myVirtual := VirtualOf(b, c, b[c].labels[i].identifier))]
    requires VirtualBound(b, r, b[c].labels[i].declaredIn, b[c].labels[i].identifier, LabelMatch(c, i),
                          VirtualOf(b, c, b[c].labels[i].identifier))
    requires forall x :: 0 <= x < |b| ==> Stripped(r[x]) == Stripped(b[x])
    requires forall x :: 0 <= x < |b| && x != c ==> r[x].labels == b[x].labels
    ensures LabelStepped(b, r, c, prfx, i)
  {
  }

  /** Two arenas bound from `b` by the same binding have the same virtual
      lists: VirtualBound determines them. */
  lemma VirtualBoundUnique(b: seq<Scope>, r1: seq<Scope>, r2: seq<Scope>, target: nat, ident: string, m: Matched, v: Option<VirtualRef>)
    requires Valid(b) && target < |b| && VirtualRefIn(b, v) && |r1| == |b| == |r2|
    requires VirtualBound(b, r1, target, ident, m, v) && VirtualBound(b, r2, target, ident, m, v)
    ensures forall x :: 0 <= x < |b| ==> r1[x].virtualList == r2[x].virtualList
  {
  }

  /** A label declared in the block that lists it, whose name has a virtual
      visible from the block, overrides it: afterwards findVirtual from the
      block yields a virtual of that name whose match is the label. */
  lemma LabelBindingOverrides(b: seq<Scope>, r: seq<Scope>, c: nat, prfx: int, i: nat)
    requires LabelStepped(b, r, c, prfx, i)
    requires b[c].labels[i].declaredIn == c && VirtualOf(b, c, b[c].labels[i].identifier).Some?
    ensures var ident := b[c].labels[i].identifier;
      var w := VirtualOf(r, c, ident);
      w.Some? && w.value.scope < |r| && w.value.index < |r[w.value.scope].virtualList| &&
      r[w.value.scope].virtualList[w.value.index].matched == LabelMatch(c, i) &&
      EqualsIgnoreCase(ident, r[w.value.scope].virtualList[w.value.index].identifier)
  {
    var ident := b[c].labels[i].identifier;
    var m := LabelMatch(c, i);
    var v := VirtualOf(b, c, ident);
    var bound := BindVirtual(b, c, ident, m, v);
    BindVirtualOverrides(b, c, ident, m);
    BindVirtualBound(b, c, ident, m, v);
    ValidAt(b, c);
    VirtualBoundUnique(b, bound.0, r, c, ident, m, v);
    forall x | 0 <= x < |b|
      ensures bound.0[x].virtualList == r[x].virtualList && bound.0[x].prefix == r[x].prefix
    {
      assert Stripped(r[x]).prefix == Stripped(b[x]).prefix;
    }
    VirtualOfFrame(bound.0, r, c, ident);
  }

  // ---------------------------------------------------------------------------
  // edFormalParameterList
  // ---------------------------------------------------------------------------

  /** One formal: "<javatype> <identifier>" for a method, "<javatype>
      s<externalIdent>" for a constructor. */
  function BlockFormal(p: ParamRec, qual: ParamRec -> Option<string>, isMethod: bool): string
    requires Typed(p)
  {
    ParamJavaType(p, qual(p)) + " " + (if isMethod then p.identifier else "s" + OrNull(p.externalIdent))
  }

  function BlockFormals(ps: seq<ParamRec>, qual: ParamRec -> Option<string>, isMethod: bool): (r: seq<string>)
    requires AllTyped(ps)
    ensures |r| == |ps|
  {
    seq(|ps|, i requires 0 <= i < |ps| && Typed(ps[i]) => BlockFormal(ps[i], qual, isMethod))
  }

  lemma BlockFormalsAt(ps: seq<ParamRec>, qual: ParamRec -> Option<string>, isMethod: bool, k: nat)
    requires AllTyped(ps) && k < |ps|
    ensures BlockFormals(ps, qual, isMethod)[k] == BlockFormal(ps[k], qual, isMethod)
  {
  }

  lemma AllTypedPrefix(ps: seq<ParamRec>, n: nat)
    requires AllTyped(ps) && n < |ps|
    ensures AllTyped(ps[..n]) && Typed(ps[n])
  {
    assert forall j :: 0 <= j < n ==> ps[..n][j] == ps[j];
  }

  /** A constructor's formals start with the static link; a method's do not. */
  function FormalLead(isMethod: bool): seq<string>
  {
    if isMethod then [] else ["RTObject$ staticLink"]
  }

  /** edFormalParameterList(isMethod): the formals of the chained parameters
      in prefix-first order, after the static link for a constructor, with a
      comma between items only. */
  method BlockEdFormalParameterList(a: seq<Scope>, c: nat, qual: ParamRec -> Option<string>, isMethod: bool)
    returns (s: string)
    requires Valid(a) && c < |a|
    requires AllTyped(ChainParameters(a, c))
    ensures s == "(" + Join(FormalLead(isMethod) + BlockFormals(ChainParameters(a, c), qual, isMethod), ",") + ") {"
  {
    var ps := CollectChainParameters(a, c);
    s := BlockFormalsText(FormalLead(isMethod), ps, qual, isMethod);
  }

  /** The for-each loop of edFormalParameterList over the parameters `ps`,
      after the optional leading static link `lead` (also used for the
      formals of a procedure). */
  method BlockFormalsText(lead: seq<string>, ps: seq<ParamRec>, qual: ParamRec -> Option<string>, isMethod: bool)
    returns (s: string)
    requires |lead| <= 1 && AllTyped(ps)
    ensures s == "(" + Join(lead + BlockFormals(ps, qual, isMethod), ",") + ") {"
  {
    s := "(";
    var withparams := false;
    ghost var names: seq<string> := [];
    if |lead| == 1 {
      s := s + lead[0];
      withparams := true;
      names := lead;
    }
    assert ps[..0] == [];
    for i := 0 to |ps|
      invariant AllTyped(ps[..i])
      invariant withparams <==> |names| > 0
      invariant names == lead + BlockFormals(ps[..i], qual, isMethod)
      invariant s == "(" + Join(names, ",")
    {
      var e := BlockFormal(ps[i], qual, isMethod);
      BlockFormalsNext(ps, i, qual, isMethod);
      SnocAfter(names, lead, BlockFormals(ps[..i], qual, isMethod), e);
      CommaStep(s, names, e, withparams);
      if withparams {
        s := s + ",";
      }
      withparams := true;
      s := s + e;
      names := names + [e];
    }
    assert ps[..|ps|] == ps;
    s := s + ") {";
  }

  lemma BlockFormalsNext(ps: seq<ParamRec>, i: nat, qual: ParamRec -> Option<string>, isMethod: bool)
    requires AllTyped(ps) && i < |ps|
    ensures AllTyped(ps[..i]) && AllTyped(ps[..i + 1])
    ensures BlockFormals(ps[..i + 1], qual, isMethod) == BlockFormals(ps[..i], qual, isMethod) + [BlockFormal(ps[i], qual, isMethod)]
  {
    var l := BlockFormals(ps[..i + 1], qual, isMethod);
    var r := BlockFormals(ps[..i], qual, isMethod) + [BlockFormal(ps[i], qual, isMethod)];
    forall k | 0 <= k < |l| ensures l[k] == r[k] {
      if k < i {
        assert ps[..i + 1][k] == ps[..i][k];
      }
    }
  }

  /** One iteration of the loop: a comma only when an item precedes. */
  lemma CommaStep(s: string, names: seq<string>, e: string, withparams: bool)
    requires withparams <==> |names| > 0
    requires s == "(" + Join(names, ",")
    ensures (if withparams then s + "," else s) + e == "(" + Join(names + [e], ",")
  {
    if withparams {
      JoinExtend("(", s, names, e, ",");
    } else {
      assert names + [e] == [e];
    }
  }

  /** When neither the lead nor any formal contains a comma, the list splits
      at its commas back into the lead (the static link, if any) and one
      formal per parameter, in order. */
  lemma BlockFormalsSplit(lead: seq<string>, ps: seq<ParamRec>, qual: ParamRec -> Option<string>, isMethod: bool)
    requires AllTyped(ps)
    requires forall i :: 0 <= i < |lead| ==> ',' !in lead[i]
    requires forall k :: 0 <= k < |ps| ==> ',' !in BlockFormal(ps[k], qual, isMethod)
    requires |lead| > 0 || |ps| > 0
    ensures var items := lead + BlockFormals(ps, qual, isMethod);
      Split(Join(items, ","), ',') == items
  {
    var fs := BlockFormals(ps, qual, isMethod);
    forall k | 0 <= k < |fs| ensures ',' !in fs[k] {
      NoCommaInBlockFormal(ps, qual, isMethod, k);
    }
    SplitJoinConcat(lead, fs, ',');
  }

  lemma NoCommaInBlockFormal(ps: seq<ParamRec>, qual: ParamRec -> Option<string>, isMethod: bool, k: nat)
    requires AllTyped(ps) && k < |ps|
    requires forall k :: 0 <= k < |ps| ==> ',' !in BlockFormal(ps[k], qual, isMethod)
    ensures ',' !in BlockFormals(ps, qual, isMethod)[k]
  {
    BlockFormalsAt(ps, qual, isMethod, k);
  }

  lemma NoCommaInLead(isMethod: bool)
    ensures forall i :: 0 <= i < |FormalLead(isMethod)| ==> ',' !in FormalLead(isMethod)[i]
  {
    assert ',' !in "RTObject$ staticLink";
  }
}
