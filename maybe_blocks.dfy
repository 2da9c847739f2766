// MaybeBlockDeclaration.java: a BEGIN ... END block whose kind is known only
// once its body is parsed -- a sub-block when it declares something, else a
// compound statement (the main program block keeps its kind) -- the move of
// a compound statement's labels to an enclosing block, the semantic check,
// the attribute search and the choices made by the Java code for the block.

module MaybeBlocks {
  import opened Util
  import opened Types
  import opened Scopes
  import opened DeclarationScopes
  import opened LabelMoves
  import opened BlockDeclarations

  // ---------------------------------------------------------------------------
  // createMaybeBlock
  // ---------------------------------------------------------------------------

  /** createMaybeBlock: the main program block, named after the source with a
      '$' appended, opened in the current scope with kind SimulaProgram. */
  method CreateMaybeBlock(st: Compilation, sourceName: string) returns (c: nat)
    requires st.Valid()
    modifies st
    ensures c == |old(st.scopes)| && st.currentScope == Some(c)
    ensures st.scopes == old(st.scopes) +
      [FreshScope(sourceName + "$", MaybeBlockDecl, SimulaProgram, old(st.currentScope),
                  SourceLevelIn(old(st.scopes), old(st.currentScope)))]
    ensures st.Valid()
  {
    c := NewScope(st, sourceName + "$", MaybeBlockDecl, SimulaProgram);
  }

  // ---------------------------------------------------------------------------
  // parseMaybeBlock: the classification
  // ---------------------------------------------------------------------------

  /** The block once its body is parsed: the program block is left alone;
      another block becomes a sub-block, renamed "SubBlock<line>", when it
      has declarations, and a compound statement, renamed
      "CompoundStatement<line>", when it has none. */
  function MaybeClassified(s: Scope, line: int): (r: Scope)
    ensures r == s.(blockKind := r.blockKind, identifier := r.identifier)
    ensures s.blockKind == SimulaProgram ==> r == s
    ensures s.blockKind != SimulaProgram ==>
      (r.blockKind == SubBlock <==> |s.declarations| > 0) &&
      (r.blockKind == CompoundStatement <==> |s.declarations| == 0) &&
      r.identifier == (if |s.declarations| > 0 then "SubBlock" else "CompoundStatement") + IntToString(line)
  {
    if s.blockKind == SimulaProgram then s
    else if |s.declarations| > 0 then s.(blockKind := SubBlock, identifier := "SubBlock" + IntToString(line))
    else s.(blockKind := CompoundStatement, identifier := "CompoundStatement" + IntToString(line))
  }

  // ---------------------------------------------------------------------------
  // moveLabelsFrom
  // ---------------------------------------------------------------------------

  /** The enclosing scopes the label walk is meant to pass over: compound
      statements and connection blocks that declare nothing. */
  predicate PassedOver(s: Scope)
  {
    (s.blockKind == CompoundStatement || s.blockKind == ConnectionBlock) && |s.declarations| == 0
  }

  /** The loop guard as written: a scope's kind would have to be a compound
      statement and a connection block at once. */
  predicate PassedOverAsWritten(s: Scope)
  {
    s.blockKind == CompoundStatement && s.blockKind == ConnectionBlock && |s.declarations| == 0
  }

  /** The guard as written never holds, so the walk stops at once: the
      labels go to the block's immediate enclosing scope, whatever it is. */
  lemma AsWrittenTargetIsDeclaredIn(a: seq<Scope>, c: nat)
    requires Valid(a) && c < |a|
    ensures SkipOutward(a, a[c].declaredIn, PassedOverAsWritten) == a[c].declaredIn
  {
    ValidAt(a, c);
    var d := a[c].declaredIn;
    if d.Some? {
      assert !PassedOverAsWritten(a[d.value]);
    }
  }

  /** A three-scope program: a sub-block with one declaration, a connection
      block inside it, and a compound statement with one label inside that. */
  function ConnectionExample(): (a: seq<Scope>)
    ensures Valid(a) && |a| == 3
  {
    var outer := FreshScope("SubBlock1", MaybeBlockDecl, SubBlock, None, 0)
      .(declarations := [Decl("x", VariableDecl, Some(Integer), None, false)]);
    var conn := FreshScope("Connection2", ConnectionDecl, ConnectionBlock, Some(0), 1);
    var comp := FreshScope("CompoundStatement3", MaybeBlockDecl, CompoundStatement, Some(1), 2)
      .(labels := [Scopes.Label("L", 2, 0, 0, None)]);
    [outer, conn, comp]
  }

  /** In that program the walk as written hands the label to the connection
      block, which declares nothing, while the walk the comment describes
      passes over it and reaches the sub-block. */
  lemma AsWrittenMissesConnectionBlock()
    ensures var a := ConnectionExample();
      SkipOutward(a, a[2].declaredIn, PassedOverAsWritten) == Some(1) &&
      a[1].blockKind == ConnectionBlock && |a[1].declarations| == 0 &&
      SkipOutward(a, a[2].declaredIn, PassedOver) == Some(0)
  {
    var a := ConnectionExample();
    assert !PassedOverAsWritten(a[1]);
    assert PassedOver(a[1]) && !PassedOver(a[0]);
  }

  /** The scope the labels of block `c` go to, when the walk finds one. */
  function MoveTarget(a: seq<Scope>, c: nat): (r: Option<nat>)
    requires Valid(a) && c < |a|
    ensures r.Some? ==> r.value < c && !PassedOver(a[r.value])
  {
    ValidAt(a, c);
    EnclosingChainBelow(a, a[c].declaredIn);
    SkipOutward(a, a[c].declaredIn, PassedOver)
  }

  /** moveLabelsFrom(block), with the walk the comment describes; `false`
      where the walk runs past the outermost scope and the source throws. */
  function LabelsMovedOut(a: seq<Scope>, c: nat): (r: (seq<Scope>, bool))
    requires Valid(a) && c < |a|
    ensures |r.0| == |a| && Valid(r.0)
  {
    var e := MoveTarget(a, c);
    if e.None? then (a, false) else (MovedLabels(a, c, e.value), true)
  }

  /** The target is the nearest enclosing scope that is neither a compound
      statement nor a connection block without declarations. */
  lemma MoveTargetIsNearest(a: seq<Scope>, c: nat)
    requires Valid(a) && c < |a|
    ensures
      var chain := EnclosingChain(a, a[c].declaredIn);
      var e := MoveTarget(a, c);
      (e.Some? ==> e.value in chain) &&
      forall k :: 0 <= k < |chain| && (e.None? || chain[k] > e.value) ==> PassedOver(a[chain[k]])
  {
    ValidAt(a, c);
    SkipOutwardIsNearest(a, a[c].declaredIn, PassedOver);
  }

  /** The move appends the block's labels, in order, to the target's list,
      empties the block's list and changes nothing else. */
  lemma LabelsMovedOutEffect(a: seq<Scope>, c: nat)
    requires Valid(a) && c < |a|
    ensures var r := LabelsMovedOut(a, c); var e := MoveTarget(a, c);
      (r.1 <==> e.Some?) &&
      (e.None? ==> r.0 == a) &&
      (e.Some? ==>
         r.0[e.value].labels == a[e.value].labels + a[c].labels && r.0[c].labels == [] &&
         (forall x :: 0 <= x < |a| ==> r.0[x] == a[x].(labels := r.0[x].labels)) &&
         forall x :: 0 <= x < |a| && x != c && x != e.value ==> r.0[x] == a[x])
  {
    var e := MoveTarget(a, c);
    if e.Some? {
      MovedLabelsEffect(a, c, e.value);
    }
  }

  /** No label is lost or duplicated. */
  lemma LabelsMovedOutKeepsAll(a: seq<Scope>, c: nat)
    requires Valid(a) && c < |a|
    ensures LabelBag(LabelsMovedOut(a, c).0) == LabelBag(a)
  {
    var e := MoveTarget(a, c);
    if e.Some? {
      MovedLabelsKeepsAll(a, c, e.value);
    }
  }

  /** moveLabelsFrom: the walk outward, the loop appending the labels, and
      the clearing of the block's list. */
  method MoveLabelsFrom(a: seq<Scope>, c: nat) returns (r: seq<Scope>, ok: bool)
    requires Valid(a) && c < |a|
    ensures (r, ok) == LabelsMovedOut(a, c)
  {
    ValidAt(a, c);
    var enc := WalkOutward(a, a[c].declaredIn, PassedOver);
    if enc.None? {
      return a, false;
    }
    EnclosingChainBelow(a, a[c].declaredIn);
    r := MoveLabels(a, c, enc.value);
    ok := true;
  }

  // ---------------------------------------------------------------------------
  // parseMaybeBlock: the end
  // ---------------------------------------------------------------------------

  /** Whether the block's labels are moved: only out of a compound statement
      that has labels. */
  predicate MovesOut(s: Scope)
  {
    s.blockKind != SimulaProgram && |s.declarations| == 0 && |s.labels| > 0
  }

  /** The arena after parseMaybeBlock of block `c`, and whether it ended
      without the walk falling off the outermost scope. */
  function MaybeBlockParsed(a: seq<Scope>, c: nat, line: int): (r: (seq<Scope>, bool))
    requires Valid(a) && c < |a|
    ensures |r.0| == |a| && Valid(r.0)
    ensures r.0[c].blockKind == MaybeClassified(a[c], line).blockKind
    ensures r.0[c].identifier == MaybeClassified(a[c], line).identifier
  {
    var k := MaybeClassified(a[c], line);
    ValidAt(a, c);
    UpdatePreservesValid(a, c, k);
    var b := a[c := k];
    if MovesOut(a[c]) then LabelsMovedOut(b, c) else (b, true)
  }

  /** A block that is not a compound statement with labels leaves every
      label list as it was. */
  lemma MaybeBlockParsedKeepsLabels(a: seq<Scope>, c: nat, line: int)
    requires Valid(a) && c < |a| && !MovesOut(a[c])
    ensures var r := MaybeBlockParsed(a, c, line);
      r.1 && forall x :: 0 <= x < |a| ==> r.0[x].labels == a[x].labels
  {
  }

  /** A compound statement with labels hands them on to its move target,
      leaving its own list empty; no label is lost on the way. */
  lemma MaybeBlockParsedMoves(a: seq<Scope>, c: nat, line: int)
    requires Valid(a) && c < |a| && MovesOut(a[c])
    ensures var r := MaybeBlockParsed(a, c, line); var e := MoveTarget(a, c);
      (r.1 <==> e.Some?) && LabelBag(r.0) == LabelBag(a) &&
      (e.Some? ==> r.0[e.value].labels == a[e.value].labels + a[c].labels && r.0[c].labels == [])
  {
    var k := MaybeClassified(a[c], line);
    ValidAt(a, c);
    UpdatePreservesValid(a, c, k);
    var b := a[c := k];
    SameTarget(a, b, c);
    LabelsMovedOutEffect(b, c);
    LabelsMovedOutKeepsAll(b, c);
    LabelBagUpdate(a, c, k);
    Cancel(LabelBag(b), LabelBag(a), multiset(a[c].labels));
  }

  /** Classifying the block does not change where its labels go. */
  lemma SameTarget(a: seq<Scope>, b: seq<Scope>, c: nat)
    requires Valid(a) && Valid(b) && |a| == |b| && c < |a|
    requires forall x :: 0 <= x < c ==> b[x] == a[x]
    requires b[c].declaredIn == a[c].declaredIn
    ensures MoveTarget(b, c) == MoveTarget(a, c)
  {
    ValidAt(a, c);
    SameWalkFrom(a, b, c, a[c].declaredIn);
  }

  lemma {:induction false} SameWalkFrom(a: seq<Scope>, b: seq<Scope>, c: nat, s: Option<nat>)
    requires Valid(a) && Valid(b) && |a| == |b| && c < |a| && Before(s, c)
    requires forall x :: 0 <= x < c ==> b[x] == a[x]
    ensures SkipOutward(b, s, PassedOver) == SkipOutward(a, s, PassedOver)
    decreases if s.Some? then s.value + 1 else 0
  {
    if s.Some? {
      ValidAt(a, s.value);
      SameWalkFrom(a, b, c, a[s.value].declaredIn);
    }
  }

  /** What the coding of a compound statement asserts of it. */
  predicate CompoundCodable(s: Scope)
  {
    |s.declarations| == 0 && |s.labels| == 0
  }

  /** Every compound statement that parseMaybeBlock leaves behind satisfies
      the assertions its coding makes. */
  lemma ParsedCompoundIsCodable(a: seq<Scope>, c: nat, line: int)
    requires Valid(a) && c < |a|
    ensures var r := MaybeBlockParsed(a, c, line);
      r.1 && r.0[c].blockKind == CompoundStatement && a[c].blockKind != SimulaProgram ==> CompoundCodable(r.0[c])
  {
    var r := MaybeBlockParsed(a, c, line);
    if MovesOut(a[c]) {
      MaybeBlockParsedMoves(a, c, line);
    }
  }

  /** The end of parseMaybeBlock: classification, the label move, and the
      current scope set back to the enclosing scope.  `ok` is false where
      the source throws. */
  method ParseMaybeBlock(st: Compilation, c: nat, line: int) returns (ok: bool)
    requires st.Valid() && c < |st.scopes|
    modifies st
    ensures (st.scopes, ok) == MaybeBlockParsed(old(st.scopes), c, line)
    ensures st.currentScope == if ok then old(st.scopes[c].declaredIn) else old(st.currentScope)
    ensures st.currentBlockLevel == old(st.currentBlockLevel) && st.currentRTBlockLevel == old(st.currentRTBlockLevel)
    ensures st.Valid()
  {
    var a := st.scopes;
    var s := a[c];
    if s.blockKind != SimulaProgram {
      if |s.declarations| > 0 {
        s := s.(blockKind := SubBlock, identifier := "SubBlock" + IntToString(line));
      } else {
        s := s.(blockKind := CompoundStatement, identifier := "CompoundStatement" + IntToString(line));
      }
    }
    ValidAt(a, c);
    UpdatePreservesValid(a, c, s);
    var b := a[c := s];
    ok := true;
    if MovesOut(a[c]) {
      b, ok := MoveLabelsFrom(b, c);
    }
    st.scopes := b;
    if ok {
      st.currentScope := a[c].declaredIn;
    }
  }

  // ---------------------------------------------------------------------------
  // doChecking
  // ---------------------------------------------------------------------------

  /** The arena after doChecking of block `c` entered at block level `level`
      (the checking of its declarations and statements aside): an unchecked
      block gets a Java class name unless it has an external identifier, the
      block level it is entered at, and its checked mark. */
  function MaybeChecked(a: seq<Scope>, c: nat, level: int): (r: seq<Scope>)
    requires Valid(a) && c < |a|
    ensures |r| == |a| && Valid(r) && r[c].checked
    ensures forall x :: 0 <= x < |a| && x != c ==> r[x] == a[x]
    ensures !a[c].checked ==> r[c].blockLevel == (if a[c].blockKind == CompoundStatement then level else level + 1)
    ensures a[c].externalIdent.Some? ==> r[c].externalIdent == a[c].externalIdent
    ensures r[c] == a[c].(externalIdent := r[c].externalIdent, blockLevel := r[c].blockLevel, checked := true)
  {
    if a[c].checked then a
    else
      var ext := if a[c].externalIdent.None? then JavaClassName(a, c) else a[c].externalIdent;
      var s := a[c].(externalIdent := ext, blockLevel := EnteredLevel(a[c].blockKind, level), checked := true);
      ValidAt(a, c);
      UpdatePreservesValid(a, c, s);
      a[c := s]
  }

  /** Checking a block twice is checking it once, whatever the level. */
  lemma MaybeCheckedIdempotent(a: seq<Scope>, c: nat, level1: int, level2: int)
    requires Valid(a) && c < |a|
    ensures MaybeChecked(MaybeChecked(a, c, level1), c, level2) == MaybeChecked(a, c, level1)
  {
  }

  /** doChecking: nothing for a checked block; otherwise one block level
      deeper unless it is a compound statement, the external identifier and
      block level set, and the current scope and level restored on exit. */
  method MaybeBlockDoChecking(st: Compilation, c: nat)
    requires st.Valid() && c < |st.scopes|
    modifies st
    ensures st.scopes == MaybeChecked(old(st.scopes), c, old(st.currentBlockLevel))
    ensures st.currentScope == if old(st.scopes[c].checked) then old(st.currentScope) else old(st.scopes[c].declaredIn)
    ensures st.currentBlockLevel == old(st.currentBlockLevel) && st.currentRTBlockLevel == old(st.currentRTBlockLevel)
    ensures st.Valid()
  {
    var a := st.scopes;
    var outer := st.currentBlockLevel;
    var s := a[c];
    if s.checked {
      return;
    }
    var ext := s.externalIdent;
    if ext.None? {
      ext := EdJavaClassName(a, c);
    }
    var level := outer;
    if s.blockKind != CompoundStatement {
      level := level + 1;
    }
    assert level == EnteredLevel(s.blockKind, outer);
    s := s.(externalIdent := ext, blockLevel := level, checked := true);
    var r := a[c := s];
    assert r == MaybeChecked(a, c, outer);
    st.currentBlockLevel := level;
    st.currentScope := Some(c);
    st.scopes := r;
    st.currentScope := s.declaredIn;
    if s.blockKind != CompoundStatement {
      st.currentBlockLevel := level - 1;
    }
  }

  // ---------------------------------------------------------------------------
  // findVisibleAttributeMeaning
  // ---------------------------------------------------------------------------

  /** The declarations are searched first, then the labels, ignoring case;
      the meaning found is declared and found in the block itself. */
  function MaybeVisibleAttribute(a: seq<Scope>, c: nat, ident: string): (r: Option<Meaning>)
    requires c < |a|
    ensures r.Some? ==> r.value.declaredIn == Some(c) && r.value.foundIn == Some(c) && !r.value.foundBehindInvisible
    ensures r.Some? ==>
      r.value.declaredAs.Some? && FoundValid(a, r.value.declaredAs.value) &&
      r.value.declaredAs.value.scope == c && EqualsIgnoreCase(ident, FoundName(a, r.value.declaredAs.value))
  {
    match FirstNamed(DeclNames(a[c].declarations), ident)
    case Some(k) => Some(Meaning(Some(FDecl(c, k)), Some(c), Some(c), false))
    case None =>
      match FirstNamed(LabelNames(a[c].labels), ident)
      case Some(k) => Some(Meaning(Some(FLabel(c, k)), Some(c), Some(c), false))
      case None => None
  }

  /** Nothing is found exactly when neither list has the name; a label is
      found only when no declaration has it, and the first match wins. */
  lemma MaybeVisibleAttributeOrder(a: seq<Scope>, c: nat, ident: string)
    requires c < |a|
    ensures var r := MaybeVisibleAttribute(a, c, ident);
      var ds := a[c].declarations; var ls := a[c].labels;
      (r.None? <==>
         (forall k :: 0 <= k < |ds| ==> !EqualsIgnoreCase(ident, ds[k].identifier)) &&
         (forall k :: 0 <= k < |ls| ==> !EqualsIgnoreCase(ident, ls[k].identifier))) &&
      (r.Some? && r.value.declaredAs.value.FLabel? ==>
         forall k :: 0 <= k < |ds| ==> !EqualsIgnoreCase(ident, ds[k].identifier)) &&
      (r.Some? ==> forall k :: 0 <= k < r.value.declaredAs.value.index ==>
         !EqualsIgnoreCase(ident, FoundName(a, r.value.declaredAs.value.(index := k))))
  {
    var ds := a[c].declarations;
    var ls := a[c].labels;
    var fd := FirstNamed(DeclNames(ds), ident);
    var fl := FirstNamed(LabelNames(ls), ident);
    if fd.None? {
      assert forall k :: 0 <= k < |ds| ==> DeclNames(ds)[k] == ds[k].identifier;
      if fl.None? {
        assert forall k :: 0 <= k < |ls| ==> LabelNames(ls)[k] == ls[k].identifier;
      }
    }
  }

  /** The two for-each loops with early returns. */
  method FindMaybeVisibleAttribute(a: seq<Scope>, c: nat, ident: string) returns (r: Option<Meaning>)
    requires c < |a|
    ensures r == MaybeVisibleAttribute(a, c, ident)
  {
    var k := SearchNames(DeclNames(a[c].declarations), ident);
    if k.Some? {
      return Some(Meaning(Some(FDecl(c, k.value)), Some(c), Some(c), false));
    }
    k := SearchNames(LabelNames(a[c].labels), ident);
    if k.Some? {
      return Some(Meaning(Some(FLabel(c, k.value)), Some(c), Some(c), false));
    }
    return None;
  }

  // ---------------------------------------------------------------------------
  // Coding choices
  // ---------------------------------------------------------------------------

  /** The BPRG call that marks the start of the main program. */
  function BprgLine(identifier: string): string
  {
    "BPRG(\"" + identifier + "\");"
  }

  /** doCodeConstructor's code lines (without its debug lines): the
      constructor head, the super call, BBLK, BPRG for the program block
      only, the declarations' own code, and the closing brace. */
  function ConstructorLines(s: Scope, javaIdent: string, declCode: seq<string>): (r: seq<string>)
    ensures |r| >= 4
    ensures r[..3] == ["public " + javaIdent + "(RTObject$ staticLink) {", "super(staticLink);", "BBLK();"]
    ensures r[|r| - 1] == "}"
    ensures s.blockKind == SimulaProgram ==> r == r[..3] + [BprgLine(s.identifier)] + declCode + ["}"]
    ensures s.blockKind != SimulaProgram ==> r == r[..3] + declCode + ["}"]
  {
    ["public " + javaIdent + "(RTObject$ staticLink) {", "super(staticLink);", "BBLK();"] +
    (if s.blockKind == SimulaProgram then [BprgLine(s.identifier)] else []) +
    declCode + ["}"]
  }

  /** The constructor calls BPRG exactly when the block is the main program
      (the declarations' code never does). */
  lemma BprgOnlyForProgram(s: Scope, javaIdent: string, declCode: seq<string>)
    requires forall i :: 0 <= i < |declCode| ==> !StartsWith(declCode[i], "BPRG(")
    ensures var r := ConstructorLines(s, javaIdent, declCode);
      (exists i :: 0 <= i < |r| && StartsWith(r[i], "BPRG(")) <==> s.blockKind == SimulaProgram
  {
    var r := ConstructorLines(s, javaIdent, declCode);
    var head := r[..3];
    assert !StartsWith(head[0], "BPRG(") by { assert head[0][0] == 'p'; }
    assert !StartsWith(head[1], "BPRG(") by { assert head[1][0] == 's'; }
    assert !StartsWith(head[2], "BPRG(") by { assert head[2][1] == 'B'; }
    assert !StartsWith("}", "BPRG(");
    if s.blockKind == SimulaProgram {
      assert r[3] == BprgLine(s.identifier);
      assert BprgLine(s.identifier)[..5] == "BPRG(";
    } else {
      forall i | 0 <= i < |r| ensures !StartsWith(r[i], "BPRG(") {
        if i < 3 {
          assert r[i] == head[i];
        } else if i < 3 + |declCode| {
          assert r[i] == declCode[i - 3];
        }
      }
    }
  }

  /** The code of a compound statement: its statements between braces, the
      block's assertions checked first (None when one fails). */
  function CompoundStatementCode(s: Scope, stmCode: seq<string>): (r: Option<seq<string>>)
    ensures r.Some? <==> CompoundCodable(s)
    ensures r.Some? ==> r.value == ["{"] + stmCode + ["}"]
  {
    if |s.declarations| != 0 || |s.labels| != 0 then None else Some(["{"] + stmCode + ["}"])
  }
}
