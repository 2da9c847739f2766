// The prefix chain of a class, as BlockDeclaration.java and ClassDeclaration.java
// both walk it: subclass tests, prefix levels, the parameters a class inherits
// from its prefixes, and the parameter list passed to the prefix's constructor.
// The two files differ only in the name of the implicit root class ("CLASS" in
// BlockDeclaration.java, "SIMULA_BLOCK" in ClassDeclaration.java), which is a
// parameter here.

module Prefixes {
  import opened Util
  import opened Parameters
  import opened Scopes

  const SimulaBlockRoot: string := "SIMULA_BLOCK"
  const ClassRoot: string := "CLASS"

  /** hasNoRealPrefix: no prefix class, or the prefix is the implicit root. */
  predicate HasNoRealPrefix(a: seq<Scope>, c: nat, root: string)
    requires Valid(a) && c < |a|
  {
    a[c].prefix.None? || EqualsIgnoreCase(a[a[c].prefix.value].identifier, root)
  }

  /** `c` followed by its real prefixes, innermost first. */
  function RealChain(a: seq<Scope>, c: nat, root: string): (r: seq<nat>)
    requires Valid(a) && c < |a|
    ensures |r| >= 1 && r[0] == c
    ensures forall k :: 0 <= k < |r| ==> r[k] <= c
    decreases c
  {
    if HasNoRealPrefix(a, c, root) then [c] else [c] + RealChain(a, a[c].prefix.value, root)
  }

  /** prefixLevel: 0 without a real prefix, else one more than the prefix's. */
  function PrefixLevel(a: seq<Scope>, c: nat, root: string): (r: nat)
    requires Valid(a) && c < |a|
    ensures r == 0 <==> HasNoRealPrefix(a, c, root)
    decreases c
  {
    if HasNoRealPrefix(a, c, root) then 0 else PrefixLevel(a, a[c].prefix.value, root) + 1
  }

  /** The prefix level counts the real prefixes. */
  lemma {:induction false} PrefixLevelCountsRealPrefixes(a: seq<Scope>, c: nat, root: string)
    requires Valid(a) && c < |a|
    ensures PrefixLevel(a, c, root) == |RealChain(a, c, root)| - 1
    decreases c
  {
    if !HasNoRealPrefix(a, c, root) {
      PrefixLevelCountsRealPrefixes(a, a[c].prefix.value, root);
    }
  }

  /** When no class on the prefix chain is the root, the prefix level is the
      length of the whole prefix chain. */
  lemma {:induction false} PrefixLevelWithoutRoot(a: seq<Scope>, c: nat, root: string)
    requires Valid(a) && c < |a|
    requires forall k :: 0 <= k < |PrefixChain(a, c)| ==> !EqualsIgnoreCase(a[PrefixChain(a, c)[k]].identifier, root)
    ensures PrefixLevel(a, c, root) == |PrefixChain(a, c)|
    decreases c
  {
    if a[c].prefix.Some? {
      var p := a[c].prefix.value;
      assert PrefixChain(a, c)[0] == p;
      assert forall k :: 0 <= k < |PrefixChain(a, p)| ==> PrefixChain(a, p)[k] == PrefixChain(a, c)[k + 1];
      PrefixLevelWithoutRoot(a, p, root);
    }
  }

  /** A class directly prefixed by the root is on level 0, a class with a real
      prefix one level above it; so the parameters of a class and of its real
      prefix get different Java names even when their Simula names agree. */
  lemma PrefixParametersHaveDistinctExternalNames(a: seq<Scope>, c: nat, root: string, id1: string, id2: string)
    requires Valid(a) && c < |a| && !HasNoRealPrefix(a, c, root)
    requires '$' !in id1 && '$' !in id2
    ensures ExternalIdentifier(id1, PrefixLevel(a, c, root)) != ExternalIdentifier(id2, PrefixLevel(a, a[c].prefix.value, root))
  {
    var k1 := PrefixLevel(a, c, root);
    var k2 := PrefixLevel(a, a[c].prefix.value, root);
    if ExternalIdentifier(id1, k1) == ExternalIdentifier(id2, k2) {
      ExternalIdentifierInjective(id1, k1, id2, k2);
      assert false;
    }
  }

  // ---------------------------------------------------------------------------
  // isSubClassOf
  // ---------------------------------------------------------------------------

  /** A class is a subclass of the classes on its strict prefix chain. */
  predicate SubClassOf(a: seq<Scope>, c: nat, other: nat)
    requires Valid(a) && c < |a|
  {
    other in PrefixChain(a, c)
  }

  lemma SubClassIrreflexive(a: seq<Scope>, c: nat)
    requires Valid(a) && c < |a|
    ensures !SubClassOf(a, c, c)
  {
    PrefixChainAcyclic(a, c);
  }

  lemma SubClassTransitive(a: seq<Scope>, c: nat, b: nat, d: nat)
    requires Valid(a) && c < |a| && b < |a|
    requires SubClassOf(a, c, b) && SubClassOf(a, b, d)
    ensures SubClassOf(a, c, d)
  {
    var chain := PrefixChain(a, c);
    var k :| 0 <= k < |chain| && chain[k] == b;
    PrefixChainTransitive(a, c, k);
    assert d in chain[k + 1..];
  }

  /** The do-while loop of isSubClassOf (the same in both files). */
  method IsSubClassOf(a: seq<Scope>, c: nat, other: nat) returns (r: bool)
    requires Valid(a) && c < |a|
    ensures r <==> SubClassOf(a, c, other)
  {
    var prefixClass := a[c].prefix;
    if prefixClass.Some? {
      while true
        invariant prefixClass.Some? && prefixClass.value < |a|
        invariant SubClassOf(a, c, other) <==> other == prefixClass.value || other in PrefixChain(a, prefixClass.value)
        decreases prefixClass.value
      {
        if other == prefixClass.value {
          return true;
        }
        prefixClass := a[prefixClass.value].prefix;
        if prefixClass.None? {
          break;
        }
      }
    }
    return false;
  }

  /** The classes of the example in the source's comment: A, B prefixed by A,
      C prefixed by B. */
  function ExampleClass(id: string, prefix: Option<nat>): Scope
  {
    Scope(id, ClassDecl, ClassBlock, None, None, prefix, 0, 0, 0, None, None, false,
          [], [], [], [], [], [], [], {}, [], false, false, None, [], None)
  }

  lemma SubClassExample()
    ensures var a := [ExampleClass("A", None), ExampleClass("B", Some(0)), ExampleClass("C", Some(1))];
      Valid(a) &&
      SubClassOf(a, 1, 0) && SubClassOf(a, 2, 1) && SubClassOf(a, 2, 0) &&
      !SubClassOf(a, 0, 1) && !SubClassOf(a, 1, 1) &&
      PrefixLevel(a, 0, SimulaBlockRoot) == 0 && PrefixLevel(a, 2, SimulaBlockRoot) == 2
  {
    var a := [ExampleClass("A", None), ExampleClass("B", Some(0)), ExampleClass("C", Some(1))];
    assert PrefixChain(a, 2) == [1, 0];
  }

  // ---------------------------------------------------------------------------
  // ClassParameterIterator
  // ---------------------------------------------------------------------------

  /** The parameters of the whole prefix chain (root first), then the own ones. */
  function ChainParameters(a: seq<Scope>, c: nat): (r: seq<ParamRec>)
    requires Valid(a) && c < |a|
    ensures a[c].prefix.None? ==> r == a[c].parameters
    ensures forall p :: p in a[c].parameters ==> p in r
    decreases c
  {
    (if a[c].prefix.Some? then ChainParameters(a, a[c].prefix.value) else []) + a[c].parameters
  }

  /** A class's own parameters close the chained list. */
  lemma ChainParametersOwnLast(a: seq<Scope>, c: nat)
    requires Valid(a) && c < |a|
    ensures var r := ChainParameters(a, c);
      |r| >= |a[c].parameters| && r[|r| - |a[c].parameters|..] == a[c].parameters
  {
    var pre := if a[c].prefix.Some? then ChainParameters(a, a[c].prefix.value) else [];
    assert (pre + a[c].parameters)[|pre|..] == a[c].parameters;
  }

  function Reverse<T>(s: seq<T>): (r: seq<T>)
    ensures |r| == |s|
  {
    if s == [] then [] else Reverse(s[1..]) + [s[0]]
  }

  /** The parameter lists of the scopes `cs`, in the order of `cs`. */
  function ParametersAlong(a: seq<Scope>, cs: seq<int>): seq<ParamRec>
    requires forall k :: 0 <= k < |cs| ==> 0 <= cs[k] < |a|
  {
    if cs == [] then [] else ParametersAlong(a, cs[..|cs| - 1]) + a[cs[|cs| - 1]].parameters
  }

  /** The chained parameters are the parameter lists along the prefix chain,
      outermost prefix first and the class itself last. */
  lemma {:induction false} ChainParametersRootFirst(a: seq<Scope>, c: nat)
    requires Valid(a) && c < |a|
    ensures var cs := Reverse([c] + PrefixChain(a, c));
      (forall k :: 0 <= k < |cs| ==> 0 <= cs[k] < |a|) &&
      ChainParameters(a, c) == ParametersAlong(a, cs)
    decreases c
  {
    var cs := Reverse([c] + PrefixChain(a, c));
    assert cs == Reverse(PrefixChain(a, c)) + [c];
    ReverseElements(PrefixChain(a, c));
    if a[c].prefix.Some? {
      var p := a[c].prefix.value;
      ChainParametersRootFirst(a, p);
      assert PrefixChain(a, c) == [p] + PrefixChain(a, p);
      assert cs[..|cs| - 1] == Reverse([p] + PrefixChain(a, p));
    } else {
      assert cs == [c];
    }
  }

  lemma {:induction false} ReverseElements<T>(s: seq<T>)
    ensures forall x :: x in Reverse(s) <==> x in s
  {
    if s != [] {
      ReverseElements(s[1..]);
      assert s == [s[0]] + s[1..];
    }
  }

  /** The iterator over the chained parameters: the prefix's iterator (null
      when there is no prefix or once it has run out) and the own list. */
  class ClassParameterIterator {
    var prefixPart: Option<seq<ParamRec>>
    var localPart: seq<ParamRec>

    function Remaining(): seq<ParamRec>
      reads this
    {
      (if prefixPart.Some? then prefixPart.value else []) + localPart
    }

    constructor(a: seq<Scope>, c: nat)
      requires Valid(a) && c < |a|
      ensures prefixPart == (if a[c].prefix.Some? then Some(ChainParameters(a, a[c].prefix.value)) else None)
      ensures localPart == a[c].parameters
      ensures Remaining() == ChainParameters(a, c)
    {
      prefixPart := if a[c].prefix.Some? then Some(ChainParameters(a, a[c].prefix.value)) else None;
      localPart := a[c].parameters;
    }

    /** hasNext drops an exhausted prefix iterator. */
    method HasNext() returns (b: bool)
      modifies this
      ensures b <==> Remaining() != []
      ensures Remaining() == old(Remaining())
      ensures prefixPart.Some? ==> prefixPart.value != []
    {
      if prefixPart.Some? {
        if prefixPart.value != [] {
          return true;
        }
        prefixPart := None;
      }
      return localPart != [];
    }

    /** next: the next parameter, or null once the parameters are exhausted. */
    method Next() returns (p: Option<ParamRec>)
      modifies this
      ensures old(Remaining()) == [] ==> p.None? && Remaining() == []
      ensures old(Remaining()) != [] ==> p == Some(old(Remaining())[0]) && Remaining() == old(Remaining())[1..]
    {
      var more := HasNext();
      if !more {
        return None;
      }
      if prefixPart.Some? {
        p := Some(prefixPart.value[0]);
        prefixPart := Some(prefixPart.value[1..]);
      } else {
        p := Some(localPart[0]);
        localPart := localPart[1..];
      }
    }
  }

  /** The for-each loop over a fresh iterator visits ChainParameters in order. */
  method CollectChainParameters(a: seq<Scope>, c: nat) returns (ps: seq<ParamRec>)
    requires Valid(a) && c < |a|
    ensures ps == ChainParameters(a, c)
  {
    var it := new ClassParameterIterator(a, c);
    ps := Drain(it);
  }

  /** Calls next() while hasNext() holds. */
  method Drain(it: ClassParameterIterator) returns (ps: seq<ParamRec>)
    modifies it
    ensures ps == old(it.Remaining()) && it.Remaining() == []
  {
    ghost var all := it.Remaining();
    ps := [];
    var more := it.HasNext();
    while more
      invariant ps + it.Remaining() == all
      invariant more <==> it.Remaining() != []
      decreases |it.Remaining()|
    {
      ghost var before := it.Remaining();
      var p := it.Next();
      TakeOne(ps, before);
      ps := ps + [p.value];
      more := it.HasNext();
    }
    assert ps == all;
  }

  // ---------------------------------------------------------------------------
  // edSuperParameterList / edCompleteParameterList
  // ---------------------------------------------------------------------------

  /** "s" + externalIdent for each parameter. */
  function SpecifiedNames(ps: seq<ParamRec>): (r: seq<string>)
    ensures |r| == |ps|
  {
    if ps == [] then [] else ["s" + OrNull(ps[0].externalIdent)] + SpecifiedNames(ps[1..])
  }

  lemma {:induction false} SpecifiedNamesAt(ps: seq<ParamRec>, k: nat)
    requires k < |ps|
    ensures SpecifiedNames(ps)[k] == "s" + OrNull(ps[k].externalIdent)
  {
    if k > 0 {
      SpecifiedNamesAt(ps[1..], k - 1);
    }
  }

  lemma {:induction false} SpecifiedNamesSnoc(ps: seq<ParamRec>, p: ParamRec)
    ensures SpecifiedNames(ps + [p]) == SpecifiedNames(ps) + ["s" + OrNull(p.externalIdent)]
  {
    if ps != [] {
      assert (ps + [p])[1..] == ps[1..] + [p];
      SpecifiedNamesSnoc(ps[1..], p);
    } else {
      assert [p][1..] == [];
    }
  }

  /** The argument list of the call to the prefix's constructor: the static link
      and every chained parameter, comma separated, then ");". The same code is
      edSuperParameterList in BlockDeclaration.java and edCompleteParameterList
      in ClassDeclaration.java. */
  method EdCompleteParameterList(a: seq<Scope>, c: nat) returns (s: string)
    requires Valid(a) && c < |a|
    ensures s == "(" + Join(["staticLink"] + SpecifiedNames(ChainParameters(a, c)), ",") + ");"
  {
    var it := new ClassParameterIterator(a, c);
    s := EdSpecifiedList(it);
  }

  /** The loop of edCompleteParameterList over the iterator. */
  method EdSpecifiedList(it: ClassParameterIterator) returns (s: string)
    modifies it
    ensures s == "(" + Join(["staticLink"] + SpecifiedNames(old(it.Remaining())), ",") + ");"
  {
    ghost var all := it.Remaining();
    ghost var done: seq<ParamRec> := [];
    ghost var names: seq<string> := ["staticLink"];
    s := "(staticLink";
    assert s == "(" + Join(names, ",");
    var more := it.HasNext();
    while more
      invariant done + it.Remaining() == all
      invariant more <==> it.Remaining() != []
      invariant names == ["staticLink"] + SpecifiedNames(done)
      invariant s == "(" + Join(names, ",")
      decreases |it.Remaining()|
    {
      ghost var before := it.Remaining();
      var p := it.Next();
      TakeOne(done, before);
      var entry := "s" + OrNull(p.value.externalIdent);
      SpecifiedStep(s, names, done, p.value);
      s := s + "," + entry;
      done := done + [p.value];
      names := names + [entry];
      more := it.HasNext();
    }
    assert done == all;
    s := s + ");";
  }

  /** Moving the first remaining item to the visited ones keeps their sum. */
  lemma TakeOne<T>(done: seq<T>, rest: seq<T>)
    requires rest != []
    ensures (done + [rest[0]]) + rest[1..] == done + rest
  {
    assert rest == [rest[0]] + rest[1..];
  }

  lemma SpecifiedStep(s: string, names: seq<string>, done: seq<ParamRec>, p: ParamRec)
    requires names == ["staticLink"] + SpecifiedNames(done)
    requires s == "(" + Join(names, ",")
    ensures names + ["s" + OrNull(p.externalIdent)] == ["staticLink"] + SpecifiedNames(done + [p])
    ensures s + "," + ("s" + OrNull(p.externalIdent)) == "(" + Join(names + ["s" + OrNull(p.externalIdent)], ",")
  {
    var e := "s" + OrNull(p.externalIdent);
    SpecifiedNamesSnoc(done, p);
    assert names + [e] == ["staticLink"] + (SpecifiedNames(done) + [e]);
    JoinExtend("(", s, names, e, ",");
  }

  /** The list has exactly one comma-separated entry per chained parameter,
      in chain order, after the static link (when no external identifier
      contains a comma). */
  lemma {:induction false} CompleteParameterListEntries(ps: seq<ParamRec>)
    requires forall k :: 0 <= k < |ps| ==> ps[k].externalIdent.Some? ==> ',' !in ps[k].externalIdent.value
    ensures Split(Join(["staticLink"] + SpecifiedNames(ps), ","), ',') == ["staticLink"] + SpecifiedNames(ps)
  {
    var xs := ["staticLink"] + SpecifiedNames(ps);
    assert ',' !in "staticLink";
    forall i | 0 <= i < |xs| ensures ',' !in xs[i] {
      if i > 0 {
        SpecifiedNamesAt(ps, i - 1);
        NoCommaInSpecifiedName(ps[i - 1]);
      }
    }
    SplitJoin(xs, ',');
  }

  lemma NoCommaInSpecifiedName(p: ParamRec)
    requires p.externalIdent.Some? ==> ',' !in p.externalIdent.value
    ensures ',' !in "s" + OrNull(p.externalIdent)
  {
    assert ',' !in "null";
  }
}
