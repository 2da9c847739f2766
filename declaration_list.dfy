// DeclarationList.java: the declarations of one scope, in declaration order.
// `add` refuses a second declaration of an identifier that is already in the
// list, and `find` compares identifiers case-sensitively (String.equals).

module DeclarationLists {
  import opened Util
  import opened Scopes

  /** The position of the first declaration named exactly `id`. */
  function FindIndex(ds: seq<Decl>, id: string): (r: Option<nat>)
    ensures r.Some? ==> r.value < |ds| && ds[r.value].identifier == id
    ensures r.Some? ==> forall j :: 0 <= j < r.value ==> ds[j].identifier != id
    ensures r.None? <==> forall j :: 0 <= j < |ds| ==> ds[j].identifier != id
  {
    if ds == [] then None
    else if ds[0].identifier == id then Some(0)
    else match FindIndex(ds[1..], id)
      case None => None
      case Some(k) => Some(k + 1)
  }

  /** No identifier occurs twice. */
  predicate Distinct(ds: seq<Decl>)
  {
    forall i, j :: 0 <= i < j < |ds| ==> ds[i].identifier != ds[j].identifier
  }

  /** The list after `add(d)`, and add's result. */
  function AddResult(ds: seq<Decl>, d: Decl): (r: (seq<Decl>, bool))
    ensures r.1 <==> FindIndex(ds, d.identifier).None?
    ensures r.1 ==> r.0 == ds + [d]
    ensures !r.1 ==> r.0 == ds
  {
    if FindIndex(ds, d.identifier).Some? then (ds, false) else (ds + [d], true)
  }

  /** The list after adding the declarations `xs` one after another. */
  function AddAll(ds: seq<Decl>, xs: seq<Decl>): seq<Decl>
    decreases |xs|
  {
    if xs == [] then ds else AddAll(AddResult(ds, xs[0]).0, xs[1..])
  }

  /** add never introduces a duplicate. */
  lemma AddKeepsDistinct(ds: seq<Decl>, d: Decl)
    requires Distinct(ds)
    ensures Distinct(AddResult(ds, d).0)
  {
  }

  /** After any sequence of adds into a list without duplicates the
      identifiers are still pairwise distinct. */
  lemma {:induction false} AddAllDistinct(ds: seq<Decl>, xs: seq<Decl>)
    requires Distinct(ds)
    ensures Distinct(AddAll(ds, xs))
    decreases |xs|
  {
    if xs != [] {
      AddKeepsDistinct(ds, xs[0]);
      AddAllDistinct(AddResult(ds, xs[0]).0, xs[1..]);
    }
  }

  /** Elements already in the list stay where they are. */
  lemma {:induction false} AddAllExtends(ds: seq<Decl>, xs: seq<Decl>)
    ensures |ds| <= |AddAll(ds, xs)| && AddAll(ds, xs)[..|ds|] == ds
    decreases |xs|
  {
    if xs != [] {
      var ds' := AddResult(ds, xs[0]).0;
      AddAllExtends(ds', xs[1..]);
      assert AddAll(ds', xs[1..])[..|ds|] == AddAll(ds', xs[1..])[..|ds'|][..|ds|];
    }
  }

  /** The first declaration of an identifier wins: if xs[i] is the first of the
      added declarations named `id` and the list did not hold `id` before, then
      after all the adds `find(id)` gives xs[i]. */
  lemma {:induction false} FirstDeclarationWins(ds: seq<Decl>, xs: seq<Decl>, i: nat)
    requires i < |xs|
    requires FindIndex(ds, xs[i].identifier).None?
    requires forall j :: 0 <= j < i ==> xs[j].identifier != xs[i].identifier
    ensures var r := AddAll(ds, xs); var k := FindIndex(r, xs[i].identifier);
      k.Some? && r[k.value] == xs[i]
    decreases |xs|
  {
    var id := xs[i].identifier;
    var ds' := AddResult(ds, xs[0]).0;
    if i == 0 {
      assert ds' == ds + [xs[0]];
      AddAllExtends(ds', xs[1..]);
      var r := AddAll(ds', xs[1..]);
      assert r[|ds|] == ds'[|ds|] == xs[0];
      assert forall j :: 0 <= j < |ds| ==> r[j] == ds[j];
      assert FindIndex(r, id) == Some(|ds|) by {
        var k := FindIndex(r, id);
        assert k.Some? by { assert r[|ds|].identifier == id; }
        assert k.value >= |ds|;
        assert !(k.value > |ds|);
      }
    } else {
      assert FindIndex(ds', id).None? by {
        assert forall j :: 0 <= j < |ds'| ==> ds'[j].identifier != id;
      }
      assert xs[1..][i - 1] == xs[i];
      FirstDeclarationWins(ds', xs[1..], i - 1);
    }
  }

  class DeclarationList {
    var identifier: string
    var elements: seq<Decl>

    constructor(identifier: string)
      ensures this.identifier == identifier && elements == []
      ensures Valid()
    {
      this.identifier := identifier;
      elements := [];
    }

    ghost predicate Valid()
      reads this
    {
      Distinct(elements)
    }

    /** find: the first declaration whose identifier is exactly `id`, or none. */
    method Find(id: string) returns (r: Option<Decl>)
      ensures r.None? <==> forall j :: 0 <= j < |elements| ==> elements[j].identifier != id
      ensures r.Some? ==> FindIndex(elements, id).Some? && r.value == elements[FindIndex(elements, id).value]
    {
      var i := 0;
      while i < |elements|
        invariant 0 <= i <= |elements|
        invariant forall j :: 0 <= j < i ==> elements[j].identifier != id
      {
        if elements[i].identifier == id {
          assert FindIndex(elements, id) == Some(i) by {
            var k := FindIndex(elements, id);
            assert k.Some?;
            assert !(k.value < i) && !(k.value > i);
          }
          return Some(elements[i]);
        }
        i := i + 1;
      }
      return None;
    }

    /** add: a declaration of an identifier already present is refused with a
        warning and the list is left unchanged; otherwise it is appended. */
    method Add(d: Decl) returns (added: bool, warning: Option<string>)
      modifies this`elements
      ensures (elements, added) == AddResult(old(elements), d)
      ensures added <==> warning.None?
      ensures !added ==> warning == Some("Multiple declarations with the same name: " + d.identifier)
      ensures old(Valid()) ==> Valid()
    {
      var found := Find(d.identifier);
      if found.Some? {
        return false, Some("Multiple declarations with the same name: " + d.identifier);
      }
      elements := elements + [d];
      return true, None;
    }
  }
}
