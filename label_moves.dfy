// Moving the labels of a compound statement to an enclosing scope, shared by
// BlockDeclaration.parseMaybeBlock and MaybeBlockDeclaration.moveLabelsFrom:
// the walk outward along declaredIn that picks the receiving scope, and the
// move itself (append every label in order, then clear the source list).

module LabelMoves {
  import opened Util
  import opened Scopes

  // ---------------------------------------------------------------------------
  // The walk outward
  // ---------------------------------------------------------------------------

  /** Every scope on the enclosing chain of `s` is `s` or lies outside it. */
  lemma {:induction false} EnclosingChainBelow(a: seq<Scope>, s: Option<nat>)
    requires Valid(a) && Before(s, |a|)
    ensures forall k :: 0 <= k < |EnclosingChain(a, s)| ==> EnclosingChain(a, s)[k] <= s.value
    decreases if s.Some? then s.value + 1 else 0
  {
    if s.Some? {
      ValidAt(a, s.value);
      var rest := EnclosingChain(a, a[s.value].declaredIn);
      EnclosingChainBelow(a, a[s.value].declaredIn);
      assert EnclosingChain(a, s) == [s.value] + rest;
    }
  }

  /** `enc = s; while (skip(enc)) enc = enc.declaredIn;`: the first scope
      outward from `s` that `skip` does not pass over.  None when the walk
      runs past the outermost scope, where the source dereferences null. */
  function SkipOutward(a: seq<Scope>, s: Option<nat>, skip: Scope -> bool): (r: Option<nat>)
    requires Valid(a) && Before(s, |a|)
    ensures r.Some? ==> r.value < |a| && !skip(a[r.value]) && r.value in EnclosingChain(a, s)
    decreases if s.Some? then s.value + 1 else 0
  {
    if s.None? then None
    else if skip(a[s.value]) then
      ValidAt(a, s.value);
      SkipOutward(a, a[s.value].declaredIn, skip)
    else s
  }

  /** The scope found is the nearest one: every scope the walk passes before
      it (all the chain when it finds none) is skipped. */
  lemma {:induction false} SkipOutwardIsNearest(a: seq<Scope>, s: Option<nat>, skip: Scope -> bool)
    requires Valid(a) && Before(s, |a|)
    ensures var r := SkipOutward(a, s, skip);
      forall k :: 0 <= k < |EnclosingChain(a, s)| && (r.None? || EnclosingChain(a, s)[k] > r.value) ==>
        skip(a[EnclosingChain(a, s)[k]])
    decreases if s.Some? then s.value + 1 else 0
  {
    if s.Some? {
      ValidAt(a, s.value);
      var d := a[s.value].declaredIn;
      var rest := EnclosingChain(a, d);
      assert EnclosingChain(a, s) == [s.value] + rest;
      EnclosingChainBelow(a, s);
      if skip(a[s.value]) {
        SkipOutwardIsNearest(a, d, skip);
        var r := SkipOutward(a, s, skip);
        forall k | 0 < k < |EnclosingChain(a, s)| && (r.None? || EnclosingChain(a, s)[k] > r.value)
          ensures skip(a[EnclosingChain(a, s)[k]])
        {
          assert EnclosingChain(a, s)[k] == rest[k - 1];
        }
      }
    }
  }

  /** The walk loop itself. */
  method WalkOutward(a: seq<Scope>, s: Option<nat>, skip: Scope -> bool) returns (r: Option<nat>)
    requires Valid(a) && Before(s, |a|)
    ensures r == SkipOutward(a, s, skip)
  {
    r := s;
    while r.Some? && skip(a[r.value])
      invariant Before(r, |a|)
      invariant SkipOutward(a, r, skip) == SkipOutward(a, s, skip)
      decreases if r.Some? then r.value + 1 else 0
    {
      ValidAt(a, r.value);
      r := a[r.value].declaredIn;
    }
  }

  // ---------------------------------------------------------------------------
  // The move
  // ---------------------------------------------------------------------------

  /** `for(lab : from.labelList) to.labelList.add(lab); from.labelList.clear();` */
  function MovedLabels(a: seq<Scope>, from: nat, to: nat): (r: seq<Scope>)
    requires Valid(a) && from < |a| && to < |a| && from != to
    ensures |r| == |a| && Valid(r)
  {
    var t := a[to].(labels := a[to].labels + a[from].labels);
    ValidAt(a, to);
    UpdatePreservesValid(a, to, t);
    var b := a[to := t];
    ValidAt(b, from);
    UpdatePreservesValid(b, from, b[from].(labels := []));
    b[from := b[from].(labels := [])]
  }

  /** Every label of the arena, scope by scope. */
  function LabelBag(a: seq<Scope>): multiset<Label>
  {
    if a == [] then multiset{} else LabelBag(a[..|a| - 1]) + multiset(a[|a| - 1].labels)
  }

  /** Replacing one scope changes the arena's labels by that scope's labels. */
  lemma {:induction false} LabelBagUpdate(a: seq<Scope>, i: nat, s: Scope)
    requires i < |a|
    ensures LabelBag(a[i := s]) + multiset(a[i].labels) == LabelBag(a) + multiset(s.labels)
    decreases |a|
  {
    var b := a[i := s];
    var n := |a| - 1;
    var x, y := multiset(a[i].labels), multiset(s.labels);
    if i == n {
      assert b[..n] == a[..n];
      AddSwap(LabelBag(a[..n]), y, x);
    } else {
      var p := LabelBag(a[..n][i := s]);
      var z := multiset(a[n].labels);
      assert b[..n] == a[..n][i := s];
      assert LabelBag(b) == p + z;
      LabelBagUpdate(a[..n], i, s);
      assert p + x == LabelBag(a[..n]) + y;
      AddSwap(p, z, x);
      AddSwap(LabelBag(a[..n]), y, z);
    }
  }

  lemma AddSwap(p: multiset<Label>, x: multiset<Label>, y: multiset<Label>)
    ensures p + x + y == p + y + x
  {
    assert forall e :: (p + x + y)[e] == (p + y + x)[e];
  }

  /** The move only relocates labels: the block loses them, the target gains
      them at the end of its list in order, and nothing else changes. */
  lemma MovedLabelsEffect(a: seq<Scope>, from: nat, to: nat)
    requires Valid(a) && from < |a| && to < |a| && from != to
    ensures var r := MovedLabels(a, from, to);
      r[to].labels == a[to].labels + a[from].labels && r[from].labels == [] &&
      (forall x :: 0 <= x < |a| ==> r[x] == a[x].(labels := r[x].labels)) &&
      (forall x :: 0 <= x < |a| && x != from && x != to ==> r[x] == a[x])
  {
  }

  /** No label is lost or duplicated by the move. */
  lemma MovedLabelsKeepsAll(a: seq<Scope>, from: nat, to: nat)
    requires Valid(a) && from < |a| && to < |a| && from != to
    ensures LabelBag(MovedLabels(a, from, to)) == LabelBag(a)
  {
    var b := a[to := a[to].(labels := a[to].labels + a[from].labels)];
    assert MovedLabels(a, from, to) == b[from := b[from].(labels := [])];
    MoveBag(a, from, to);
  }

  lemma MoveBag(a: seq<Scope>, from: nat, to: nat)
    requires from < |a| && to < |a| && from != to
    ensures var b := a[to := a[to].(labels := a[to].labels + a[from].labels)];
      LabelBag(b[from := b[from].(labels := [])]) == LabelBag(a)
  {
    var t := a[to].(labels := a[to].labels + a[from].labels);
    var b := a[to := t];
    var f := b[from].(labels := []);
    LabelBagUpdate(a, to, t);
    LabelBagUpdate(b, from, f);
    var x, y, z := multiset(a[to].labels), multiset(a[from].labels), multiset(t.labels);
    assert z == x + y;
    assert b[from].labels == a[from].labels;
    Cancel(LabelBag(b), LabelBag(a) + y, x);
    Cancel(LabelBag(b[from := f]), LabelBag(a), y);
  }

  lemma Cancel(p: multiset<Label>, q: multiset<Label>, z: multiset<Label>)
    requires p + z == q + z
    ensures p == q
  {
    assert forall e :: p[e] == (p + z)[e] - z[e];
  }

  /** The move as the two loops of the source run it. */
  method MoveLabels(a: seq<Scope>, from: nat, to: nat) returns (r: seq<Scope>)
    requires Valid(a) && from < |a| && to < |a| && from != to
    ensures r == MovedLabels(a, from, to)
  {
    var ls := a[from].labels;
    var t := a[to].labels;
    for i := 0 to |ls|
      invariant t == a[to].labels + ls[..i]
    {
      t := t + [ls[i]];
    }
    assert ls[..|ls|] == ls;
    var b := a[to := a[to].(labels := t)];
    r := b[from := b[from].(labels := [])];
  }
}
