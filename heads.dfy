// The runtime's set head (_Head.java): a circular doubly linked list whose
// head is its own successor and predecessor when the set is empty.  Links
// and heads are both linkages; `isHead` tells them apart, and `suc()` /
// `pred()` give none when they would reach the head.

module Heads {

  class Linkage {
    const isHead: bool
    var SUC: Linkage?
    var PRED: Linkage?
    /** For a head: its members from first to last. */
    ghost var members: seq<Linkage>

    /** The list is circular through the head, in member order. */
    ghost predicate Valid()
      reads this, members
    {
      isHead &&
      (forall i :: 0 <= i < |members| ==> !members[i].isHead) &&
      (forall i, j :: 0 <= i < j < |members| ==> members[i] != members[j]) &&
      SUC == (if |members| == 0 then this else members[0]) &&
      PRED == (if |members| == 0 then this else members[|members| - 1]) &&
      (forall i {:trigger members[i].SUC} :: 0 <= i < |members| ==>
         members[i].SUC == (if i + 1 < |members| then members[i + 1] else this)) &&
      (forall i {:trigger members[i].PRED} :: 0 <= i < |members| ==>
         members[i].PRED == (if i > 0 then members[i - 1] else this))
    }

    /** new _Head: no members, SUC and PRED are the head itself. */
    constructor Head()
      ensures Valid() && members == []
      ensures SUC == this && PRED == this
    {
      isHead := true;
      members := [];
      new;
      SUC := this;
      PRED := this;
    }

    /** A link that is in no set. */
    constructor Link()
      ensures !isHead && SUC == null && PRED == null
    {
      isHead := false;
      SUC := null;
      PRED := null;
    }

    /** suc: the successor, or none when it is the head. */
    function Suc(): (r: Linkage?)
      reads this
      ensures r != null ==> r == SUC && !r.isHead
      ensures r == null ==> SUC == null || SUC.isHead
    {
      if SUC != null && !SUC.isHead then SUC else null
    }

    /** pred: the predecessor, or none when it is the head. */
    function Pred(): (r: Linkage?)
      reads this
      ensures r != null ==> r == PRED && !r.isHead
      ensures r == null ==> PRED == null || PRED.isHead
    {
      if PRED != null && !PRED.isHead then PRED else null
    }

    /** first: the first member, none for an empty set. */
    function First(): (r: Linkage?)
      reads this, members
      requires Valid()
      ensures r == (if |members| == 0 then null else members[0])
    {
      Suc()
    }

    /** last: the last member, none for an empty set. */
    function Last(): (r: Linkage?)
      reads this, members
      requires Valid()
      ensures r == (if |members| == 0 then null else members[|members| - 1])
    {
      Pred()
    }

    /** empty: SUC is the head itself exactly when there are no members. */
    method Empty() returns (r: bool)
      requires Valid()
      ensures r <==> |members| == 0
    {
      r := SUC == this;
    }

    /** cardinal: the members reached from first by suc. */
    method Cardinal() returns (n: int)
      requires Valid()
      ensures n == |members|
    {
      n := 0;
      var ptr := First();
      while ptr != null
        invariant 0 <= n <= |members|
        invariant ptr == (if n < |members| then members[n] else null)
        decreases |members| - n
      {
        assert members[n].SUC == (if n + 1 < |members| then members[n + 1] else this);
        n := n + 1;
        ptr := ptr.Suc();
      }
    }

    /** out, for the first member of the set `h` (the only use `clear`
        makes of it): the head is joined to the second member and the link
        leaves the set. */
    method Out(h: Linkage)
      requires h.Valid() && |h.members| > 0 && h.members[0] == this
      modifies this, h, SUC
      ensures h.Valid()
      ensures h.members == old(h.members[1..])
      ensures SUC == null && PRED == null
    {
      ghost var m := h.members;
      ghost var n := |m|;
      assert m[0].PRED == h;
      assert m[0].SUC == (if 1 < n then m[1] else h);
      var p := PRED;
      var s := SUC;
      p.SUC := s;
      s.PRED := p;
      SUC := null;
      PRED := null;
      h.members := m[1..];
      ghost var r := h.members;
      forall i | 0 <= i < |r|
        ensures r[i].SUC == (if i + 1 < |r| then r[i + 1] else h)
        ensures r[i].PRED == (if i > 0 then r[i - 1] else h)
      {
        assert r[i] == m[i + 1];
        assert old(m[i + 1].SUC) == (if i + 2 < n then m[i + 2] else h);
        assert old(m[i + 1].PRED) == m[i];
      }
    }

    /** clear: removes the first member until there is none. */
    method Clear()
      requires Valid()
      modifies this, members
      ensures Valid() && members == []
      ensures forall i :: 0 <= i < |old(members)| ==> old(members)[i].SUC == null && old(members)[i].PRED == null
    {
      ghost var all := members;
      var x := First();
      while x != null
        invariant Valid()
        invariant x == (if |members| == 0 then null else members[0])
        invariant forall i, j :: 0 <= i < j < |all| ==> all[i] != all[j]
        invariant |members| <= |all| && members == all[|all| - |members|..]
        invariant forall i :: 0 <= i < |all| - |members| ==> all[i].SUC == null && all[i].PRED == null
        decreases |members|
      {
        ghost var before := members;
        assert members[0].SUC == (if 1 < |members| then members[1] else this);
        x.Out(this);
        assert members == before[1..];
        x := First();
      }
    }
  }
}
