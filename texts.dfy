// The runtime's text reference (_TXT): a window of LENGTH characters,
// starting at START, on a shared character array (the text object), with a
// current position POS counted from zero.  Subtexts share the object, so a
// character written through one is seen through every other.  Notext is
// null.

module Texts {

  class Txt {
    const obj: array<char>
    const constant: bool
    const start: nat
    const length: nat
    var pos: nat

    /** The window lies inside the object, and POS inside the window (POS =
        LENGTH is the position after the last character). */
    ghost predicate Valid()
      reads this
    {
      start + length <= obj.Length && pos <= length
    }

    /** edText: the characters of the text (START, LENGTH and the object
        are fixed, so only the object's contents are read). */
    function Chars(): (r: string)
      reads obj
      requires start + length <= obj.Length
      ensures |r| == length
    {
      obj[start..start + length]
    }

    /** A text on `o` from `first`, `n` characters long, at its first position. */
    constructor On(o: array<char>, isConstant: bool, first: nat, n: nat)
      requires first + n <= o.Length
      ensures obj == o && constant == isConstant && start == first && length == n && pos == 0
      ensures Valid()
    {
      obj := o;
      constant := isConstant;
      start := first;
      length := n;
      pos := 0;
    }
  }

  /** `new _TXT(s)`: a new, writable text object holding `s`. */
  method Make(s: string) returns (t: Txt)
    ensures fresh(t) && fresh(t.obj) && t.Valid()
    ensures t.Chars() == s && t.pos == 0 && t.start == 0 && !t.constant
  {
    var o := new char[|s|](i requires 0 <= i < |s| => s[i]);
    t := new Txt.On(o, false, 0, |s|);
    assert o[0..|s|] == s;
  }

  /** The Simula range rule of `t.sub(i, n)`, with `i` counted from one. */
  predicate SubInRange(length: nat, i: int, n: int)
  {
    1 <= i && 0 <= n && i + n <= length + 1
  }

  /** `_TXT.sub(t, i, n)` within range: notext for n = 0, else a text on the
      same object holding characters i .. i+n-1 of t. */
  method SubText(t: Txt, i: int, n: int) returns (r: Txt?)
    requires t.Valid() && SubInRange(t.length, i, n)
    ensures n == 0 <==> r == null
    ensures r != null ==> fresh(r) && r.Valid() && r.obj == t.obj && r.constant == t.constant
    ensures r != null ==> r.start == t.start + i - 1 && r.length == n && r.pos == 0
    ensures r != null ==> r.Chars() == t.Chars()[i - 1..i - 1 + n]
  {
    if n == 0 {
      return null;
    }
    r := new Txt.On(t.obj, t.constant, t.start + i - 1, n);
    assert r.Chars() == t.Chars()[i - 1..i - 1 + n] by {
      SliceOfSlice(t.obj[..], t.start, t.start + t.length, i - 1, i - 1 + n);
    }
  }

  lemma SliceOfSlice(s: seq<char>, a: nat, b: nat, i: nat, j: nat)
    requires a <= b <= |s| && i <= j <= b - a
    ensures s[a..b][i..j] == s[a + i..a + j]
  {
    forall k | 0 <= k < j - i ensures s[a..b][i..j][k] == s[a + i..a + j][k] {
      assert s[a..b][i..j][k] == s[a..b][i + k] == s[a + i + k];
    }
  }
}
