// Helpers shared by the whole model: options, the ASCII character classes the
// Java code relies on (Character.isDigit, isLetter, isWhitespace, toUpperCase),
// decimal rendering of integers, Java's String.indexOf and list joining.

module Util {

  datatype Option<T> = None | Some(value: T)

  // ---------------------------------------------------------------------------
  // Characters
  // ---------------------------------------------------------------------------

  predicate IsDigit(c: char) { '0' <= c <= '9' }

  predicate IsLetter(c: char) { 'a' <= c <= 'z' || 'A' <= c <= 'Z' }

  predicate IsLetterOrDigit(c: char) { IsLetter(c) || IsDigit(c) }

  /** Java's Character.isWhitespace on the ASCII range. */
  predicate IsWhitespace(c: char)
  {
    c == ' ' || '\t' <= c <= '\r' || '\U{1C}' <= c <= '\U{1F}'
  }

  function UpperChar(c: char): (r: char)
    ensures IsLetter(c) <==> IsLetter(r)
    ensures !('a' <= r <= 'z')
    ensures 'A' <= c <= 'Z' || !IsLetter(c) ==> r == c
  {
    if 'a' <= c <= 'z' then (c as int - 32) as char else c
  }

  function LowerChar(c: char): (r: char)
    ensures !('A' <= r <= 'Z')
    ensures 'a' <= c <= 'z' || !IsLetter(c) ==> r == c
  {
    if 'A' <= c <= 'Z' then (c as int + 32) as char else c
  }

  function Upper(s: string): (r: string)
    ensures |r| == |s|
    ensures forall i :: 0 <= i < |s| ==> r[i] == UpperChar(s[i])
  {
    if s == [] then [] else [UpperChar(s[0])] + Upper(s[1..])
  }

  /** Java's String.equalsIgnoreCase: same length, and every pair of characters
      is equal, equal after upper-casing, or equal after lower-casing that;
      compared from the first character on. */
  predicate EqualsIgnoreCase(a: string, b: string)
    decreases |a|
  {
    |a| == |b| && (a == [] || (CharEqualsIgnoreCase(a[0], b[0]) && EqualsIgnoreCase(a[1..], b[1..])))
  }

  predicate CharEqualsIgnoreCase(x: char, y: char)
  {
    x == y || UpperChar(x) == UpperChar(y) || LowerChar(UpperChar(x)) == LowerChar(UpperChar(y))
  }

  /** On ASCII, ignoring case is the same as comparing upper-cased strings. */
  lemma {:induction false} EqualsIgnoreCaseIffUpper(a: string, b: string)
    ensures EqualsIgnoreCase(a, b) <==> Upper(a) == Upper(b)
    decreases |a|
  {
    if |a| == |b| && a != [] {
      EqualsIgnoreCaseIffUpper(a[1..], b[1..]);
      assert Upper(a) == [UpperChar(a[0])] + Upper(a[1..]);
      assert Upper(b) == [UpperChar(b[0])] + Upper(b[1..]);
      if Upper(a) == Upper(b) {
        assert Upper(a)[1..] == Upper(a[1..]);
        assert Upper(b)[1..] == Upper(b[1..]);
      }
      assert CharEqualsIgnoreCase(a[0], b[0]) <==> UpperChar(a[0]) == UpperChar(b[0]);
    }
  }

  lemma {:induction false} EqualsIgnoreCaseReflexive(a: string)
    ensures EqualsIgnoreCase(a, a)
    decreases |a|
  {
    if a != [] {
      EqualsIgnoreCaseReflexive(a[1..]);
    }
  }

  lemma {:induction false} EqualsIgnoreCaseSymmetric(a: string, b: string)
    requires EqualsIgnoreCase(a, b)
    ensures EqualsIgnoreCase(b, a)
  {
    EqualsIgnoreCaseIffUpper(a, b);
    EqualsIgnoreCaseIffUpper(b, a);
  }

  // ---------------------------------------------------------------------------
  // Decimal rendering (Java's string concatenation of an int)
  // ---------------------------------------------------------------------------

  function DigitChar(d: nat): (c: char)
    requires d < 10
    ensures IsDigit(c)
  {
    ('0' as int + d) as char
  }

  predicate AllDigits(s: string) { forall i :: 0 <= i < |s| ==> IsDigit(s[i]) }

  function NatToString(n: nat): (r: string)
    decreases n
  {
    if n < 10 then [DigitChar(n)] else NatToString(n / 10) + [DigitChar(n % 10)]
  }

  function ParseDigits(s: string): nat
    requires AllDigits(s)
  {
    if s == [] then 0 else ParseDigits(s[..|s| - 1]) * 10 + (s[|s| - 1] as int - '0' as int)
  }

  /** Decimal rendering is non-empty, all digits, without a leading zero, and
      reading the digits back gives the number. */
  lemma {:induction false} NatToStringRoundTrip(n: nat)
    ensures |NatToString(n)| > 0 && AllDigits(NatToString(n))
    ensures NatToString(n)[0] == '0' ==> n == 0
    ensures ParseDigits(NatToString(n)) == n
    decreases n
  {
    if n >= 10 {
      NatToStringRoundTrip(n / 10);
      var s := NatToString(n);
      assert s[..|s| - 1] == NatToString(n / 10);
    }
  }

  lemma NatToStringInjective(m: nat, n: nat)
    requires NatToString(m) == NatToString(n)
    ensures m == n
  {
    NatToStringRoundTrip(m);
    NatToStringRoundTrip(n);
  }

  function IntToString(i: int): (r: string)
  {
    if i < 0 then "-" + NatToString(-i) else NatToString(i)
  }

  lemma IntToStringInjective(i: int, j: int)
    requires IntToString(i) == IntToString(j)
    ensures i == j
  {
    var m: nat := if i < 0 then -i else i;
    var n: nat := if j < 0 then -j else j;
    NatToStringRoundTrip(m);
    NatToStringRoundTrip(n);
    if i < 0 && j < 0 {
      assert IntToString(i)[1..] == NatToString(m);
      assert IntToString(j)[1..] == NatToString(n);
      NatToStringInjective(m, n);
    } else if i >= 0 && j >= 0 {
      NatToStringInjective(m, n);
    }
  }

  // ---------------------------------------------------------------------------
  // Sequences of strings
  // ---------------------------------------------------------------------------

  /** The items joined by `sep` (no separator before the first, none after the last). */
  function Join(xs: seq<string>, sep: string): string
  {
    if |xs| == 0 then ""
    else if |xs| == 1 then xs[0]
    else Join(xs[..|xs| - 1], sep) + sep + xs[|xs| - 1]
  }

  lemma JoinSnoc(xs: seq<string>, y: string, sep: string)
    requires |xs| >= 1
    ensures Join(xs + [y], sep) == Join(xs, sep) + sep + y
  {
    assert (xs + [y])[..|xs|] == xs;
  }

  /** Appending to a list made of two parts appends to the second part. */
  lemma SnocAfter<T>(names: seq<T>, lead: seq<T>, rest: seq<T>, e: T)
    requires names == lead + rest
    ensures names + [e] == lead + (rest + [e])
  {
  }

  /** Appending one more item to a rendered, separated list. */
  lemma JoinExtend(lead: string, s: string, names: seq<string>, e: string, sep: string)
    requires |names| >= 1 && s == lead + Join(names, sep)
    ensures s + sep + e == lead + Join(names + [e], sep)
  {
    JoinSnoc(names, e, sep);
    AppendAssoc(lead, Join(names, sep), sep, e);
  }

  lemma AppendAssoc<T>(a: seq<T>, b: seq<T>, c: seq<T>, d: seq<T>)
    ensures (a + b) + c + d == a + (b + c + d)
  {
  }

  /** One more element of a prefix. */
  lemma TakeSnoc<T>(xs: seq<T>, i: nat)
    requires i < |xs|
    ensures xs[..i + 1] == xs[..i] + [xs[i]]
  {
  }

  /** The middle of a three-part concatenation is found at its offset. */
  lemma MiddleSlice<T>(a: seq<T>, m: seq<T>, b: seq<T>)
    ensures (a + m + b)[|a|..|a| + |m|] == m
    ensures (a + m + b)[..|a|] == a
  {
    assert (a + m + b)[|a|..|a| + |m|] == (a + (m + b))[|a|..][..|m|];
  }

  /** Joining from the front: the first item, the separator, the rest joined. */
  lemma {:induction false} JoinCons(x: string, xs: seq<string>, sep: string)
    requires |xs| >= 1
    ensures Join([x] + xs, sep) == x + sep + Join(xs, sep)
    decreases |xs|
  {
    if |xs| > 1 {
      var init := xs[..|xs| - 1];
      assert ([x] + xs)[..|xs|] == [x] + init;
      JoinCons(x, init, sep);
    } else {
      assert [x] + xs == [x, xs[0]];
    }
  }

  function Concat(xs: seq<string>): string
  {
    if |xs| == 0 then "" else Concat(xs[..|xs| - 1]) + xs[|xs| - 1]
  }

  function Repeat(s: string, n: nat): (r: string)
    ensures |r| == n * |s|
  {
    if n == 0 then "" else Repeat(s, n - 1) + s
  }

  /** Cutting a string at every occurrence of `sep`. */
  function Split(s: string, sep: char): (r: seq<string>)
    ensures |r| > 0
  {
    if |s| == 0 then [""]
    else
      var rest := Split(s[..|s| - 1], sep);
      if s[|s| - 1] == sep then rest + [""]
      else rest[..|rest| - 1] + [rest[|rest| - 1] + [s[|s| - 1]]]
  }

  lemma {:induction false} SplitAppendPlain(s: string, t: string, sep: char)
    requires sep !in t
    ensures Split(s + t, sep) ==
            Split(s, sep)[..|Split(s, sep)| - 1] + [Split(s, sep)[|Split(s, sep)| - 1] + t]
    decreases |t|
  {
    var S := Split(s, sep);
    var n := |S|;
    if |t| == 0 {
      assert s + t == s;
      assert S[n - 1] + t == S[n - 1];
      assert S[..n - 1] + [S[n - 1]] == S;
    } else {
      var t' := t[..|t| - 1];
      var c := t[|t| - 1];
      SplitAppendPlain(s, t', sep);
      assert s + t == (s + t') + [c];
      SplitPlainChar(s + t', c, sep);
      var rest := Split(s + t', sep);
      assert rest[..|rest| - 1] == S[..n - 1];
      assert S[n - 1] + t' + [c] == S[n - 1] + t;
    }
  }

  /** Appending a character other than the separator extends the last piece. */
  lemma SplitPlainChar(s: string, c: char, sep: char)
    requires c != sep
    ensures var R := Split(s, sep); Split(s + [c], sep) == R[..|R| - 1] + [R[|R| - 1] + [c]]
  {
    assert (s + [c])[..|s + [c]| - 1] == s;
  }

  lemma SplitAppendSep(s: string, sep: char)
    ensures Split(s + [sep], sep) == Split(s, sep) + [""]
  {
    assert (s + [sep])[..|s + [sep]| - 1] == s;
  }

  /** Joining items that do not contain the separator can be undone by Split. */
  lemma {:induction false} SplitJoin(xs: seq<string>, sep: char)
    requires |xs| > 0
    requires forall i :: 0 <= i < |xs| ==> sep !in xs[i]
    ensures Split(Join(xs, [sep]), sep) == xs
    decreases |xs|
  {
    if |xs| == 1 {
      SplitAppendPlain("", xs[0], sep);
      assert "" + xs[0] == xs[0];
    } else {
      var init := xs[..|xs| - 1];
      var x := xs[|xs| - 1];
      assert forall i :: 0 <= i < |init| ==> init[i] == xs[i];
      SplitJoin(init, sep);
      var j := Join(init, [sep]);
      assert init + [x] == xs;
      JoinSnoc(init, x, [sep]);
      SplitJoinStep(j, init, x, sep);
    }
  }

  /** SplitJoin for a list made of two parts, each free of the separator. */
  lemma SplitJoinConcat(xs: seq<string>, ys: seq<string>, sep: char)
    requires |xs + ys| > 0
    requires forall i :: 0 <= i < |xs| ==> sep !in xs[i]
    requires forall i :: 0 <= i < |ys| ==> sep !in ys[i]
    ensures Split(Join(xs + ys, [sep]), sep) == xs + ys
  {
    forall i | 0 <= i < |xs + ys| ensures sep !in (xs + ys)[i] {
      if i >= |xs| {
        assert (xs + ys)[i] == ys[i - |xs|];
      }
    }
    SplitJoin(xs + ys, sep);
  }

  /** One more separator and a plain piece add one piece to the split. */
  lemma SplitJoinStep(j: string, init: seq<string>, x: string, sep: char)
    requires Split(j, sep) == init && sep !in x
    ensures Split(j + [sep] + x, sep) == init + [x]
  {
    SplitAppendSep(j, sep);
    SplitAppendPlain(j + [sep], x, sep);
    var SA := Split(j + [sep], sep);
    assert SA == init + [""];
    assert SA[..|SA| - 1] == init;
    assert SA[|SA| - 1] + x == x;
  }


  // ---------------------------------------------------------------------------
  // Strings
  // ---------------------------------------------------------------------------

  predicate StartsWith(s: string, p: string) { |p| <= |s| && s[..|p|] == p }

  predicate EndsWith(s: string, suffix: string) { |suffix| <= |s| && s[|s| - |suffix|..] == suffix }

  predicate OccursAt(s: string, sub: string, k: int)
  {
    0 <= k && k + |sub| <= |s| && s[k..k + |sub|] == sub
  }

  function IndexOfFrom(s: string, sub: string, k: nat): (r: int)
    requires k <= |s|
    ensures r == -1 || (k <= r && OccursAt(s, sub, r))
    ensures r == -1 ==> forall j :: k <= j <= |s| ==> !OccursAt(s, sub, j)
    ensures r != -1 ==> forall j :: k <= j < r ==> !OccursAt(s, sub, j)
    decreases |s| - k
  {
    if OccursAt(s, sub, k) then k
    else if k == |s| then -1
    else IndexOfFrom(s, sub, k + 1)
  }

  /** Java's String.indexOf(sub, from): the first occurrence at or after `from`
      (clamped into 0..|s|), or -1. */
  function IndexOf(s: string, sub: string, from: int): (r: int)
    ensures r == -1 || ((r >= from || (sub == [] && r == |s|)) && OccursAt(s, sub, r))
    ensures r != -1 ==> forall j :: from <= j < r ==> !OccursAt(s, sub, j)
    ensures r == -1 ==> forall j :: from <= j ==> !OccursAt(s, sub, j)
  {
    var k := if from < 0 then 0 else if from > |s| then |s| else from;
    IndexOfFrom(s, sub, k)
  }

  function IndexOfChar(s: string, c: char): (r: int)
    ensures r == -1 <==> c !in s
    ensures r != -1 ==> 0 <= r < |s| && s[r] == c && c !in s[..r]
  {
    if c !in s then -1
    else if s[0] == c then 0
    else 1 + IndexOfChar(s[1..], c)
  }

  /** Java's String.stripLeading on ASCII whitespace. */
  function StripLeading(s: string): (r: string)
    ensures |r| <= |s| && r == s[|s| - |r|..]
    ensures forall i :: 0 <= i < |s| - |r| ==> IsWhitespace(s[i])
    ensures |r| > 0 ==> !IsWhitespace(r[0])
  {
    if s == [] || !IsWhitespace(s[0]) then s else StripLeading(s[1..])
  }
}
