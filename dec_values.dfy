// The value-level logic of the DEC_Lib text procedures (_DEC_Lib.java):
// what compress keeps, how getitem delimits an item, the hash formula, and
// the subtext choices of from, scanto and skip, including the code as
// written where it departs from the DEC Handbook's definition.

module DecValues {
  import opened Util
  import opened Texts

  // ---------------------------------------------------------------------------
  // compress
  // ---------------------------------------------------------------------------

  /** The characters of `s` other than `c`, in order. */
  function Without(s: string, c: char): (r: string)
    ensures |r| <= |s|
  {
    if s == [] then [] else Without(s[..|s| - 1], c) + (if s[|s| - 1] == c then [] else [s[|s| - 1]])
  }

  /** No `c` is left, every other character is kept as often as it occurs,
      and the result is no longer than the text. */
  lemma {:induction false} WithoutProperties(s: string, c: char)
    ensures c !in Without(s, c)
    ensures multiset(Without(s, c)) == multiset(s)[c := 0]
    ensures |Without(s, c)| == |s| - multiset(s)[c] <= |s|
  {
    if s != [] {
      var init := s[..|s| - 1];
      var x := s[|s| - 1];
      WithoutProperties(init, c);
      assert s == init + [x];
      WithoutStep(init, x, c);
    }
  }

  lemma WithoutStep(init: string, x: char, c: char)
    requires c !in Without(init, c)
    requires multiset(Without(init, c)) == multiset(init)[c := 0]
    requires |Without(init, c)| == |init| - multiset(init)[c]
    ensures c !in Without(init + [x], c)
    ensures multiset(Without(init + [x], c)) == multiset(init + [x])[c := 0]
    ensures |Without(init + [x], c)| == |init + [x]| - multiset(init + [x])[c]
  {
    var s := init + [x];
    var w := Without(init, c);
    var d := if x == c then [] else [x];
    assert s[..|s| - 1] == init;
    assert Without(s, c) == w + d;
    assert multiset(s) == multiset(init) + multiset{x};
    BagStep(w, multiset(init), x, c);
  }

  /** Keeping one more character that is not `c`, or dropping a `c`. */
  lemma BagStep(w: string, m: multiset<char>, x: char, c: char)
    requires multiset(w) == m[c := 0]
    ensures multiset(w + (if x == c then [] else [x])) == (m + multiset{x})[c := 0]
  {
    if x == c {
      assert w + [] == w;
      assert (m + multiset{x})[c := 0] == m[c := 0];
    } else {
      assert multiset(w + [x]) == multiset(w) + multiset{x};
      assert (m + multiset{x})[c := 0] == m[c := 0] + multiset{x};
    }
  }

  lemma WithoutSnoc(s: string, c: char, p: nat)
    requires p < |s|
    ensures Without(s[..p + 1], c) == Without(s[..p], c) + (if s[p] == c then [] else [s[p]])
  {
    assert s[..p + 1][..p] == s[..p];
  }

  /** The DEC Handbook example: compress("AxBxCxDx", 'x') keeps "ABCD", which
      overwrites the first four characters and leaves "ABCDCxDx". */
  lemma CompressExample()
    ensures Without("AxBxCxDx", 'x') == "ABCD"
    ensures Without("AxBxCxDx", 'x') + "AxBxCxDx"[4..] == "ABCDCxDx"
  {
    assert "AxBxCxDx"[..0] == [];
    WithoutSnoc("AxBxCxDx", 'x', 0);
    WithoutSnoc("AxBxCxDx", 'x', 1);
    WithoutSnoc("AxBxCxDx", 'x', 2);
    WithoutSnoc("AxBxCxDx", 'x', 3);
    WithoutSnoc("AxBxCxDx", 'x', 4);
    WithoutSnoc("AxBxCxDx", 'x', 5);
    WithoutSnoc("AxBxCxDx", 'x', 6);
    WithoutSnoc("AxBxCxDx", 'x', 7);
    assert "AxBxCxDx"[..8] == "AxBxCxDx";
  }

  // ---------------------------------------------------------------------------
  // hash
  // ---------------------------------------------------------------------------

  /** Simula's mod: the remainder with the sign of the divisor. */
  function SimulaMod(i: int, j: int): (r: int)
    requires j != 0
    ensures j > 0 ==> 0 <= r < j
    ensures j < 0 ==> j < r <= 0
  {
    if j > 0 then i % j
    else if i % -j == 0 then 0
    else i % -j + j
  }

  /** The code points of the first, (for more than three characters) second
      and third, and last character of the stripped text, weighted 1, 8, 64
      and 512, plus the length of the whole text. */
  function HashSum(s: string, total: nat): int
    requires s != []
  {
    var a := s[0] as int;
    var b := if |s| > 3 then a + 8 * (s[1] as int) + 64 * (s[2] as int) else a;
    b + 512 * (s[|s| - 1] as int) + total
  }

  /** hash as written: None is the exception.  The test `s == null` can never
      hold, so a blank or empty text reaches `charAt(0)` and throws; the
      divisor 0 throws in mod. */
  function HashAsWritten(t: string, n: int): Option<int>
  {
    var s := StripLeading(t);
    if s == [] || n == 0 then None else Some(SimulaMod(HashSum(s, |t|), n))
  }

  /** Simula's t.Strip: the text without its trailing spaces. */
  function StripTrailingSpaces(s: string): (r: string)
    ensures |r| <= |s| && r == s[..|r|]
    ensures forall i :: |r| <= i < |s| ==> s[i] == ' '
    ensures |r| > 0 ==> r[|r| - 1] != ' '
  {
    if s == [] || s[|s| - 1] != ' ' then s else StripTrailingSpaces(s[..|s| - 1])
  }

  /** hash as the DEC Handbook defines it: the text is stripped at both ends
      (frontstrip(t.Strip)), and a blank text hashes to mod(t.length, n). */
  function Hash(t: string, n: int): (r: Option<int>)
    ensures r.None? <==> n == 0
  {
    if n == 0 then None
    else
      var s := StripLeading(StripTrailingSpaces(t));
      Some(if s == [] then SimulaMod(|t|, n) else SimulaMod(HashSum(s, |t|), n))
  }

  /** The hash of any text lies in 0 .. n-1. */
  lemma HashInRange(t: string, n: int)
    requires n > 0
    ensures Hash(t, n).Some? && 0 <= Hash(t, n).value < n
  {
  }

  /** On a text with a non-blank character and no trailing space the code
      and the definition agree. */
  lemma HashAgreesOnNonBlank(t: string, n: int)
    requires StripLeading(t) != [] && t[|t| - 1] != ' '
    ensures HashAsWritten(t, n) == Hash(t, n)
  {
  }

  /** The code strips only the leading blanks: on "ab  " it hashes the
      characters a, b, space, space, where the definition hashes a and b. */
  lemma HashAsWrittenKeepsTrailingBlanks(n: int)
    requires n != 0
    ensures HashAsWritten("ab  ", n) == Some(SimulaMod(19317, n))
    ensures Hash("ab  ", n) == Some(SimulaMod(50277, n))
    ensures n > 50277 ==> HashAsWritten("ab  ", n) != Hash("ab  ", n)
  {
    assert StripTrailingSpaces("ab  ") == "ab" by {
      assert "ab  "[..3] == "ab " && "ab "[..2] == "ab";
    }
    assert StripLeading("ab  ") == "ab  " && StripLeading("ab") == "ab";
    assert HashSum("ab  ", 4) == 19317;
    assert HashSum("ab", 4) == 50277;
  }

  /** A text of blanks makes the code throw, where the definition gives
      mod(t.length, n). */
  lemma HashAsWrittenFailsOnBlank(n: int)
    requires n != 0
    ensures HashAsWritten("  ", n).None?
    ensures Hash("  ", n) == Some(SimulaMod(2, n))
  {
    TwoBlanksStrip();
  }

  lemma TwoBlanksStrip()
    ensures StripLeading("  ") == [] && StripLeading(StripTrailingSpaces("  ")) == []
  {
    assert StripLeading("  ") == StripLeading(" ") by { assert "  "[1..] == " "; }
    assert StripLeading(" ") == [] by { assert " "[1..] == ""; }
    TwoBlanksStripTrailing();
  }

  lemma TwoBlanksStripTrailing()
    ensures StripTrailingSpaces("  ") == []
  {
    assert StripTrailingSpaces(" ") == [] by { assert " "[..0] == ""; }
    assert "  "[..1] == " ";
  }

  // ---------------------------------------------------------------------------
  // getitem
  // ---------------------------------------------------------------------------

  /** GETITEM's states, FRACTION being the digits after a decimal point. */
  datatype ItemState = NULL | NUMBER | FRACTION | IDENTIFIER | SYMBOL

  /** The state the first character of an item selects. */
  function Opening(c: char): ItemState
  {
    if IsDigit(c) then NUMBER else if IsLetter(c) then IDENTIFIER else SYMBOL
  }

  /** The code as written: a number goes on over digits and points alike. */
  predicate ContinuesAsWritten(state: ItemState, c: char)
  {
    match state
    case NUMBER => IsDigit(c) || c == '.'
    case IDENTIFIER => IsLetterOrDigit(c)
    case _ => false
  }

  /** The length of the run of characters from `k` that `state` goes on over. */
  function SpanAsWritten(s: string, k: nat, state: ItemState): (r: nat)
    requires k <= |s|
    ensures k + r <= |s|
    ensures forall j :: k <= j < k + r ==> ContinuesAsWritten(state, s[j])
    ensures k + r < |s| ==> !ContinuesAsWritten(state, s[k + r])
    decreases |s| - k
  {
    if k == |s| || !ContinuesAsWritten(state, s[k]) then 0 else 1 + SpanAsWritten(s, k + 1, state)
  }

  /** The length of the item at the front of `rest` as the code delimits it. */
  function ItemLengthAsWritten(rest: string): nat
  {
    if rest == [] then 0 else 1 + SpanAsWritten(rest, 1, Opening(rest[0]))
  }

  /** The length of the run of digits from `k`. */
  function Digits(s: string, k: nat): (r: nat)
    requires k <= |s|
    ensures k + r <= |s|
    ensures forall j :: k <= j < k + r ==> IsDigit(s[j])
    ensures k + r < |s| ==> !IsDigit(s[k + r])
    decreases |s| - k
  {
    if k == |s| || !IsDigit(s[k]) then 0 else 1 + Digits(s, k + 1)
  }

  /** The length of the run of letters and digits from `k`. */
  function Word(s: string, k: nat): (r: nat)
    requires k <= |s|
    ensures k + r <= |s|
    ensures forall j :: k <= j < k + r ==> IsLetterOrDigit(s[j])
    ensures k + r < |s| ==> !IsLetterOrDigit(s[k + r])
    decreases |s| - k
  {
    if k == |s| || !IsLetterOrDigit(s[k]) then 0 else 1 + Word(s, k + 1)
  }

  /** The length of the item at the front of `rest` by the DEC Handbook's
      rules: an identifier is a letter and the letters and digits after it; a
      number is digits with at most one decimal point among them (a point that
      follows the digits joins them, and so do the digits after it); any
      other character is an item on its own. */
  function ItemLength(rest: string): (r: nat)
    ensures r <= |rest|
    ensures r == 0 <==> rest == []
  {
    if rest == [] then 0
    else match Opening(rest[0])
      case IDENTIFIER => 1 + Word(rest, 1)
      case NUMBER =>
        var d := 1 + Digits(rest, 1);
        if d < |rest| && rest[d] == '.' then d + 1 + Digits(rest, d + 1) else d
      case _ => 1
  }

  /** An item holds at most one decimal point, and only a number holds one. */
  lemma ItemHasAtMostOnePoint(rest: string, i: nat, j: nat)
    requires i < j < ItemLength(rest) && rest[i] == '.'
    ensures rest[j] != '.'
    ensures IsDigit(rest[0])
  {
  }

  /** The code as written takes "1.2.3" as one item; the definition ends the
      number before the second point. */
  lemma ItemLengthAsWrittenTakesTwoPoints()
    ensures ItemLengthAsWritten("1.2.3") == 5
    ensures ItemLength("1.2.3") == 3
  {
    var s := "1.2.3";
    assert SpanAsWritten(s, 5, NUMBER) == 0;
    assert Digits(s, 3) == 0;
    assert Digits(s, 2) == 1;
    assert Digits(s, 1) == 0;
  }

  /** With at most one point the code and the definition agree. */
  lemma ItemLengthAgreesOnWords(rest: string)
    requires rest != [] && !IsDigit(rest[0])
    ensures ItemLengthAsWritten(rest) == ItemLength(rest)
  {
    if IsLetter(rest[0]) {
      SpanIsWord(rest, 1);
    }
  }

  lemma {:induction false} SpanIsWord(s: string, k: nat)
    requires k <= |s|
    ensures SpanAsWritten(s, k, IDENTIFIER) == Word(s, k)
    decreases |s| - k
  {
    if k < |s| && IsLetterOrDigit(s[k]) {
      SpanIsWord(s, k + 1);
    }
  }

  // ---------------------------------------------------------------------------
  // from, scanto, skip: which subtext the code takes
  // ---------------------------------------------------------------------------

  /** A function result: the text itself, a subtext `t.sub(i, n)`, notext, or
      a Simula range error. */
  datatype Choice = Whole | Slice(i: int, n: int) | NoText | RangeError

  /** `t.sub(i, n)` on a text of `length` characters. */
  function SubChoice(length: nat, i: int, n: int): (r: Choice)
    ensures r == RangeError <==> !SubInRange(length, i, n)
  {
    if !SubInRange(length, i, n) then RangeError else if n == 0 then NoText else Slice(i, n)
  }

  /** from as written: the guards are `p < LENGTH` and `p < 0`. */
  function FromAsWritten(length: nat, p: int): Choice
  {
    if p < length then (if p < 0 then Whole else SubChoice(length, p, length - p + 1)) else NoText
  }

  /** from(t, 0) is a range error, and from(t, t.length) is notext, where the
      DEC Handbook gives t itself and the last character. */
  lemma FromAsWrittenAtTheEnds(length: nat)
    requires length > 0
    ensures FromAsWritten(length, 0) == RangeError
    ensures FromAsWritten(length, length) == NoText
  {
  }

  /** scanto as written, on a text at `start` within its object: the new POS
      and the subtext returned.  When `c` is found POS is left on it, not
      after it; when it is not found POS is set to START + LENGTH. */
  function ScanToAsWritten(start: nat, chars: string, pos: nat, c: char): (r: (int, Choice))
    requires pos <= |chars|
  {
    var index := IndexOfChar(chars[pos..], c);
    if index >= 0 then (pos + index, SubChoice(|chars|, pos + 1, index))
    else (start + |chars|, SubChoice(|chars|, pos + 1, |chars| - pos))
  }

  /** Found: the code leaves POS on the `c`, so the next scanto for `c`
      returns notext and does not move: it never gets past the first `c`. */
  lemma ScanToAsWrittenStaysOnFound(start: nat, chars: string, pos: nat, c: char)
    requires pos <= |chars| && c in chars[pos..]
    ensures var p := ScanToAsWritten(start, chars, pos, c).0;
      0 <= p < |chars| && chars[p] == c &&
      ScanToAsWritten(start, chars, p, c) == (p, NoText)
  {
    var index := IndexOfChar(chars[pos..], c);
    var p := pos + index;
    assert chars[pos..][index] == chars[p];
    assert chars[p..][0] == c;
  }

  /** Not found on a subtext that does not start its object: POS lands
      beyond the text. */
  lemma ScanToAsWrittenOvershoots(start: nat, chars: string, pos: nat, c: char)
    requires pos <= |chars| && c !in chars[pos..] && start > 0
    ensures ScanToAsWritten(start, chars, pos, c).0 > |chars|
  {
  }

  /** skip as written, on an object `main` holding the text at `start` with
      `length` characters: the loop bound is LENGTH - START, MAIN is indexed
      without START, and a hit also shortens LENGTH by the new POS.  The
      result is (POS, LENGTH, the copy returned or notext). */
  function SkipAsWritten(main: seq<char>, start: nat, length: nat, pos: nat, c: char): (r: (nat, int, Option<string>))
    requires start + length <= |main| && pos <= length
    decreases length - pos
  {
    if pos < length - start then
      if main[pos] != c then (pos, length - pos, Some(main[start..start + length][pos..]))
      else SkipAsWritten(main, start, length, pos + 1, c)
    else (pos, length, None)
  }

  /** On "aab" skipping 'a' moves POS to 2 but cuts LENGTH to 1, leaving POS
      outside the text; on the same characters at START 1 of "xaab" nothing
      is skipped, because MAIN[0] is read. */
  lemma SkipAsWrittenExamples()
    ensures SkipAsWritten("aab", 0, 3, 0, 'a') == (2, 1, Some("b"))
    ensures SkipAsWritten("xaab", 1, 3, 0, 'a') == (0, 3, Some("aab"))
  {
    assert "aab"[0..3] == "aab";
    assert "aab"[2..] == "b";
    assert "xaab"[1..4] == "aab";
    assert "aab"[0..] == "aab";
  }
}
