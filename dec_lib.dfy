// The DEC_Lib text procedures of _DEC_Lib.java on text references.  Those
// that change a text work in place on its POS or on the characters of its
// shared object; the others read a text or build a new one.  Where the code
// departs from the DEC Handbook (from, scanto, skip, getitem, hash) these
// methods follow the Handbook and DecValues holds the code as written.

module DecLib {
  import opened Util
  import opened Texts
  import opened DecValues

  /** checkextension: the name itself when it holds a '.', else a new text
      with the extension appended. */
  method CheckExtension(fileName: Txt, ext: Txt) returns (r: Txt)
    requires fileName.Valid() && ext.Valid()
    ensures '.' in fileName.Chars() ==> r == fileName
    ensures '.' !in fileName.Chars() ==> fresh(r) && r.Valid() && r.Chars() == fileName.Chars() + ext.Chars()
  {
    var f := fileName.Chars();
    if IndexOfChar(f, '.') >= 0 {
      return fileName;
    }
    r := Make(f + ext.Chars());
  }

  /** conc, conc2: a new text holding t1 followed by t2. */
  method Conc(t1: Txt, t2: Txt) returns (r: Txt)
    requires t1.Valid() && t2.Valid()
    ensures fresh(r) && r.Valid() && r.Chars() == t1.Chars() + t2.Chars()
  {
    r := Make(t1.Chars() + t2.Chars());
  }

  method Conc3(t1: Txt, t2: Txt, t3: Txt) returns (r: Txt)
    requires t1.Valid() && t2.Valid() && t3.Valid()
    ensures fresh(r) && r.Valid() && r.Chars() == t1.Chars() + t2.Chars() + t3.Chars()
  {
    r := Make(t1.Chars() + t2.Chars() + t3.Chars());
  }

  method Conc4(t1: Txt, t2: Txt, t3: Txt, t4: Txt) returns (r: Txt)
    requires t1.Valid() && t2.Valid() && t3.Valid() && t4.Valid()
    ensures fresh(r) && r.Valid() && r.Chars() == t1.Chars() + t2.Chars() + t3.Chars() + t4.Chars()
  {
    r := Make(t1.Chars() + t2.Chars() + t3.Chars() + t4.Chars());
  }

  method Conc5(t1: Txt, t2: Txt, t3: Txt, t4: Txt, t5: Txt) returns (r: Txt)
    requires t1.Valid() && t2.Valid() && t3.Valid() && t4.Valid() && t5.Valid()
    ensures fresh(r) && r.Valid()
    ensures r.Chars() == t1.Chars() + t2.Chars() + t3.Chars() + t4.Chars() + t5.Chars()
  {
    r := Make(t1.Chars() + t2.Chars() + t3.Chars() + t4.Chars() + t5.Chars());
  }

  /** depchar: stores `c` at position p (from one) when 1 <= p <= length,
      leaving POS after it; otherwise nothing happens. */
  method Depchar(t: Txt, p: int, c: char)
    requires t.Valid() && (0 < p <= t.length ==> !t.constant)
    modifies t, t.obj
    ensures t.Valid()
    ensures 0 < p <= t.length ==> t.obj[..] == old(t.obj[..])[t.start + p - 1 := c] && t.pos == p
    ensures 0 < p <= t.length ==> t.Chars() == old(t.Chars())[p - 1 := c]
    ensures !(0 < p <= t.length) ==> t.obj[..] == old(t.obj[..]) && t.pos == old(t.pos)
  {
    if 0 < p <= t.length {
      t.pos := p - 1;
      t.obj[t.start + t.pos] := c;
      t.pos := t.pos + 1;
    }
  }

  /** fetchar: the character at position p (from one) when 1 <= p <= length,
      leaving POS after it; otherwise char 0 and no change. */
  method Fetchar(t: Txt, p: int) returns (c: char)
    requires t.Valid()
    modifies t
    ensures t.Valid()
    ensures 0 < p <= t.length ==> c == t.Chars()[p - 1] && t.pos == p
    ensures !(0 < p <= t.length) ==> c == 0 as char && t.pos == old(t.pos)
  {
    c := 0 as char;
    if 0 < p <= t.length {
      t.pos := p - 1;
      c := t.obj[t.start + t.pos];
      t.pos := t.pos + 1;
    }
  }

  /** compress: the characters other than `c` are moved, in order, to the
      front of t; the rest of t is unchanged.  The result is that front part,
      or notext when nothing is kept.  POS ends after the last character
      stored, and is untouched when nothing is kept. */
  method Compress(t: Txt?, c: char) returns (r: Txt?)
    requires t != null ==> t.Valid() && !t.constant
    modifies if t != null then {t as object, t.obj as object} else {}
    ensures t == null ==> r == null
    ensures t != null ==> t.Valid()
    ensures t != null ==> t.obj[..] == Overwrite(old(t.obj[..]), t.start, Without(old(t.Chars()), c))
    ensures t != null ==> (r == null <==> Without(old(t.Chars()), c) == [])
    ensures t != null ==> t.pos == (if r == null then old(t.pos) else r.length)
    ensures t != null && r != null ==> fresh(r) && r.Valid() && r.obj == t.obj && r.start == t.start
    ensures t != null && r != null ==> r.Chars() == Without(old(t.Chars()), c)
  {
    if t == null {
      return null;
    }
    ghost var before := t.obj[..];
    ghost var w := Without(t.Chars(), c);
    var kept := MoveKept(t, c);
    // The code's test `pOut == 0` never holds; sub(t, 1, 0) is notext.
    r := SubText(t, 1, kept);
    OverwriteFront(before, t.start, w);
  }

  /** compress's loop: stores the kept characters from the front of t and
      counts them. */
  method MoveKept(t: Txt, c: char) returns (kept: nat)
    requires t.Valid() && !t.constant
    modifies t, t.obj
    ensures t.Valid() && kept == |Without(old(t.Chars()), c)|
    ensures t.obj[..] == Overwrite(old(t.obj[..]), t.start, Without(old(t.Chars()), c))
    ensures t.pos == (if kept == 0 then old(t.pos) else kept)
  {
    var tin := t.Chars();
    ghost var before := t.obj[..];
    var tinLen := t.length;
    var pOut := 1;
    for p := 0 to tinLen
      invariant t.Valid()
      invariant pOut == |Without(tin[..p], c)| + 1
      invariant t.obj[..] == Overwrite(before, t.start, Without(tin[..p], c))
      invariant t.pos == (if pOut == 1 then old(t.pos) else pOut - 1)
    {
      var ch := tin[p];
      WithoutSnoc(tin, c, p);
      if ch != c {
        Keep(t, pOut, ch, before, Without(tin[..p], c));
        pOut := pOut + 1;
      }
    }
    assert tin[..tinLen] == tin;
    kept := pOut - 1;
  }

  /** One step of compress: `depchar(t, pOut, ch)` appends `ch` to the kept
      characters `w` already stored at the front of t. */
  method Keep(t: Txt, pOut: nat, ch: char, ghost before: seq<char>, ghost w: seq<char>)
    requires t.Valid() && !t.constant && pOut == |w| + 1 <= t.length
    requires |before| == t.obj.Length && t.obj[..] == Overwrite(before, t.start, w)
    modifies t, t.obj
    ensures t.Valid() && t.pos == pOut
    ensures t.obj[..] == Overwrite(before, t.start, w + [ch])
  {
    ghost var o := t.obj[..];
    OverwriteSnoc(before, t.start, w, ch);
    Depchar(t, pOut, ch);
    assert t.obj[..] == o[t.start + |w| := ch];
  }

  /** The object `o` with `w` written over it from index `k`. */
  ghost function Overwrite(o: seq<char>, k: nat, w: seq<char>): seq<char>
    requires k + |w| <= |o|
  {
    o[..k] + w + o[k + |w|..]
  }

  lemma OverwriteSnoc(o: seq<char>, k: nat, w: seq<char>, x: char)
    requires k + |w| < |o|
    ensures Overwrite(o, k, w)[k + |w| := x] == Overwrite(o, k, w + [x])
  {
    assert o[k + |w|..][1..] == o[k + |w| + 1..];
  }

  lemma OverwriteFront(o: seq<char>, k: nat, w: seq<char>)
    requires k + |w| <= |o|
    ensures |Overwrite(o, k, w)| == |o|
    ensures Overwrite(o, k, w)[k..k + |w|] == w
  {
  }

  /** findtrigger: from POS on, the first character that occurs in
      `triggers`, with POS left after it; char 0 and POS unchanged when there
      is none. */
  method FindTrigger(master: Txt, triggers: Txt) returns (c: char)
    requires master.Valid() && triggers.Valid()
    modifies master
    ensures master.Valid()
    ensures var s := master.Chars(); var p := old(master.pos); var ts := triggers.Chars();
      (c == 0 as char && master.pos == p && forall k :: p <= k < |s| ==> s[k] !in ts) ||
      (p < master.pos && c == s[master.pos - 1] && c in ts && forall k :: p <= k < master.pos - 1 ==> s[k] !in ts)
  {
    var s := master.Chars();
    var ts := triggers.Chars();
    var i := master.pos;
    while i < master.length
      invariant old(master.pos) <= i <= master.length && master.pos == old(master.pos)
      invariant forall k :: old(master.pos) <= k < i ==> s[k] !in ts
    {
      var ch := s[i];
      if IndexOfChar(ts, ch) >= 0 {
        master.pos := i + 1;
        return ch;
      }
      i := i + 1;
    }
    return 0 as char;
  }

  /** from: the longest subtext of t starting at position p (from one):
      t itself for p <= 0, notext beyond the end. */
  method From(t: Txt, p: int) returns (r: Txt?)
    requires t.Valid()
    ensures p <= 0 ==> r == t
    ensures 0 < p <= t.length ==> r != null && fresh(r) && r.obj == t.obj && r.Valid() && r.Chars() == t.Chars()[p - 1..]
    ensures p > t.length ==> r == null
  {
    if p <= t.length {
      if p <= 0 {
        return t;
      }
      r := SubText(t, p, t.length - p + 1);
      return;
    }
    return null;
  }

  /** front: the subtext before POS; notext for notext or POS at the start. */
  method Front(t: Txt?) returns (r: Txt?)
    requires t != null ==> t.Valid()
    ensures t == null || t.pos == 0 <==> r == null
    ensures r != null ==> fresh(r) && t != null && r.obj == t.obj && r.Valid() && r.Chars() == t.Chars()[..t.pos]
  {
    if t != null {
      r := SubText(t, 1, t.pos);
      return;
    }
    return null;
  }

  /** frontcompare: the text from POS on begins with `config`. */
  function FrontCompare(s: Txt, config: Txt): (r: bool)
    reads s, s.obj, config, config.obj
    requires s.Valid() && config.Valid()
    ensures r <==> (s.pos + config.length <= s.length &&
      forall k :: 0 <= k < config.length ==> s.Chars()[s.pos + k] == config.Chars()[k])
  {
    StartsWith(s.Chars()[s.pos..], config.Chars())
  }

  /** getitem: past blanks from POS, the next item as a new text, with POS
      after it; an empty text when only blanks remain. */
  method GetItem(tt: Txt) returns (r: Txt)
    requires tt.Valid()
    modifies tt
    ensures tt.Valid() && fresh(r) && r.Valid()
    ensures var tail := tt.Chars()[old(tt.pos)..];
      var rest := StripLeading(tail);
      r.Chars() == rest[..ItemLength(rest)] &&
      tt.pos == old(tt.pos) + (|tail| - |rest|) + ItemLength(rest)
  {
    var s := tt.Chars();
    var tail := s[tt.pos..];
    var rest := StripLeading(tail);
    var p := ItemEnd(rest);
    tt.pos := tt.pos + (|tail| - |rest|) + p;
    r := Make(rest[..p]);
  }

  /** GETITEM's loop: the state machine over `rest` stops at the end of the
      item at its front. */
  method ItemEnd(rest: string) returns (p: nat)
    ensures p == ItemLength(rest)
  {
    var state := NULL;
    ghost var point := 0;
    p := 0;
    while p < |rest|
      invariant p <= |rest|
      invariant state == NULL <==> p == 0
      invariant state == SYMBOL ==> p == 1
      invariant p > 0 ==> Opening(rest[0]) == (if state == FRACTION then NUMBER else state)
      invariant state == IDENTIFIER ==> forall j :: 1 <= j < p ==> IsLetterOrDigit(rest[j])
      invariant state == NUMBER ==> forall j :: 1 <= j < p ==> IsDigit(rest[j])
      invariant state == FRACTION ==> 1 <= point < p && rest[point] == '.'
      invariant state == FRACTION ==> forall j :: 1 <= j < point ==> IsDigit(rest[j])
      invariant state == FRACTION ==> forall j :: point < j < p ==> IsDigit(rest[j])
    {
      var c := rest[p];
      match state {
        case NULL =>
          state := Opening(c);
        case SYMBOL =>
          break;
        case NUMBER =>
          if c == '.' {
            state := FRACTION;
            point := p;
          } else if !IsDigit(c) {
            break;
          }
        case FRACTION =>
          if !IsDigit(c) {
            break;
          }
        case IDENTIFIER =>
          if !IsLetterOrDigit(c) {
            break;
          }
      }
      p := p + 1;
    }
    if state == FRACTION {
      assert Digits(rest, 1) == point - 1;
    }
  }

  /** maketext: notext for n <= 0, else a new text of n copies of `c` at its
      first position. */
  method MakeText(c: char, n: int) returns (r: Txt?)
    ensures n <= 0 ==> r == null
    ensures n > 0 ==> r != null && fresh(r) && r.Valid() && r.pos == 0 && !r.constant
    ensures n > 0 ==> r != null && r.length == n && forall k :: 0 <= k < n ==> r.Chars()[k] == c
  {
    if n <= 0 {
      return null;
    }
    r := Make(seq(n, _ => c));
  }

  /** puttext: when `newstring` fits from POS and the text is writable, its
      characters replace those from POS on and POS moves past them; otherwise
      false and nothing changes. */
  method PutText(oldstring: Txt, newstring: Txt) returns (b: bool)
    requires oldstring.Valid() && newstring.Valid()
    modifies oldstring, oldstring.obj
    ensures oldstring.Valid()
    ensures b <==> old(oldstring.pos) + newstring.length <= oldstring.length && !oldstring.constant
    ensures b ==> var k := oldstring.start + old(oldstring.pos);
      oldstring.obj[..] == old(oldstring.obj[..k]) + old(newstring.Chars()) + old(oldstring.obj[k + newstring.length..]) &&
      oldstring.pos == old(oldstring.pos) + newstring.length
    ensures !b ==> oldstring.obj[..] == old(oldstring.obj[..]) && oldstring.pos == old(oldstring.pos)
  {
    var s := oldstring;
    if s.pos + newstring.length <= s.length && !s.constant {
      var src := newstring.Chars();
      var k := s.start + s.pos;
      forall j | 0 <= j < |src| {
        s.obj[k + j] := src[j];
      }
      s.pos := s.pos + |src|;
      return true;
    }
    return false;
  }

  /** rest: the subtext from POS on; notext when POS is at the end. */
  method Rest(t: Txt) returns (r: Txt?)
    requires t.Valid()
    ensures r == null <==> t.pos == t.length
    ensures r != null ==> fresh(r) && r.obj == t.obj && r.Valid() && r.Chars() == t.Chars()[t.pos..]
  {
    var pos := t.pos + 1;
    r := SubText(t, pos, t.length - pos + 1);
  }

  /** scanto: the subtext from POS up to the first `c` after POS (notext if
      it is empty), with POS left after that `c`; without a `c`, the rest of
      the text (notext if empty), with POS at the end.  IndexOfChar gives the
      first occurrence. */
  method ScanTo(t: Txt, c: char) returns (r: Txt?)
    requires t.Valid()
    modifies t
    ensures t.Valid()
    ensures var tail := t.Chars()[old(t.pos)..]; var i := IndexOfChar(tail, c);
      t.pos == (if i < 0 then t.length else old(t.pos) + i + 1)
    ensures var tail := t.Chars()[old(t.pos)..]; var i := IndexOfChar(tail, c);
      r == null <==> (if i < 0 then tail == [] else i == 0)
    ensures var tail := t.Chars()[old(t.pos)..]; var i := IndexOfChar(tail, c);
      r != null ==> fresh(r) && r.Valid() && r.Chars() == (if i < 0 then tail else tail[..i])
  {
    var s := t.Chars();
    var tail := s[t.pos..];
    var pos := t.pos + 1;
    var index := IndexOfChar(tail, c);
    if index >= 0 {
      assert s[pos - 1..pos - 1 + index] == tail[..index];
      t.pos := pos + index;
      r := SubText(t, pos, index);
    } else {
      t.pos := t.length;
      r := SubText(t, pos, t.length - pos + 1);
    }
  }

  /** search: 0 when either text is notext; otherwise the position (from
      one) of the first occurrence of t2 in t1 at or after POS, or
      t1.length + 1 when there is none. */
  function Search(t1: Txt?, t2: Txt?): (r: int)
    reads t1, t2, if t1 != null then {t1.obj} else {}, if t2 != null then {t2.obj} else {}
    requires t1 != null ==> t1.Valid()
    requires t2 != null ==> t2.Valid()
    ensures t1 == null || t2 == null ==> r == 0
    ensures t1 != null && t2 != null ==> t1.pos + 1 <= r <= t1.length + 1
    ensures t1 != null && t2 != null && r <= t1.length ==>
      OccursAt(t1.Chars(), t2.Chars(), r - 1) && forall j :: t1.pos <= j < r - 1 ==> !OccursAt(t1.Chars(), t2.Chars(), j)
    ensures t1 != null && t2 != null && r == t1.length + 1 ==>
      forall j :: t1.pos <= j < t1.length ==> !OccursAt(t1.Chars(), t2.Chars(), j)
  {
    if t1 == null || t2 == null then 0
    else
      var idx := IndexOf(t1.Chars(), t2.Chars(), t1.pos);
      if idx < 0 then t1.length + 1 else idx + 1
  }

  /** skip: POS moves past the run of `c` starting at POS; the result is a
      new text holding the rest from there, or notext when the run reaches
      the end.  LENGTH does not change. */
  method Skip(t: Txt, c: char) returns (r: Txt?)
    requires t.Valid()
    modifies t
    ensures t.Valid()
    ensures old(t.pos) <= t.pos && forall k :: old(t.pos) <= k < t.pos ==> t.Chars()[k] == c
    ensures t.pos < t.length ==> t.Chars()[t.pos] != c
    ensures r == null <==> t.pos == t.length
    ensures r != null ==> fresh(r) && r.Valid() && r.Chars() == t.Chars()[t.pos..]
  {
    var s := t.Chars();
    var pos := t.pos;
    while pos < t.length
      invariant old(t.pos) <= pos <= t.length && t.pos == old(t.pos)
      invariant forall k :: old(t.pos) <= k < pos ==> s[k] == c
    {
      if s[pos] != c {
        t.pos := pos;
        r := Make(s[pos..]);
        return;
      }
      pos := pos + 1;
    }
    t.pos := pos;
    return null;
  }

  /** startpos: the position (from one) of the text's first character
      within its object. */
  function StartPos(t: Txt): (r: int)
    reads t
    ensures r >= 1 && r - 1 == t.start
  {
    t.start + 1
  }

  /** upcompare: from POS on, master upper-cased begins with `test`. */
  function UpCompare(master: Txt, test: Txt): (r: bool)
    reads master, master.obj, test, test.obj
    requires master.Valid() && test.Valid()
    ensures r <==> (master.pos + test.length <= master.length &&
      forall k :: 0 <= k < test.length ==> UpperChar(master.Chars()[master.pos + k]) == test.Chars()[k])
  {
    StartsWith(Upper(master.Chars())[master.pos..], test.Chars())
  }

  /** upto: notext for p <= 0, t itself for p beyond the end, else the
      subtext of the p - 1 characters before position p. */
  method Upto(t: Txt, p: int) returns (r: Txt?)
    requires t.Valid()
    ensures p <= 0 || p == 1 <= t.length ==> r == null
    ensures p > t.length ==> r == t
    ensures 1 < p <= t.length ==> r != null && fresh(r) && r.obj == t.obj && r.Valid() && r.Chars() == t.Chars()[..p - 1]
  {
    if p <= 0 {
      return null;
    }
    if p > t.length {
      return t;
    }
    r := SubText(t, 1, p - 1);
  }
}
