/** The Python `str` operations the backend relies on, over `string`
    (a sequence of Unicode scalar values, as Python's `str` is a sequence of
    code points): `isspace`, `lower`, `strip`, `split`, `in`, `replace(w, "")`,
    `title` and `str(int)`. Case mapping is restricted to ASCII letters. */
module PyStr {

  // ---------------------------------------------------------------- whitespace

  /** Python's `str.isspace()` for one character; `strip()` and `split()`
      with no argument use the same set. */
  predicate IsSpace(c: char) {
    || c == ' '
    || ('\t' <= c <= '\r')
    || ('\U{1C}' <= c <= '\U{1F}')
    || c == '\U{85}' || c == '\U{A0}' || c == '\U{1680}'
    || ('\U{2000}' <= c <= '\U{200A}')
    || c == '\U{2028}' || c == '\U{2029}' || c == '\U{202F}' || c == '\U{205F}'
    || c == '\U{3000}'
  }

  predicate AllSpace(s: string) {
    forall i :: 0 <= i < |s| ==> IsSpace(s[i])
  }

  /** `s` neither begins nor ends with whitespace. */
  predicate Trimmed(s: string) {
    s == [] || (!IsSpace(s[0]) && !IsSpace(s[|s| - 1]))
  }

  /** `r` is `s` with a whitespace-only prefix and a whitespace-only suffix cut off. */
  ghost predicate CutFrom(s: string, r: string) {
    exists front: string, back: string {:trigger front + r + back} ::
      s == front + r + back && AllSpace(front) && AllSpace(back)
  }

  /** How many whitespace characters `s` begins with. */
  function LeadingSpace(s: string): (n: nat)
    ensures n <= |s|
    ensures forall i :: 0 <= i < n ==> IsSpace(s[i])
    ensures n < |s| ==> !IsSpace(s[n])
  {
    if |s| > 0 && IsSpace(s[0]) then 1 + LeadingSpace(s[1..]) else 0
  }

  /** How many whitespace characters `s` ends with. */
  function TrailingSpace(s: string): (n: nat)
    ensures n <= |s|
    ensures forall i :: |s| - n <= i < |s| ==> IsSpace(s[i])
    ensures n < |s| ==> !IsSpace(s[|s| - n - 1])
  {
    if |s| > 0 && IsSpace(s[|s| - 1]) then 1 + TrailingSpace(s[..|s| - 1]) else 0
  }

  /** `str.lstrip()`. */
  function LStrip(s: string): (r: string)
    ensures |r| <= |s| && r == s[|s| - |r|..]
    ensures AllSpace(s[..|s| - |r|])
    ensures r == [] || !IsSpace(r[0])
  {
    s[LeadingSpace(s)..]
  }

  /** `str.rstrip()`. */
  function RStrip(s: string): (r: string)
    ensures |r| <= |s| && r == s[..|r|]
    ensures AllSpace(s[|r|..])
    ensures r == [] || !IsSpace(r[|r| - 1])
  {
    s[..|s| - TrailingSpace(s)]
  }

  lemma TakeDrop<T>(s: seq<T>, n: nat)
    requires n <= |s|
    ensures s[..n] + s[n..] == s
  {
  }

  /** `str.strip()`: the result is what is left of `s` once its leading and
      trailing whitespace is cut off, and it has no whitespace at either end. */
  function Strip(s: string): (r: string)
    ensures Trimmed(r)
    ensures CutFrom(s, r)
  {
    StripIsCut(s);
    RStrip(LStrip(s))
  }

  /** A suffix of `s` with a prefix of it kept: `s` falls into three pieces. */
  lemma ThreePieces(s: string, l: string, r: string)
    requires |l| <= |s| && l == s[|s| - |l|..]
    requires |r| <= |l| && r == l[..|r|]
    ensures s == s[..|s| - |l|] + r + l[|r|..]
  {
    TakeDrop(s, |s| - |l|);
    TakeDrop(l, |r|);
    calc {
      s;
      s[..|s| - |l|] + l;
      s[..|s| - |l|] + (r + l[|r|..]);
      s[..|s| - |l|] + r + l[|r|..];
    }
  }

  lemma StripIsCut(s: string)
    ensures Trimmed(RStrip(LStrip(s)))
    ensures CutFrom(s, RStrip(LStrip(s)))
  {
    var l := LStrip(s);
    var r := RStrip(l);
    var front, back := s[..|s| - |l|], l[|r|..];
    ThreePieces(s, l, r);
    assert s == front + r + back && AllSpace(front) && AllSpace(back);
    assert r == [] || r[0] == l[0];
  }

  lemma StripNoLonger(s: string)
    ensures |Strip(s)| <= |s|
  {
    assert |RStrip(LStrip(s))| <= |LStrip(s)|;
  }

  /** One space after a trimmed text is all `strip()` removes. */
  lemma StripSpaceAfter(x: string)
    requires x != [] && Trimmed(x)
    ensures Strip(x + " ") == x
  {
    var s := x + " ";
    assert LeadingSpace(s) == 0;
    assert s[0..] == s;
    assert s[..|s| - 1] == x;
    assert TrailingSpace(s) == 1;
  }

  /** One space before a trimmed text is all `strip()` removes. */
  lemma StripSpaceBefore(x: string)
    requires x != [] && Trimmed(x)
    ensures Strip(" " + x) == x
  {
    var s := " " + x;
    assert s[1..] == x;
    assert LeadingSpace(s) == 1;
    assert TrailingSpace(x) == 0;
    assert x[..|x|] == x;
  }

  /** Stripping is idempotent: a trimmed text is its own strip. */
  lemma StripTrimmed(s: string)
    requires Trimmed(s)
    ensures Strip(s) == s
  {
  }

  /** Text in front of a part that begins with a non-space character does
      not change how much trailing whitespace there is. */
  lemma {:induction false} TrailingAppend(h: string, b: string)
    requires |b| > 0 && !IsSpace(b[0])
    ensures TrailingSpace(h + b) == TrailingSpace(b)
    decreases |b|
  {
    var s := h + b;
    assert s[|s| - 1] == b[|b| - 1];
    if IsSpace(b[|b| - 1]) {
      assert s[..|s| - 1] == h + b[..|b| - 1];
      TrailingAppend(h, b[..|b| - 1]);
    }
  }

  /** Text that begins with a non-space character keeps its whole front
      through `rstrip`; only the tail past its last non-space character goes. */
  lemma RStripAppend(h: string, b: string)
    requires |b| > 0 && !IsSpace(b[0])
    ensures RStrip(h + b) == h + RStrip(b)
  {
    TrailingAppend(h, b);
    var n := |b| - TrailingSpace(b);
    assert (h + b)[..|h| + n] == h + b[..n];
  }

  /** Stripping `h + b`, where `h` starts and `b` starts with a non-space
      character, removes only the trailing whitespace of `b`. */
  lemma StripAppend(h: string, b: string)
    requires |h| > 0 && !IsSpace(h[0])
    requires |b| > 0 && !IsSpace(b[0])
    ensures Strip(h + b) == h + RStrip(b)
  {
    assert LStrip(h + b) == h + b;
    RStripAppend(h, b);
  }

  // --------------------------------------------------------------------- case

  predicate IsUpper(c: char) { 'A' <= c <= 'Z' }
  predicate IsLower(c: char) { 'a' <= c <= 'z' }
  predicate IsLetter(c: char) { IsUpper(c) || IsLower(c) }

  function LowerChar(c: char): (d: char)
    ensures IsLetter(d) <==> IsLetter(c)
    ensures !IsUpper(d)
  {
    if IsUpper(c) then (c as int + 32) as char else c
  }

  function UpperChar(c: char): (d: char)
    ensures IsLetter(d) <==> IsLetter(c)
    ensures !IsLower(d)
  {
    if IsLower(c) then (c as int - 32) as char else c
  }

  /** `str.lower()` on ASCII letters. */
  function Lower(s: string): (r: string)
    ensures |r| == |s|
    ensures forall i :: 0 <= i < |s| ==> r[i] == LowerChar(s[i])
  {
    seq(|s|, i requires 0 <= i < |s| => LowerChar(s[i]))
  }

  /** `str.title()` on ASCII letters: a letter that follows a letter is
      lower-cased, every other letter is upper-cased. */
  function TitleFrom(s: string, afterLetter: bool): (r: string)
    ensures |r| == |s|
    ensures |s| > 0 ==> r[0] == (if afterLetter then LowerChar(s[0]) else UpperChar(s[0]))
    ensures forall i {:trigger r[i]} :: 0 < i < |s| ==>
      r[i] == (if IsLetter(s[i - 1]) then LowerChar(s[i]) else UpperChar(s[i]))
  {
    if s == [] then []
    else
      var c := if afterLetter then LowerChar(s[0]) else UpperChar(s[0]);
      [c] + TitleFrom(s[1..], IsLetter(s[0]))
  }

  function Title(s: string): (r: string)
    ensures |r| == |s|
    ensures forall i {:trigger r[i]} :: 0 <= i < |s| ==>
      r[i] == (if i > 0 && IsLetter(s[i - 1]) then LowerChar(s[i]) else UpperChar(s[i]))
  {
    TitleFrom(s, false)
  }

  lemma LowerUpper(c: char)
    ensures LowerChar(UpperChar(c)) == LowerChar(c)
  {
  }

  /** `title()` only changes the case of letters: lower-casing undoes it. */
  lemma TitleOnlyChangesCase(s: string)
    ensures Lower(Title(s)) == Lower(s)
  {
    var t := Title(s);
    forall i | 0 <= i < |s|
      ensures Lower(t)[i] == Lower(s)[i]
    {
      LowerUpper(s[i]);
      assert LowerChar(LowerChar(s[i])) == LowerChar(s[i]);
      assert t[i] == LowerChar(s[i]) || t[i] == UpperChar(s[i]);
      assert Lower(t)[i] == LowerChar(t[i]);
      assert Lower(s)[i] == LowerChar(s[i]);
    }
  }

  // ------------------------------------------------------------- substrings

  predicate OccursAt(s: string, t: string, i: int) {
    0 <= i && i + |t| <= |s| && s[i..i + |t|] == t
  }

  /** Python's `t in s`: plain substring containment, not a whole-word test. */
  predicate Contains(s: string, t: string) {
    exists i | 0 <= i <= |s| - |t| :: OccursAt(s, t, i)
  }

  /** Any text sandwiched in a longer one is contained in it. */
  lemma ContainsMiddle(a: string, t: string, b: string)
    ensures Contains(a + t + b, t)
  {
    assert OccursAt(a + t + b, t, |a|);
  }

  /** A message `p + x` contains `x`, and differs from every text that
      parts from the prefix `p` at some place `k`. */
  lemma Prefixed(p: string, x: string, t: string, k: nat)
    requires k < |p| && k < |t| && p[k] != t[k]
    ensures p + x != t
    ensures Contains(p + x, x)
  {
    assert (p + x)[k] == p[k];
    ContainsMiddle(p, x, []);
    assert p + x + [] == p + x;
  }

  /** A text shorter than `t`, or not equal to it at its only position, does not contain it. */
  lemma NotContainsShort(s: string, t: string)
    requires |s| < |t| || (|s| == |t| && s != t)
    ensures !Contains(s, t)
  {
    if |s| == |t| {
      forall i | 0 <= i <= |s| - |t|
        ensures !OccursAt(s, t, i)
      {
        assert s[i..i + |t|] == s;
      }
    }
  }

  /** The `parts` occur in `s` one after another, without overlapping. */
  predicate AppearInOrder(s: string, parts: seq<string>)
    decreases |parts|
  {
    parts == [] ||
    exists i | 0 <= i <= |s| - |parts[0]| ::
      OccursAt(s, parts[0], i) && AppearInOrder(s[i + |parts[0]|..], parts[1..])
  }

  /** Putting a text and a filler in front of an ordered text extends the order. */
  lemma AppearInOrderCons(gap: string, p: string, rest: string, parts: seq<string>)
    requires AppearInOrder(rest, parts)
    ensures AppearInOrder(gap + p + rest, [p] + parts)
  {
    var s := gap + p + rest;
    assert OccursAt(s, p, |gap|);
    assert s[|gap| + |p|..] == rest;
    var ps := [p] + parts;
    assert ps[0] == p && ps[1..] == parts;
    assert OccursAt(s, ps[0], |gap|) && AppearInOrder(s[|gap| + |ps[0]|..], ps[1..]);
  }

  lemma ContainsInSuffix(s: string, j: nat, t: string)
    requires j <= |s| && Contains(s[j..], t)
    ensures Contains(s, t)
  {
    var i :| 0 <= i <= |s[j..]| - |t| && OccursAt(s[j..], t, i);
    assert s[j + i..j + i + |t|] == s[j..][i..i + |t|];
    assert OccursAt(s, t, j + i);
  }

  /** Where the first part of an ordered text sits. */
  lemma InOrderHead(s: string, parts: seq<string>) returns (i: nat)
    requires parts != [] && AppearInOrder(s, parts)
    ensures OccursAt(s, parts[0], i) && AppearInOrder(s[i + |parts[0]|..], parts[1..])
  {
    i :| 0 <= i <= |s| - |parts[0]| && OccursAt(s, parts[0], i)
      && AppearInOrder(s[i + |parts[0]|..], parts[1..]);
  }

  /** Every part of an ordered text is contained in it. */
  lemma {:induction false} InOrderContains(s: string, parts: seq<string>)
    requires AppearInOrder(s, parts)
    ensures forall k :: 0 <= k < |parts| ==> Contains(s, parts[k])
    decreases |parts|
  {
    if parts != [] {
      var i := InOrderHead(s, parts);
      var rest := s[i + |parts[0]|..];
      InOrderContains(rest, parts[1..]);
      forall k | 0 <= k < |parts|
        ensures Contains(s, parts[k])
      {
        if k == 0 {
          assert OccursAt(s, parts[0], i);
        } else {
          assert parts[1..][k - 1] == parts[k];
          ContainsInSuffix(s, i + |parts[0]|, parts[k]);
        }
      }
    }
  }

  /** An f-string: its literal pieces with the substituted values between
      them, `pieces[0] + values[0] + pieces[1] + ... + pieces[n]`. */
  function Format(pieces: seq<string>, values: seq<string>): string
    requires |pieces| == |values| + 1
    decreases |values|
  {
    if values == [] then pieces[0]
    else pieces[0] + values[0] + Format(pieces[1..], values[1..])
  }

  /** A word whose first character is missing from `s[..n]` does not occur
      before `n`; when `n` passes the last place it fits, not at all. */
  lemma AbsentBefore(s: string, w: string, n: nat)
    requires w != [] && n <= |s| && w[0] !in s[..n]
    ensures forall j :: 0 <= j < n ==> !OccursAt(s, w, j)
    ensures |s| - |w| < n ==> !Contains(s, w)
  {
    forall j | 0 <= j < n
      ensures !OccursAt(s, w, j)
    {
      assert s[..n][j] == s[j] != w[0];
      if j + |w| <= |s| {
        assert s[j..j + |w|][0] == s[j];
      }
    }
  }

  /** The substituted values appear in a formatted text in their order. */
  lemma {:induction false} FormatInOrder(pieces: seq<string>, values: seq<string>)
    requires |pieces| == |values| + 1
    ensures AppearInOrder(Format(pieces, values), values)
    decreases |values|
  {
    if values != [] {
      FormatInOrder(pieces[1..], values[1..]);
      AppearInOrderCons(pieces[0], values[0], Format(pieces[1..], values[1..]), values[1..]);
      assert [values[0]] + values[1..] == values;
    }
  }

  /** `s.replace(w, "")`: every occurrence of `w`, found left to right
      without overlap, removed. */
  function RemoveAll(s: string, w: string): (r: string)
    ensures |r| <= |s|
    decreases |s|
  {
    if w == [] || |s| < |w| then s
    else if s[..|w|] == w then RemoveAll(s[|w|..], w)
    else [s[0]] + RemoveAll(s[1..], w)
  }

  /** A word that occurs is really removed: the text loses at least its length. */
  lemma {:induction false} RemovePresent(s: string, w: string)
    requires w != [] && Contains(s, w)
    ensures |RemoveAll(s, w)| + |w| <= |s|
    decreases |s|
  {
    var i :| 0 <= i <= |s| - |w| && OccursAt(s, w, i);
    if s[..|w|] != w {
      ContainsPastFirst(s, w);
      RemovePresent(s[1..], w);
    }
  }

  /** An occurrence that is not at the very start lies in `s[1..]`. */
  lemma ContainsPastFirst(s: string, w: string)
    requires w != [] && |w| <= |s| && s[..|w|] != w
    ensures Contains(s, w) ==> Contains(s[1..], w)
  {
    if Contains(s, w) {
      var i :| 0 <= i <= |s| - |w| && OccursAt(s, w, i);
      assert i != 0 by {
        assert s[0..0 + |w|] == s[..|w|];
      }
      OccursLater(s, w, i - 1);
    }
  }

  /** Removing a word that does not occur changes nothing. */
  lemma {:induction false} RemoveAbsent(s: string, w: string)
    requires !Contains(s, w)
    ensures RemoveAll(s, w) == s
    decreases |s|
  {
    if w == [] || |s| < |w| {
    } else {
      assert !OccursAt(s, w, 0);
      forall i | 0 <= i <= |s| - 1 - |w|
        ensures !OccursAt(s[1..], w, i)
      {
        OccursLater(s, w, i);
      }
      RemoveAbsent(s[1..], w);
    }
  }

  /** Where `w` does not start `s`, the first character stays. */
  lemma RemoveSkip(s: string, w: string)
    requires w != [] && |w| <= |s| && !OccursAt(s, w, 0)
    ensures RemoveAll(s, w) == [s[0]] + RemoveAll(s[1..], w)
  {
    assert s[..|w|] == s[0..0 + |w|];
  }

  /** An occurrence in `s[1..]` is one in `s`, one place later. */
  lemma OccursLater(s: string, w: string, j: nat)
    requires |s| > 0
    ensures OccursAt(s[1..], w, j) <==> OccursAt(s, w, j + 1)
  {
    if j + |w| <= |s| - 1 {
      assert s[1..][j..j + |w|] == s[j + 1..j + 1 + |w|];
    }
  }

  /** The first occurrence at `i > 0` in `s` is the first at `i - 1` in `s[1..]`. */
  lemma FirstInTail(s: string, w: string, i: nat)
    requires i > 0 && OccursAt(s, w, i)
    requires forall j :: 0 <= j < i ==> !OccursAt(s, w, j)
    ensures |s| > 0 && !OccursAt(s, w, 0) && i + |w| <= |s|
    ensures OccursAt(s[1..], w, i - 1)
    ensures forall j :: 0 <= j < i - 1 ==> !OccursAt(s[1..], w, j)
  {
    OccursLater(s, w, i - 1);
    forall j | 0 <= j < i - 1
      ensures !OccursAt(s[1..], w, j)
    {
      OccursLater(s, w, j);
    }
  }

  /** An occurrence at the very start goes first. */
  lemma RemoveAtStart(s: string, w: string)
    requires w != [] && OccursAt(s, w, 0)
    ensures RemoveAll(s, w) == s[..0] + RemoveAll(s[0 + |w|..], w)
  {
    assert s[..|w|] == s[0..0 + |w|];
    assert s[..0] == [];
  }

  /** One skipped character in front of the occurrence at `i`. */
  lemma RemoveFirstStep(s: string, w: string, i: nat)
    requires w != [] && 0 < i && i + |w| <= |s| && !OccursAt(s, w, 0)
    requires RemoveAll(s[1..], w) == s[1..][..i - 1] + RemoveAll(s[1..][i - 1 + |w|..], w)
    ensures RemoveAll(s, w) == s[..i] + RemoveAll(s[i + |w|..], w)
  {
    var tail := RemoveAll(s[i + |w|..], w);
    assert s[1..][i - 1 + |w|..] == s[i + |w|..];
    var front := s[1..][..i - 1];
    calc {
      RemoveAll(s, w);
      { RemoveSkip(s, w); }
      [s[0]] + RemoveAll(s[1..], w);
      [s[0]] + (front + tail);
      { ConsAppend(s[0], front, tail); }
      ([s[0]] + front) + tail;
      { ConsTake(s, i); }
      s[..i] + tail;
    }
  }

  lemma ConsTake<T>(s: seq<T>, i: nat)
    requires 0 < i <= |s|
    ensures [s[0]] + s[1..][..i - 1] == s[..i]
  {
  }

  /** The first occurrence of a non-empty word goes, with everything before
      it kept; the scan resumes right after it. With `RemoveAbsent` this
      determines `replace(w, "")` completely. */
  lemma {:induction false} RemoveFirst(s: string, w: string, i: nat)
    requires w != [] && OccursAt(s, w, i)
    requires forall j :: 0 <= j < i ==> !OccursAt(s, w, j)
    ensures RemoveAll(s, w) == s[..i] + RemoveAll(s[i + |w|..], w)
    decreases i
  {
    if i == 0 {
      RemoveAtStart(s, w);
    } else {
      FirstInTail(s, w, i);
      RemoveFirst(s[1..], w, i - 1);
      RemoveFirstStep(s, w, i);
    }
  }

  // ---------------------------------------------------------------- splitting

  predicate NoSpace(w: string) {
    forall i :: 0 <= i < |w| ==> !IsSpace(w[i])
  }

  /** Length of the leading run of non-space characters of `s`. */
  function RunLength(s: string): (n: nat)
    ensures n <= |s|
    ensures NoSpace(s[..n])
    ensures n < |s| ==> IsSpace(s[n])
  {
    if s == [] || IsSpace(s[0]) then 0 else 1 + RunLength(s[1..])
  }

  /** What `split()` can produce: a non-empty run without whitespace. */
  predicate IsWord(w: string) {
    w != [] && NoSpace(w)
  }

  predicate AllWords(words: seq<string>) {
    forall k :: 0 <= k < |words| ==> IsWord(words[k])
  }

  /** `str.split()`: the maximal runs of non-space characters, in order. */
  function Split(s: string): (words: seq<string>)
    ensures AllWords(words)
    decreases |s|
  {
    var t := LStrip(s);
    if t == [] then []
    else
      var n := RunLength(t);
      [t[..n]] + Split(t[n..])
  }

  /** `" ".join(words)`. */
  function JoinWords(words: seq<string>): string {
    if words == [] then [] else words[0] + Spaced(words[1..])
  }

  /** Each word preceded by one space. */
  function Spaced(words: seq<string>): string {
    if words == [] then [] else " " + (words[0] + Spaced(words[1..]))
  }

  lemma {:induction false} RunLengthOf(w: string, rest: string)
    requires NoSpace(w)
    requires rest == [] || IsSpace(rest[0])
    ensures RunLength(w + rest) == |w|
    decreases |w|
  {
    if w != [] {
      assert (w + rest)[1..] == w[1..] + rest;
      RunLengthOf(w[1..], rest);
    }
  }

  /** A word followed by nothing or by whitespace is the first word. */
  lemma SplitCons(w: string, rest: string)
    requires IsWord(w)
    requires rest == [] || IsSpace(rest[0])
    ensures Split(w + rest) == [w] + Split(rest)
  {
    var s := w + rest;
    assert LStrip(s) == s;
    RunLengthOf(w, rest);
    assert s[..|w|] == w && s[|w|..] == rest;
  }

  /** Leading whitespace does not change the words. */
  lemma SplitSpaceFront(x: string)
    ensures Split(" " + x) == Split(x)
  {
    assert (" " + x)[1..] == x;
    assert LStrip(" " + x) == LStrip(x);
  }

  lemma AllWordsTail(words: seq<string>)
    requires words != [] && AllWords(words)
    ensures IsWord(words[0]) && AllWords(words[1..])
  {
    forall k | 0 <= k < |words| - 1 ensures IsWord(words[1..][k]) {
      assert words[1..][k] == words[k + 1];
    }
  }

  lemma SplitEmpty()
    ensures Split([]) == []
  {
    assert LStrip([]) == [];
  }

  lemma {:induction false} SplitSpaced(words: seq<string>)
    requires AllWords(words)
    ensures Split(Spaced(words)) == words
    decreases |words|
  {
    if words == [] {
      SplitEmpty();
    } else {
      var w, tail := words[0], words[1..];
      AllWordsTail(words);
      calc {
        Split(Spaced(words));
        Split(" " + (w + Spaced(tail)));
      == { SplitSpaceFront(w + Spaced(tail)); }
        Split(w + Spaced(tail));
      == { SplitCons(w, Spaced(tail)); }
        [w] + Split(Spaced(tail));
      == { SplitSpaced(tail); }
        [w] + tail;
        words;
      }
    }
  }

  /** `split()` undoes `" ".join` of non-empty words without whitespace. */
  lemma {:induction false} SplitJoinWords(words: seq<string>)
    requires AllWords(words)
    ensures Split(JoinWords(words)) == words
  {
    if words == [] {
      SplitEmpty();
    } else {
      AllWordsTail(words);
      calc {
        Split(JoinWords(words));
        Split(words[0] + Spaced(words[1..]));
      == { SplitCons(words[0], Spaced(words[1..])); }
        [words[0]] + Split(Spaced(words[1..]));
      == { SplitSpaced(words[1..]); }
        [words[0]] + words[1..];
        words;
      }
    }
  }

  /** All characters of `s` that are not whitespace, in order. */
  function Visible(s: string): string {
    if s == [] then []
    else (if IsSpace(s[0]) then [] else [s[0]]) + Visible(s[1..])
  }

  function Concat(words: seq<string>): string {
    if words == [] then [] else words[0] + Concat(words[1..])
  }

  lemma {:induction false} VisibleAppend(a: string, b: string)
    ensures Visible(a + b) == Visible(a) + Visible(b)
    decreases |a|
  {
    if a == [] {
      assert a + b == b;
    } else {
      assert (a + b)[1..] == a[1..] + b;
      VisibleAppend(a[1..], b);
    }
  }

  lemma {:induction false} VisibleOfSpace(s: string)
    requires AllSpace(s)
    ensures Visible(s) == []
    decreases |s|
  {
    if s != [] {
      VisibleOfSpace(s[1..]);
    }
  }

  lemma {:induction false} VisibleOfWord(s: string)
    requires NoSpace(s)
    ensures Visible(s) == s
    decreases |s|
  {
    if s != [] {
      VisibleOfWord(s[1..]);
    }
  }

  /** Splitting loses exactly the whitespace: the words, glued back
      together, are the visible characters of the text. */
  lemma {:induction false} SplitKeepsVisible(s: string)
    ensures Concat(Split(s)) == Visible(s)
    decreases |s|
  {
    var t := LStrip(s);
    LStripKeepsVisible(s);
    if t != [] {
      var n := RunLength(t);
      var w, rest := t[..n], t[n..];
      TakeDrop(t, n);
      SplitUnfold(s);
      ConcatCons(w, Split(rest));
      SplitKeepsVisible(rest);
      VisibleAppend(w, rest);
      VisibleOfWord(w);
    } else {
      assert Split(s) == [];
    }
  }

  lemma SplitUnfold(s: string)
    requires LStrip(s) != []
    ensures var t := LStrip(s); var n := RunLength(t);
      Split(s) == [t[..n]] + Split(t[n..])
  {
  }

  lemma ConcatCons(w: string, words: seq<string>)
    ensures Concat([w] + words) == w + Concat(words)
  {
    assert ([w] + words)[1..] == words;
  }

  lemma LStripKeepsVisible(s: string)
    ensures Visible(LStrip(s)) == Visible(s)
  {
    var t := LStrip(s);
    var cut := |s| - |t|;
    assert s == s[..cut] + t;
    VisibleAppend(s[..cut], t);
    VisibleOfSpace(s[..cut]);
  }

  // -------------------------------------------------------------------- lines

  predicate NoNewline(s: string) {
    forall i :: 0 <= i < |s| ==> s[i] != '\n'
  }

  /** Length of the leading run of characters other than a line feed. */
  function LineLength(s: string): (n: nat)
    ensures n <= |s|
    ensures NoNewline(s[..n])
    ensures n < |s| ==> s[n] == '\n'
  {
    if s == [] || s[0] == '\n' then 0 else 1 + LineLength(s[1..])
  }

  /** `s.split("\n")`: the pieces between line feeds, empty ones included. */
  function Lines(s: string): (ls: seq<string>)
    ensures |ls| > 0
    decreases |s|
  {
    var n := LineLength(s);
    if n == |s| then [s] else [s[..n]] + Lines(s[n + 1..])
  }

  lemma {:induction false} LineLengthOf(a: string, b: string)
    requires NoNewline(a)
    ensures LineLength(a + "\n" + b) == |a|
    decreases |a|
  {
    if a != [] {
      assert (a + "\n" + b)[1..] == a[1..] + "\n" + b;
      LineLengthOf(a[1..], b);
    }
  }

  /** A line feed after a line-feed-free text ends exactly that line. */
  lemma LinesCons(a: string, b: string)
    requires NoNewline(a)
    ensures Lines(a + "\n" + b) == [a] + Lines(b)
  {
    var s := a + "\n" + b;
    LineLengthOf(a, b);
    assert s[..|a|] == a;
    assert s[|a| + 1..] == b;
  }

  /** `"".join(l + "\n" for l in ls)`: each line followed by a line feed. */
  function Unlines(ls: seq<string>): string {
    if ls == [] then [] else ls[0] + "\n" + Unlines(ls[1..])
  }

  lemma ConsAppend<T>(x: T, t: seq<T>, l: seq<T>)
    ensures [x] + (t + l) == ([x] + t) + l
  {
  }

  lemma SliceOfAppend<T>(a: seq<T>, b: seq<T>, i: nat, j: nat)
    requires i <= j <= |a| + |b|
    ensures j <= |a| ==> (a + b)[i..j] == a[i..j]
    ensures |a| <= i ==> (a + b)[i..j] == b[i - |a|..j - |a|]
  {
  }

  lemma UnlinesCons(ls: seq<string>, rest: string)
    requires ls != []
    ensures Unlines(ls) + rest == ls[0] + "\n" + (Unlines(ls[1..]) + rest)
  {
  }

  lemma {:induction false} UnlinesAppend(a: seq<string>, b: seq<string>)
    ensures Unlines(a + b) == Unlines(a) + Unlines(b)
  {
    if a == [] {
      assert a + b == b;
    } else {
      assert (a + b)[1..] == a[1..] + b;
      UnlinesAppend(a[1..], b);
    }
  }

  /** Splitting at line feeds undoes joining line-feed-free lines. */
  lemma {:induction false} LinesOfUnlines(ls: seq<string>, rest: string)
    requires forall k :: 0 <= k < |ls| ==> NoNewline(ls[k])
    ensures Lines(Unlines(ls) + rest) == ls + Lines(rest)
  {
    if ls != [] {
      UnlinesCons(ls, rest);
      LinesCons(ls[0], Unlines(ls[1..]) + rest);
      LinesOfUnlines(ls[1..], rest);
      ConsAppend(ls[0], ls[1..], Lines(rest));
      assert ls == [ls[0]] + ls[1..];
    } else {
      assert Unlines(ls) + rest == rest;
    }
  }

  // ------------------------------------------------------------------ numbers

  function DigitChar(d: nat): (c: char)
    requires d < 10
    ensures '0' <= c <= '9'
  {
    ('0' as int + d) as char
  }

  /** `str(n)` for a non-negative integer. */
  function Decimal(n: nat): (r: string)
    ensures |r| > 0
    ensures forall i :: 0 <= i < |r| ==> '0' <= r[i] <= '9'
  {
    if n < 10 then [DigitChar(n)] else Decimal(n / 10) + [DigitChar(n % 10)]
  }

  /** `int(s)` for a text of decimal digits. */
  function ParseDecimal(s: string): nat
    requires forall i :: 0 <= i < |s| ==> '0' <= s[i] <= '9'
  {
    if s == [] then 0
    else ParseDecimal(s[..|s| - 1]) * 10 + (s[|s| - 1] as int - '0' as int)
  }

  /** `int(str(n)) == n`: the decimal rendering loses nothing. */
  lemma {:induction false} DecimalRoundTrip(n: nat)
    ensures ParseDecimal(Decimal(n)) == n
  {
    if n >= 10 {
      var r := Decimal(n);
      assert r[..|r| - 1] == Decimal(n / 10);
      DecimalRoundTrip(n / 10);
    }
  }
}
