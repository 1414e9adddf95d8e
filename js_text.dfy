/** The JavaScript string operations the document parser relies on:
    the whitespace class shared by `\s` and `String.prototype.trim`,
    `trim`, `split('\n')`, and the word-character class of `\b`. */
module JsText {

  /** JavaScript's WhiteSpace and LineTerminator code points: the set that
      both the regular-expression class `\s` and `String.prototype.trim` use. */
  predicate IsSpace(c: char) {
    c == '\t' || c == '\n' || c == '\U{000B}' || c == '\U{000C}' || c == '\r'
    || c == ' ' || c == '\U{00A0}' || c == '\U{1680}'
    || ('\U{2000}' <= c <= '\U{200A}')
    || c == '\U{2028}' || c == '\U{2029}' || c == '\U{202F}' || c == '\U{205F}'
    || c == '\U{3000}' || c == '\U{FEFF}'
  }

  predicate IsDigit(c: char) { '0' <= c <= '9' }
  predicate IsUpper(c: char) { 'A' <= c <= 'Z' }
  predicate IsLower(c: char) { 'a' <= c <= 'z' }
  predicate IsAsciiLetter(c: char) { IsUpper(c) || IsLower(c) }

  /** The characters `\b` treats as word characters (no `u` or `i` flag). */
  predicate IsWordChar(c: char) { IsAsciiLetter(c) || IsDigit(c) || c == '_' }

  /** A string with no leading and no trailing whitespace. */
  predicate IsTrimmed(s: string) {
    s == [] || (!IsSpace(s[0]) && !IsSpace(s[|s| - 1]))
  }

  /** A string made of whitespace only (the empty string included). */
  predicate IsBlank(s: string) {
    forall i :: 0 <= i < |s| ==> IsSpace(s[i])
  }

  predicate AllSatisfy(s: string, p: char -> bool) {
    forall i :: 0 <= i < |s| ==> p(s[i])
  }

  /** The first index at or after `i` that does not hold whitespace, or
      `|s|`. */
  function SkipSpaces(s: string, i: nat): (k: nat)
    requires i <= |s|
    ensures i <= k <= |s| && (k == |s| || !IsSpace(s[k]))
    ensures forall j :: i <= j < k ==> IsSpace(s[j])
    decreases |s| - i
  {
    if i < |s| && IsSpace(s[i]) then SkipSpaces(s, i + 1) else i
  }

  /** The index just after the last character of `s[lo..j]` that is not
      whitespace, or `lo`. */
  function SkipSpacesBack(s: string, lo: nat, j: nat): (k: nat)
    requires lo <= j <= |s|
    ensures lo <= k <= j && (k == lo || !IsSpace(s[k - 1]))
    ensures forall i :: k <= i < j ==> IsSpace(s[i])
    decreases j - lo
  {
    if lo < j && IsSpace(s[j - 1]) then SkipSpacesBack(s, lo, j - 1) else j
  }

  /** `SkipSpaces` is the only index with its two properties. */
  lemma SkipSpacesUnique(s: string, i: nat, k: nat)
    requires i <= k <= |s| && (k == |s| || !IsSpace(s[k]))
    requires forall j :: i <= j < k ==> IsSpace(s[j])
    ensures SkipSpaces(s, i) == k
  {
  }

  /** `s` without its leading whitespace. */
  function TrimStart(s: string): (r: string)
    ensures r == [] || !IsSpace(r[0])
  {
    s[SkipSpaces(s, 0)..]
  }

  /** `String.prototype.trim`: `r` is the substring of `s` that starts
      after its leading whitespace, and everything removed is whitespace. */
  function Trim(s: string): (r: string)
    ensures IsTrimmed(r)
    ensures var lo := SkipSpaces(s, 0);
      lo + |r| <= |s| && r == s[lo..lo + |r|]
      && (forall i :: 0 <= i < lo ==> IsSpace(s[i]))
      && (forall i :: lo + |r| <= i < |s| ==> IsSpace(s[i]))
  {
    var lo := SkipSpaces(s, 0);
    s[lo..SkipSpacesBack(s, lo, |s|)]
  }

  /** `trim` gives the empty string exactly for blank strings. */
  lemma TrimEmptyIffBlank(s: string)
    ensures Trim(s) == [] <==> IsBlank(s)
  {
    var r := Trim(s);
    var lo := SkipSpaces(s, 0);
    assert r != [] ==> s[lo] == r[0];
  }

  lemma {:induction false} TrimStartOfTrimmed(s: string)
    requires s == [] || !IsSpace(s[0])
    ensures TrimStart(s) == s
  {
  }

  /** Whitespace in front changes nothing. */
  lemma TrimStartBlankPrefix(w: string, s: string)
    requires IsBlank(w)
    ensures TrimStart(w + s) == TrimStart(s)
  {
    var k := SkipSpaces(s, 0);
    var ws := w + s;
    forall j | 0 <= j < |w| + k ensures IsSpace(ws[j]) {
      if j < |w| {
        assert ws[j] == w[j];
      } else {
        assert ws[j] == s[j - |w|];
      }
    }
    assert |w| + k < |ws| ==> ws[|w| + k] == s[k];
    SkipSpacesUnique(ws, 0, |w| + k);
    assert ws[|w| + k..] == s[k..];
  }

  /** Whitespace in front of a non-space character is exactly what
      `TrimStart` removes. */
  lemma TrimStartAfterBlank(w: string, u: string)
    requires IsBlank(w) && |u| > 0 && !IsSpace(u[0])
    ensures TrimStart(w + u) == u
  {
    TrimStartBlankPrefix(w, u);
    TrimStartOfTrimmed(u);
  }

  /** Trimming a string drawn from a character class that every character
      of the result also belongs to keeps it inside that class. */
  lemma TrimKeepsClass(s: string, p: char -> bool)
    requires AllSatisfy(s, p)
    ensures AllSatisfy(Trim(s), p)
    ensures |Trim(s)| <= |s|
  {
    var r := Trim(s);
    var lo := SkipSpaces(s, 0);
    forall i | 0 <= i < |r| ensures p(r[i]) {
      assert r[i] == s[lo + i];
    }
  }

  /** A string without whitespace at its ends is left alone by `trim`. */
  lemma {:induction false} TrimOfTrimmed(s: string)
    requires IsTrimmed(s)
    ensures Trim(s) == s
  {
  }

  /** Index of the first occurrence of `c` in `s`. */
  function IndexOf(s: string, c: char): (k: nat)
    requires c in s
    ensures k < |s| && s[k] == c && c !in s[..k]
  {
    if s[0] == c then 0 else 1 + IndexOf(s[1..], c)
  }

  /** `String.prototype.split('\n')`: the pieces between newlines, in order;
      the empty string gives one empty piece, as in JavaScript. */
  function Split(s: string): (r: seq<string>)
    ensures |r| >= 1
    ensures forall i :: 0 <= i < |r| ==> '\n' !in r[i]
    decreases |s|
  {
    if '\n' !in s then [s]
    else
      var k := IndexOf(s, '\n');
      [s[..k]] + Split(s[k + 1..])
  }

  /** `Array.prototype.join('\n')`, the inverse of `Split`. */
  function Join(pieces: seq<string>): string
    requires |pieces| >= 1
  {
    if |pieces| == 1 then pieces[0] else pieces[0] + "\n" + Join(pieces[1..])
  }

  /** Splitting loses nothing: joining the pieces gives the text back. */
  lemma {:induction false} JoinSplit(s: string)
    ensures Join(Split(s)) == s
    decreases |s|
  {
    if '\n' in s {
      var k := IndexOf(s, '\n');
      var pieces := Split(s);
      assert pieces == [s[..k]] + Split(s[k + 1..]);
      assert |pieces| > 1 && pieces[0] == s[..k] && pieces[1..] == Split(s[k + 1..]);
      JoinSplit(s[k + 1..]);
      assert s == s[..k] + "\n" + s[k + 1..];
    }
  }

  /** Pieces without newlines are exactly what `Split` recovers from their
      join, so `Split` is the only decomposition with that property. */
  lemma {:induction false} SplitJoin(pieces: seq<string>)
    requires |pieces| >= 1
    requires forall i :: 0 <= i < |pieces| ==> '\n' !in pieces[i]
    ensures Split(Join(pieces)) == pieces
  {
    if |pieces| == 1 {
    } else {
      var s := Join(pieces);
      var rest := Join(pieces[1..]);
      assert s == pieces[0] + "\n" + rest;
      assert s[|pieces[0]|] == '\n';
      assert s[..|pieces[0]|] == pieces[0];
      var k := IndexOf(s, '\n');
      assert k == |pieces[0]|;
      assert s[k + 1..] == rest;
      SplitJoin(pieces[1..]);
    }
  }

  /** `.map(line => line.trim()).filter(line => line)`: trimmed lines, empty
      ones dropped, order kept. */
  function TrimAndDropEmpty(pieces: seq<string>): seq<string>
  {
    if pieces == [] then []
    else
      var t := Trim(pieces[0]);
      (if t == [] then [] else [t]) + TrimAndDropEmpty(pieces[1..])
  }

  /** The lines the tier-1 scan visits, as computed at content-script.js:468. */
  function Lines(text: string): seq<string>
  {
    TrimAndDropEmpty(Split(text))
  }

  lemma AppendAssoc<T>(x: seq<T>, y: seq<T>, z: seq<T>)
    ensures x + y + z == x + (y + z)
  {
  }

  /** Lines are kept or dropped one piece at a time. */
  lemma {:induction false} TrimAndDropEmptyAppend(a: seq<string>, b: seq<string>)
    ensures TrimAndDropEmpty(a + b) == TrimAndDropEmpty(a) + TrimAndDropEmpty(b)
  {
    if a != [] {
      assert (a + b)[0] == a[0];
      assert (a + b)[1..] == a[1..] + b;
      TrimAndDropEmptyAppend(a[1..], b);
      var t := Trim(a[0]);
      AppendAssoc(if t == [] then [] else [t], TrimAndDropEmpty(a[1..]), TrimAndDropEmpty(b));
    } else {
      assert a + b == b;
    }
  }

  /** Every kept line is non-empty and trimmed, and there are no more of
      them than pieces. */
  lemma {:induction false} TrimAndDropEmptyLines(pieces: seq<string>)
    ensures forall i :: 0 <= i < |TrimAndDropEmpty(pieces)| ==>
      TrimAndDropEmpty(pieces)[i] != [] && IsTrimmed(TrimAndDropEmpty(pieces)[i])
    ensures |TrimAndDropEmpty(pieces)| <= |pieces|
  {
    if pieces != [] {
      TrimAndDropEmptyLines(pieces[1..]);
    }
  }

  /** No line survives exactly when every piece is blank. */
  lemma {:induction false} TrimAndDropEmptyNone(pieces: seq<string>)
    ensures TrimAndDropEmpty(pieces) == [] <==>
      forall i :: 0 <= i < |pieces| ==> IsBlank(pieces[i])
  {
    if pieces != [] {
      TrimEmptyIffBlank(pieces[0]);
      TrimAndDropEmptyNone(pieces[1..]);
      assert forall i :: 0 < i < |pieces| ==> pieces[i] == pieces[1..][i - 1];
    }
  }
}
