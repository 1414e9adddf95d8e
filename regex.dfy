/** The fragment of JavaScript regular expressions used by the document
    parser, with a backtracking matcher that reproduces the engine's
    first-match order, `RegExp.prototype.exec` on a global regular
    expression (the `lastIndex` protocol) and `String.prototype.match` with
    the `g` flag. */
module JsRegex {
  import opened JsText

  datatype Option<T> = None | Some(value: T)

  /** The character classes that occur in the five patterns. A class is the
      same with or without the `i` flag when it is closed under ASCII case,
      which every class used under `i` is. */
  datatype CharSet =
    | Single(c: char)   // one literal character, e.g. the `:` of `:?`
    | LetterOrSpace     // [a-zA-Z\s]
    | Digit             // [0-9]
    | PhoneChar         // [\(\)\-\s0-9]
    | Space             // \s
    | Upper             // [A-Z]
    | Lower             // [a-z]

  predicate InSet(cs: CharSet, c: char) {
    match cs
    case Single(d) => c == d
    case LetterOrSpace => IsAsciiLetter(c) || IsSpace(c)
    case Digit => IsDigit(c)
    case PhoneChar => c == '(' || c == ')' || c == '-' || IsSpace(c) || IsDigit(c)
    case Space => IsSpace(c)
    case Upper => IsUpper(c)
    case Lower => IsLower(c)
  }

  datatype Bound = AtMost(n: nat) | Unbounded

  predicate WithinBound(k: nat, hi: Bound) {
    hi.Unbounded? || k <= hi.n
  }

  datatype Atom =
    | Char(c: char)                              // a literal character
    | Repeat(cs: CharSet, lo: nat, hi: Bound)    // greedy cs{lo,hi}
    | CaptureStart                               // opening parenthesis of group 1
    | WordBoundary                               // \b
    | AheadSpaceOrEnd                            // (?=\s|$), no `m` flag
    | Alt(alts: seq<seq<Atom>>)                  // (?:a|b|...), branches tried in order

  /** A global regular expression; `ignoreCase` is the `i` flag. The
      patterns of the parser have alternations at the top level only. */
  datatype Regex = Regex(nodes: seq<Atom>, ignoreCase: bool)

  /** Where group 1 starts: `NoGroup`, or a position. Group 1 runs to the
      end of the match in every pattern of the parser, so its start
      determines it. */
  const NoGroup: int := -1

  /** A successful attempt: where the match ends and where group 1 starts. */
  datatype Hit = Hit(end: nat, cap: int)

  function AsciiUpper(c: char): char {
    if 'a' <= c <= 'z' then (c as int - 32) as char else c
  }

  /** Literal comparison; under the `i` flag both sides are case-folded.
      For the ASCII letters of the parser's labels this is JavaScript's
      non-unicode canonicalization, which never maps a non-ASCII character
      onto an ASCII one. */
  predicate CharEq(ignoreCase: bool, x: char, c: char) {
    if ignoreCase then AsciiUpper(x) == AsciiUpper(c) else x == c
  }

  /** `\b`: a word character on exactly one side of position `i`. */
  predicate IsBoundary(s: string, i: nat)
    requires i <= |s|
  {
    (i > 0 && IsWordChar(s[i - 1])) != (i < |s| && IsWordChar(s[i]))
  }

  /** All of `s[i..j]` lies in `cs`. */
  predicate AllIn(cs: CharSet, s: string, i: nat, j: nat)
    requires i <= j <= |s|
  {
    forall k :: i <= k < j ==> InSet(cs, s[k])
  }

  /** The backtracking matcher: the first way, in JavaScript's order, to
      match what is left of the pattern from position `i` of `s`: the
      atoms `branch[bi..]` of the alternation branch being tried, then the
      top-level atoms `nodes[ni..]`. Greedy repetitions try their longest
      count first, and the branches of an alternation are tried left to
      right, each followed by the rest of the pattern. `cap` is where
      group 1 started, or `NoGroup`. */
  function Match(ic: bool, branch: seq<Atom>, bi: nat, nodes: seq<Atom>, ni: nat,
                 s: string, i: nat, cap: int): (r: Option<Hit>)
    requires bi <= |branch| && ni <= |nodes| && i <= |s|
    ensures r.Some? ==> i <= r.value.end <= |s|
    decreases |nodes| - ni, |branch| - bi, 1, 0
  {
    if bi < |branch| then MatchAtom(ic, branch[bi], branch, bi + 1, nodes, ni, s, i, cap)
    else if ni == |nodes| then Some(Hit(i, cap))
    else
      match nodes[ni]
      case Alt(alts) => TryAlts(ic, alts, 0, nodes, ni + 1, s, i, cap)
      case _ => MatchAtom(ic, nodes[ni], [], 0, nodes, ni + 1, s, i, cap)
  }

  /** The atom `a` at `i`, followed by `branch[bi..]` and `nodes[ni..]`. */
  function MatchAtom(ic: bool, a: Atom, branch: seq<Atom>, bi: nat, nodes: seq<Atom>, ni: nat,
                     s: string, i: nat, cap: int): (r: Option<Hit>)
    requires bi <= |branch| && ni <= |nodes| && i <= |s|
    ensures r.Some? ==> i <= r.value.end <= |s|
    decreases |nodes| - ni, |branch| - bi, 3, 0
  {
    match a
    case Char(c) =>
      if i < |s| && CharEq(ic, s[i], c) then Match(ic, branch, bi, nodes, ni, s, i + 1, cap) else None
    case Repeat(cs, lo, hi) => MatchRepeat(ic, cs, lo, hi, 0, branch, bi, nodes, ni, s, i, cap)
    case CaptureStart => Match(ic, branch, bi, nodes, ni, s, i, i)
    case WordBoundary => if IsBoundary(s, i) then Match(ic, branch, bi, nodes, ni, s, i, cap) else None
    case AheadSpaceOrEnd =>
      if i == |s| || IsSpace(s[i]) then Match(ic, branch, bi, nodes, ni, s, i, cap) else None
    case Alt(_) => None  // an alternation nested in a branch: no pattern has one
  }

  /** A greedy repetition `cs{lo,hi}` at `i` that has matched `count`
      characters so far: first try one more character, then, if that
      fails and the minimum is met, the rest of the pattern. */
  function MatchRepeat(ic: bool, cs: CharSet, lo: nat, hi: Bound, count: nat,
                       branch: seq<Atom>, bi: nat, nodes: seq<Atom>, ni: nat,
                       s: string, i: nat, cap: int): (r: Option<Hit>)
    requires bi <= |branch| && ni <= |nodes| && i <= |s|
    ensures r.Some? ==> i <= r.value.end <= |s|
    decreases |nodes| - ni, |branch| - bi, 2, |s| - i
  {
    var longer :=
      if WithinBound(count + 1, hi) && i < |s| && InSet(cs, s[i])
      then MatchRepeat(ic, cs, lo, hi, count + 1, branch, bi, nodes, ni, s, i + 1, cap)
      else None;
    match longer
    case Some(h) => Some(h)
    case None => if lo <= count then Match(ic, branch, bi, nodes, ni, s, i, cap) else None
  }

  /** An alternation at `i` whose branches `alts[j..]` are left to try, each
      followed by `nodes[ni..]`, in the order they are written. */
  function TryAlts(ic: bool, alts: seq<seq<Atom>>, j: nat, nodes: seq<Atom>, ni: nat,
                   s: string, i: nat, cap: int): (r: Option<Hit>)
    requires ni <= |nodes| && i <= |s|
    ensures r.Some? ==> i <= r.value.end <= |s|
    decreases |nodes| - ni + 1, 0, 0, |alts| - j
  {
    if j >= |alts| then None
    else
      match Match(ic, alts[j], 0, nodes, ni, s, i, cap)
      case Some(h) => Some(h)
      case None => TryAlts(ic, alts, j + 1, nodes, ni, s, i, cap)
  }

  /** What one attempt of the whole pattern at `i` gives. */
  function MatchAt(re: Regex, s: string, i: nat): Option<Hit>
    requires i <= |s|
  {
    Match(re.ignoreCase, [], 0, re.nodes, 0, s, i, NoGroup)
  }

  /** A match found by `exec`: its index, its end, and where group 1
      starts (`NoGroup` when the pattern has no group). */
  datatype MatchInfo = MatchInfo(start: nat, end: nat, group: int)

  /** The text of the whole match, `match[0]`. */
  function MatchText(s: string, m: MatchInfo): string
    requires m.start <= m.end <= |s|
  {
    s[m.start..m.end]
  }

  /** The text of group 1, `match[1]`, which runs to the end of the match. */
  function GroupText(s: string, m: MatchInfo): string
    requires 0 <= m.group <= m.end <= |s|
  {
    s[m.group..m.end]
  }

  /** The leftmost position at or after `p` where the pattern matches. */
  function SearchFrom(re: Regex, s: string, p: nat): (r: Option<MatchInfo>)
    requires p <= |s|
    ensures r.Some? ==> p <= r.value.start <= r.value.end <= |s|
    decreases |s| - p
  {
    match MatchAt(re, s, p)
    case Some(h) => Some(MatchInfo(p, h.end, h.cap))
    case None => if p == |s| then None else SearchFrom(re, s, p + 1)
  }

  /** What `exec` returns and the `lastIndex` it leaves behind. */
  datatype ExecResult = ExecResult(found: Option<MatchInfo>, lastIndex: nat)

  /** `RegExp.prototype.exec` on a global regular expression whose
      `lastIndex` is `lastIndex`: past the end of `s` it fails; otherwise it
      searches from `lastIndex`; a failure resets `lastIndex` to 0 and a
      success sets it to the end of the match. */
  function ExecFrom(re: Regex, s: string, lastIndex: nat): (r: ExecResult)
    ensures r.found.Some? ==> lastIndex <= r.found.value.start <= r.found.value.end <= |s|
  {
    if lastIndex > |s| then ExecResult(None, 0)
    else
      match SearchFrom(re, s, lastIndex)
      case None => ExecResult(None, 0)
      case Some(m) => ExecResult(Some(m), m.end)
  }

  /** A JavaScript `RegExp` object with the `g` flag: its pattern and the
      `lastIndex` that every `exec` reads and updates. */
  class RegExp {
    const pattern: Regex
    var lastIndex: nat

    /** A regular-expression literal evaluated afresh: `lastIndex` is 0. */
    constructor (pattern: Regex)
      ensures this.pattern == pattern && lastIndex == 0
    {
      this.pattern := pattern;
      lastIndex := 0;
    }

    method Exec(s: string) returns (found: Option<MatchInfo>)
      modifies this
      ensures found == ExecFrom(pattern, s, old(lastIndex)).found
      ensures lastIndex == ExecFrom(pattern, s, old(lastIndex)).lastIndex
    {
      var r := ExecFrom(pattern, s, lastIndex);
      found := r.found;
      lastIndex := r.lastIndex;
    }
  }

  /** `String.prototype.match` with a global pattern, from `lastIndex`:
      every successive match, each search resuming at the end of the
      previous match (one further on after an empty match). */
  function MatchAllFrom(re: Regex, s: string, lastIndex: nat): (r: seq<MatchInfo>)
    ensures forall k :: 0 <= k < |r| ==> r[k].start <= r[k].end <= |s|
    decreases |s| + 1 - lastIndex
  {
    var r := ExecFrom(re, s, lastIndex);
    match r.found
    case None => []
    case Some(m) => [m] + MatchAllFrom(re, s, Resume(m))
  }

  /** Where the next search starts after the match `m`: its end, or one
      further on after an empty match. */
  function Resume(m: MatchInfo): nat {
    if m.end == m.start then m.end + 1 else m.end
  }

  /** `s.match(re)` for a global `re`; no match (`null`) is the empty list. */
  function MatchAll(re: Regex, s: string): (r: seq<MatchInfo>)
    ensures forall k :: 0 <= k < |r| ==> r[k].start <= r[k].end <= |s|
  {
    MatchAllFrom(re, s, 0)
  }

  /** The matched strings, as `String.prototype.match` returns them. */
  function MatchTexts(s: string, ms: seq<MatchInfo>): (r: seq<string>)
    requires forall k :: 0 <= k < |ms| ==> ms[k].start <= ms[k].end <= |s|
    ensures |r| == |ms|
    ensures forall k :: 0 <= k < |ms| ==> r[k] == MatchText(s, ms[k])
  {
    if ms == [] then [] else [MatchText(s, ms[0])] + MatchTexts(s, ms[1..])
  }

  // ---------------------------------------------------------------------
  // What a match means, independently of the search order

  /** The rest of the pattern (`branch[bi..]`, then `nodes[ni..]`) can match
      `s` from `i` so that the match ends at `h.end` with group 1 at
      `h.cap`: the choices the backtracking matcher makes, left open. */
  ghost predicate Accepts(ic: bool, branch: seq<Atom>, bi: nat, nodes: seq<Atom>, ni: nat,
                          s: string, i: nat, cap: int, h: Hit)
    requires bi <= |branch| && ni <= |nodes| && i <= |s|
    decreases |nodes| - ni, |branch| - bi, 1
  {
    if bi < |branch| then AtomAccepts(ic, branch[bi], branch, bi + 1, nodes, ni, s, i, cap, h)
    else if ni == |nodes| then h == Hit(i, cap)
    else
      match nodes[ni]
      case Alt(alts) =>
        exists j :: 0 <= j < |alts| && Accepts(ic, alts[j], 0, nodes, ni + 1, s, i, cap, h)
      case _ => AtomAccepts(ic, nodes[ni], [], 0, nodes, ni + 1, s, i, cap, h)
  }

  ghost predicate AtomAccepts(ic: bool, a: Atom, branch: seq<Atom>, bi: nat, nodes: seq<Atom>, ni: nat,
                              s: string, i: nat, cap: int, h: Hit)
    requires bi <= |branch| && ni <= |nodes| && i <= |s|
    decreases |nodes| - ni, |branch| - bi, 2
  {
    match a
    case Char(c) =>
      i < |s| && CharEq(ic, s[i], c) && Accepts(ic, branch, bi, nodes, ni, s, i + 1, cap, h)
    case Repeat(cs, lo, hi) =>
      exists e :: i + lo <= e <= |s| && WithinBound(e - i, hi) && AllIn(cs, s, i, e)
        && Accepts(ic, branch, bi, nodes, ni, s, e, cap, h)
    case CaptureStart => Accepts(ic, branch, bi, nodes, ni, s, i, i, h)
    case WordBoundary => IsBoundary(s, i) && Accepts(ic, branch, bi, nodes, ni, s, i, cap, h)
    case AheadSpaceOrEnd =>
      (i == |s| || IsSpace(s[i])) && Accepts(ic, branch, bi, nodes, ni, s, i, cap, h)
    case Alt(_) => false
  }

  /** Soundness of the matcher: whatever it finds is a genuine match. */
  lemma {:induction false} MatchSound(ic: bool, branch: seq<Atom>, bi: nat, nodes: seq<Atom>, ni: nat,
                                      s: string, i: nat, cap: int)
    requires bi <= |branch| && ni <= |nodes| && i <= |s|
    ensures Match(ic, branch, bi, nodes, ni, s, i, cap).Some? ==>
      Accepts(ic, branch, bi, nodes, ni, s, i, cap, Match(ic, branch, bi, nodes, ni, s, i, cap).value)
    decreases |nodes| - ni, |branch| - bi, 1, 0
  {
    if bi < |branch| {
      MatchAtomSound(ic, branch[bi], branch, bi + 1, nodes, ni, s, i, cap);
    } else if ni < |nodes| {
      match nodes[ni]
      case Alt(alts) => TryAltsSound(ic, alts, 0, nodes, ni + 1, s, i, cap);
      case _ => MatchAtomSound(ic, nodes[ni], [], 0, nodes, ni + 1, s, i, cap);
    }
  }

  lemma {:induction false} MatchAtomSound(ic: bool, a: Atom, branch: seq<Atom>, bi: nat, nodes: seq<Atom>, ni: nat,
                                          s: string, i: nat, cap: int)
    requires bi <= |branch| && ni <= |nodes| && i <= |s|
    ensures MatchAtom(ic, a, branch, bi, nodes, ni, s, i, cap).Some? ==>
      AtomAccepts(ic, a, branch, bi, nodes, ni, s, i, cap, MatchAtom(ic, a, branch, bi, nodes, ni, s, i, cap).value)
    decreases |nodes| - ni, |branch| - bi, 3, 0
  {
    match a
    case Char(c) =>
      if i < |s| && CharEq(ic, s[i], c) { MatchSound(ic, branch, bi, nodes, ni, s, i + 1, cap); }
    case Repeat(cs, lo, hi) =>
      MatchRepeatSound(ic, cs, lo, hi, 0, branch, bi, nodes, ni, s, i, cap);
    case CaptureStart => MatchSound(ic, branch, bi, nodes, ni, s, i, i);
    case WordBoundary => MatchSound(ic, branch, bi, nodes, ni, s, i, cap);
    case AheadSpaceOrEnd => MatchSound(ic, branch, bi, nodes, ni, s, i, cap);
    case Alt(_) =>
  }

  lemma {:induction false} MatchRepeatSound(ic: bool, cs: CharSet, lo: nat, hi: Bound, count: nat,
                                            branch: seq<Atom>, bi: nat, nodes: seq<Atom>, ni: nat,
                                            s: string, i: nat, cap: int)
    requires bi <= |branch| && ni <= |nodes| && i <= |s|
    requires WithinBound(count, hi)
    ensures var r := MatchRepeat(ic, cs, lo, hi, count, branch, bi, nodes, ni, s, i, cap);
      r.Some? ==>
        exists e :: i <= e <= |s| && lo <= count + (e - i) && WithinBound(count + (e - i), hi)
          && AllIn(cs, s, i, e) && Accepts(ic, branch, bi, nodes, ni, s, e, cap, r.value)
    decreases |nodes| - ni, |branch| - bi, 2, |s| - i
  {
    var r := MatchRepeat(ic, cs, lo, hi, count, branch, bi, nodes, ni, s, i, cap);
    if WithinBound(count + 1, hi) && i < |s| && InSet(cs, s[i]) {
      var longer := MatchRepeat(ic, cs, lo, hi, count + 1, branch, bi, nodes, ni, s, i + 1, cap);
      MatchRepeatSound(ic, cs, lo, hi, count + 1, branch, bi, nodes, ni, s, i + 1, cap);
      if longer.Some? {
        var e :| i + 1 <= e <= |s| && lo <= count + 1 + (e - (i + 1)) && WithinBound(count + 1 + (e - (i + 1)), hi)
          && AllIn(cs, s, i + 1, e) && Accepts(ic, branch, bi, nodes, ni, s, e, cap, longer.value);
        assert count + 1 + (e - (i + 1)) == count + (e - i);
        assert AllIn(cs, s, i, e);
        assert r == longer;
        return;
      }
    }
    MatchSound(ic, branch, bi, nodes, ni, s, i, cap);
    if r.Some? {
      assert lo <= count && r == Match(ic, branch, bi, nodes, ni, s, i, cap);
      assert AllIn(cs, s, i, i) && count + (i - i) == count;
      assert Accepts(ic, branch, bi, nodes, ni, s, i, cap, r.value);
    }
  }

  lemma {:induction false} TryAltsSound(ic: bool, alts: seq<seq<Atom>>, j: nat, nodes: seq<Atom>, ni: nat,
                                        s: string, i: nat, cap: int)
    requires ni <= |nodes| && i <= |s|
    ensures var r := TryAlts(ic, alts, j, nodes, ni, s, i, cap);
      r.Some? ==> exists k :: j <= k < |alts| && Accepts(ic, alts[k], 0, nodes, ni, s, i, cap, r.value)
    decreases |nodes| - ni + 1, 0, 0, |alts| - j
  {
    if j < |alts| {
      MatchSound(ic, alts[j], 0, nodes, ni, s, i, cap);
      TryAltsSound(ic, alts, j + 1, nodes, ni, s, i, cap);
    }
  }

  /** Completeness of the matcher: when some match exists, the matcher
      finds one (the first in JavaScript's order). */
  lemma {:induction false} MatchComplete(ic: bool, branch: seq<Atom>, bi: nat, nodes: seq<Atom>, ni: nat,
                                         s: string, i: nat, cap: int, h: Hit)
    requires bi <= |branch| && ni <= |nodes| && i <= |s|
    requires Accepts(ic, branch, bi, nodes, ni, s, i, cap, h)
    ensures Match(ic, branch, bi, nodes, ni, s, i, cap).Some?
    decreases |nodes| - ni, |branch| - bi, 1, 0
  {
    if bi < |branch| {
      MatchAtomComplete(ic, branch[bi], branch, bi + 1, nodes, ni, s, i, cap, h);
    } else if ni < |nodes| {
      match nodes[ni]
      case Alt(alts) =>
        var k :| 0 <= k < |alts| && Accepts(ic, alts[k], 0, nodes, ni + 1, s, i, cap, h);
        TryAltsComplete(ic, alts, 0, k, nodes, ni + 1, s, i, cap, h);
      case _ => MatchAtomComplete(ic, nodes[ni], [], 0, nodes, ni + 1, s, i, cap, h);
    }
  }

  lemma {:induction false} MatchAtomComplete(ic: bool, a: Atom, branch: seq<Atom>, bi: nat, nodes: seq<Atom>, ni: nat,
                                             s: string, i: nat, cap: int, h: Hit)
    requires bi <= |branch| && ni <= |nodes| && i <= |s|
    requires AtomAccepts(ic, a, branch, bi, nodes, ni, s, i, cap, h)
    ensures MatchAtom(ic, a, branch, bi, nodes, ni, s, i, cap).Some?
    decreases |nodes| - ni, |branch| - bi, 3, 0
  {
    match a
    case Char(c) => MatchComplete(ic, branch, bi, nodes, ni, s, i + 1, cap, h);
    case Repeat(cs, lo, hi) =>
      var e :| i + lo <= e <= |s| && WithinBound(e - i, hi) && AllIn(cs, s, i, e)
        && Accepts(ic, branch, bi, nodes, ni, s, e, cap, h);
      MatchRepeatComplete(ic, cs, lo, hi, 0, branch, bi, nodes, ni, s, i, cap, e, h);
    case CaptureStart => MatchComplete(ic, branch, bi, nodes, ni, s, i, i, h);
    case WordBoundary => MatchComplete(ic, branch, bi, nodes, ni, s, i, cap, h);
    case AheadSpaceOrEnd => MatchComplete(ic, branch, bi, nodes, ni, s, i, cap, h);
  }

  lemma {:induction false} MatchRepeatComplete(ic: bool, cs: CharSet, lo: nat, hi: Bound, count: nat,
                                               branch: seq<Atom>, bi: nat, nodes: seq<Atom>, ni: nat,
                                               s: string, i: nat, cap: int, e: nat, h: Hit)
    requires bi <= |branch| && ni <= |nodes| && i <= e <= |s|
    requires lo <= count + (e - i) && WithinBound(count + (e - i), hi) && AllIn(cs, s, i, e)
    requires Accepts(ic, branch, bi, nodes, ni, s, e, cap, h)
    ensures MatchRepeat(ic, cs, lo, hi, count, branch, bi, nodes, ni, s, i, cap).Some?
    decreases |nodes| - ni, |branch| - bi, 2, |s| - i
  {
    if e > i {
      assert InSet(cs, s[i]);
      MatchRepeatComplete(ic, cs, lo, hi, count + 1, branch, bi, nodes, ni, s, i + 1, cap, e, h);
    } else {
      MatchComplete(ic, branch, bi, nodes, ni, s, i, cap, h);
    }
  }

  lemma {:induction false} TryAltsComplete(ic: bool, alts: seq<seq<Atom>>, j: nat, k: nat, nodes: seq<Atom>, ni: nat,
                                           s: string, i: nat, cap: int, h: Hit)
    requires ni <= |nodes| && i <= |s| && j <= k < |alts|
    requires Accepts(ic, alts[k], 0, nodes, ni, s, i, cap, h)
    ensures TryAlts(ic, alts, j, nodes, ni, s, i, cap).Some?
    decreases |nodes| - ni + 1, 0, 0, |alts| - j
  {
    if j == k {
      MatchComplete(ic, alts[k], 0, nodes, ni, s, i, cap, h);
    } else if Match(ic, alts[j], 0, nodes, ni, s, i, cap).None? {
      TryAltsComplete(ic, alts, j + 1, k, nodes, ni, s, i, cap, h);
    }
  }

  /** One top-level repetition of an accepted match, taken apart. */
  lemma AcceptsRepeat(ic: bool, nodes: seq<Atom>, ni: nat, s: string, i: nat, cap: int, h: Hit)
    requires ni < |nodes| && nodes[ni].Repeat? && i <= |s|
    requires Accepts(ic, [], 0, nodes, ni, s, i, cap, h)
    ensures exists e :: i + nodes[ni].lo <= e <= |s| && WithinBound(e - i, nodes[ni].hi)
                        && AllIn(nodes[ni].cs, s, i, e) && Accepts(ic, [], 0, nodes, ni + 1, s, e, cap, h)
  {
  }

  // ---------------------------------------------------------------------
  // What `exec` and `match` find

  /** `SearchFrom` finds the leftmost position from `p` on at which the
      pattern matches, together with the first match there. */
  lemma {:induction false} SearchFromLeftmost(re: Regex, s: string, p: nat)
    requires p <= |s|
    ensures SearchFrom(re, s, p).None? ==> forall q :: p <= q <= |s| ==> MatchAt(re, s, q).None?
    ensures SearchFrom(re, s, p).Some? ==>
      var m := SearchFrom(re, s, p).value;
      MatchAt(re, s, m.start) == Some(Hit(m.end, m.group))
      && forall q :: p <= q < m.start ==> MatchAt(re, s, q).None?
    decreases |s| - p
  {
    if MatchAt(re, s, p).None? && p < |s| {
      SearchFromLeftmost(re, s, p + 1);
    }
  }

  /** `exec` on a global regular expression: it fails when `lastIndex` is
      past the end; when it fails, no match starts anywhere in
      `[lastIndex, |s|]` and `lastIndex` returns to 0; when it succeeds, the
      match starts at the leftmost position from `lastIndex` on where the
      pattern matches, is the first match there, and `lastIndex` moves to
      its end. */
  lemma ExecSpec(re: Regex, s: string, lastIndex: nat)
    ensures lastIndex > |s| ==> ExecFrom(re, s, lastIndex) == ExecResult(None, 0)
    ensures ExecFrom(re, s, lastIndex).found.None? ==>
      ExecFrom(re, s, lastIndex).lastIndex == 0
      && forall q :: lastIndex <= q <= |s| ==> MatchAt(re, s, q).None?
    ensures ExecFrom(re, s, lastIndex).found.Some? ==>
      var m := ExecFrom(re, s, lastIndex).found.value;
      ExecFrom(re, s, lastIndex).lastIndex == m.end
      && MatchAt(re, s, m.start) == Some(Hit(m.end, m.group))
      && forall q :: lastIndex <= q < m.start ==> MatchAt(re, s, q).None?
  {
    if lastIndex <= |s| {
      SearchFromLeftmost(re, s, lastIndex);
    }
  }

  /** The entries of `ms` are matches of `re` in `s` starting at or after
      `from`, each the first match at its start, in order and without
      overlap; each starts no earlier than where the search resumed after
      the one before. */
  predicate SuccessiveMatches(re: Regex, s: string, from: nat, ms: seq<MatchInfo>) {
    (forall k :: 0 <= k < |ms| ==>
      from <= ms[k].start <= ms[k].end <= |s|
      && MatchAt(re, s, ms[k].start) == Some(Hit(ms[k].end, ms[k].group)))
    && (forall k :: 0 <= k < |ms| - 1 ==> Resume(ms[k]) <= ms[k + 1].start)
  }

  /** No match of `re` is passed over by `ms`: none starts from `from`
      up to the first entry, none between where the search resumes after
      an entry and the next entry, and none from where it resumes after
      the last entry to the end of `s` (none at all from `from` when `ms`
      is empty). */
  predicate NoneMissed(re: Regex, s: string, from: nat, ms: seq<MatchInfo>) {
    (ms == [] ==> forall q :: from <= q <= |s| ==> MatchAt(re, s, q).None?)
    && (ms != [] ==> forall q :: from <= q < ms[0].start && q <= |s| ==> MatchAt(re, s, q).None?)
    && (forall k, q :: 0 <= k < |ms| - 1 && Resume(ms[k]) <= q < ms[k + 1].start && q <= |s| ==>
          MatchAt(re, s, q).None?)
    && (ms != [] ==> forall q :: Resume(ms[|ms| - 1]) <= q <= |s| ==> MatchAt(re, s, q).None?)
  }

  /** What `String.prototype.match` collects from `lastIndex` on are
      successive matches, and it passes over no match. */
  lemma MatchAllSpec(re: Regex, s: string, lastIndex: nat)
    ensures SuccessiveMatches(re, s, lastIndex, MatchAllFrom(re, s, lastIndex))
    ensures NoneMissed(re, s, lastIndex, MatchAllFrom(re, s, lastIndex))
  {
    MatchAllSuccessive(re, s, lastIndex);
    MatchAllNoneMissed(re, s, lastIndex);
  }

  lemma {:induction false} MatchAllSuccessive(re: Regex, s: string, lastIndex: nat)
    ensures SuccessiveMatches(re, s, lastIndex, MatchAllFrom(re, s, lastIndex))
    decreases |s| + 1 - lastIndex
  {
    var r := ExecFrom(re, s, lastIndex);
    ExecSpec(re, s, lastIndex);
    if r.found.Some? {
      var m := r.found.value;
      MatchAllSuccessive(re, s, Resume(m));
      SuccessiveCons(re, s, lastIndex, Resume(m), m, MatchAllFrom(re, s, Resume(m)));
    }
  }

  lemma {:induction false} MatchAllNoneMissed(re: Regex, s: string, lastIndex: nat)
    ensures NoneMissed(re, s, lastIndex, MatchAllFrom(re, s, lastIndex))
    decreases |s| + 1 - lastIndex
  {
    var r := ExecFrom(re, s, lastIndex);
    ExecSpec(re, s, lastIndex);
    if r.found.Some? {
      var m := r.found.value;
      MatchAllNoneMissed(re, s, Resume(m));
      NoneMissedCons(re, s, lastIndex, m, MatchAllFrom(re, s, Resume(m)));
    }
  }

  lemma SuccessiveCons(re: Regex, s: string, from: nat, next: nat, m: MatchInfo, rest: seq<MatchInfo>)
    requires from <= m.start <= m.end <= |s| && Resume(m) <= next
    requires MatchAt(re, s, m.start) == Some(Hit(m.end, m.group))
    requires SuccessiveMatches(re, s, next, rest)
    ensures SuccessiveMatches(re, s, from, [m] + rest)
  {
    var ms := [m] + rest;
    assert forall k :: 1 <= k < |ms| ==> ms[k] == rest[k - 1];
  }

  lemma NoneMissedCons(re: Regex, s: string, from: nat, m: MatchInfo, rest: seq<MatchInfo>)
    requires forall q :: from <= q < m.start && q <= |s| ==> MatchAt(re, s, q).None?
    requires NoneMissed(re, s, Resume(m), rest)
    ensures NoneMissed(re, s, from, [m] + rest)
  {
    var ms := [m] + rest;
    assert ms[0] == m;
    assert forall k :: 1 <= k < |ms| ==> ms[k] == rest[k - 1];
    forall k, q | 0 <= k < |ms| - 1 && Resume(ms[k]) <= q < ms[k + 1].start && q <= |s|
      ensures MatchAt(re, s, q).None?
    {
      if k > 0 {
        assert Resume(rest[k - 1]) <= q < rest[k].start;
      }
    }
    if rest == [] {
      assert ms[|ms| - 1] == m;
    } else {
      assert ms[|ms| - 1] == rest[|rest| - 1];
    }
  }

  // ---------------------------------------------------------------------
  // Computing what the matcher does, step by step

  /** The word `w` occurs at `q` of `s`, compared as the matcher compares
      literal characters. */
  function WordAt(ic: bool, s: string, q: nat, w: string): bool
    decreases |w|
  {
    if w == [] then true
    else q < |s| && CharEq(ic, s[q], w[0]) && WordAt(ic, s, q + 1, w[1..])
  }

  /** A word occurs only where each of its prefixes does. */
  lemma {:induction false} WordAtPrefix(ic: bool, s: string, q: nat, w: string, m: nat)
    requires m <= |w| && WordAt(ic, s, q, w)
    ensures WordAt(ic, s, q, w[..m])
    decreases m
  {
    if m > 0 {
      assert w[..m][1..] == w[1..][..m - 1];
      WordAtPrefix(ic, s, q + 1, w[1..], m - 1);
    }
  }

  /** A run of literal characters `w` in a branch matches exactly when `w`
      occurs at `i`, and the match goes on after it. */
  lemma {:induction false} LitPrefix(ic: bool, branch: seq<Atom>, bi: nat, w: string, nodes: seq<Atom>, ni: nat,
                                     s: string, i: nat, cap: int)
    requires bi + |w| <= |branch| && ni <= |nodes| && i <= |s|
    requires forall k :: 0 <= k < |w| ==> branch[bi + k] == Char(w[k])
    ensures !WordAt(ic, s, i, w) ==> Match(ic, branch, bi, nodes, ni, s, i, cap).None?
    ensures WordAt(ic, s, i, w) ==>
      i + |w| <= |s| && Match(ic, branch, bi, nodes, ni, s, i, cap) == Match(ic, branch, bi + |w|, nodes, ni, s, i + |w|, cap)
    decreases |w|
  {
    if w != [] {
      assert branch[bi] == Char(w[0]);
      if i < |s| && CharEq(ic, s[i], w[0]) {
        forall k | 0 <= k < |w[1..]| ensures branch[bi + 1 + k] == Char(w[1..][k]) {
          assert branch[bi + (k + 1)] == Char(w[k + 1]);
        }
        LitPrefix(ic, branch, bi + 1, w[1..], nodes, ni, s, i + 1, cap);
      }
    }
  }

  /** A branch that is used up hands over to the rest of the pattern. */
  lemma BranchDone(ic: bool, branch: seq<Atom>, nodes: seq<Atom>, ni: nat, s: string, i: nat, cap: int)
    requires ni <= |nodes| && i <= |s|
    ensures Match(ic, branch, |branch|, nodes, ni, s, i, cap) == Match(ic, [], 0, nodes, ni, s, i, cap)
  {
  }

  /** `s[i..e]` is the longest run of `cs` from `i` that a repetition which
      has matched `count` characters may still take. */
  predicate MaxRun(cs: CharSet, hi: Bound, count: nat, s: string, i: nat, e: nat) {
    i <= e <= |s| && AllIn(cs, s, i, e) && WithinBound(count + (e - i), hi)
    && (e == |s| || !InSet(cs, s[e]) || !WithinBound(count + (e - i) + 1, hi))
  }

  /** A greedy repetition takes its longest run when the rest of the
      pattern matches after it. */
  lemma {:induction false} GreedyRepeatHit(ic: bool, cs: CharSet, lo: nat, hi: Bound, count: nat,
                                           branch: seq<Atom>, bi: nat, nodes: seq<Atom>, ni: nat,
                                           s: string, i: nat, cap: int, e: nat)
    requires bi <= |branch| && ni <= |nodes| && MaxRun(cs, hi, count, s, i, e)
    requires lo <= count + (e - i) && Match(ic, branch, bi, nodes, ni, s, e, cap).Some?
    ensures MatchRepeat(ic, cs, lo, hi, count, branch, bi, nodes, ni, s, i, cap)
         == Match(ic, branch, bi, nodes, ni, s, e, cap)
    decreases e - i
  {
    if i < e {
      assert InSet(cs, s[i]);
      GreedyRepeatHit(ic, cs, lo, hi, count + 1, branch, bi, nodes, ni, s, i + 1, cap, e);
    }
  }

  /** A greedy repetition fails when the rest of the pattern fails after
      every count it may take. */
  lemma {:induction false} GreedyRepeatMiss(ic: bool, cs: CharSet, lo: nat, hi: Bound, count: nat,
                                            branch: seq<Atom>, bi: nat, nodes: seq<Atom>, ni: nat,
                                            s: string, i: nat, cap: int, e: nat)
    requires bi <= |branch| && ni <= |nodes| && MaxRun(cs, hi, count, s, i, e)
    requires forall f :: i <= f <= e && lo <= count + (f - i) ==> Match(ic, branch, bi, nodes, ni, s, f, cap).None?
    ensures MatchRepeat(ic, cs, lo, hi, count, branch, bi, nodes, ni, s, i, cap).None?
    decreases e - i
  {
    if i < e {
      assert InSet(cs, s[i]);
      GreedyRepeatMiss(ic, cs, lo, hi, count + 1, branch, bi, nodes, ni, s, i + 1, cap, e);
    }
  }

  /** Branches that fail are passed over in order. */
  lemma {:induction false} TryAltsSkip(ic: bool, alts: seq<seq<Atom>>, j0: nat, j: nat, nodes: seq<Atom>, ni: nat,
                                       s: string, i: nat, cap: int)
    requires ni <= |nodes| && i <= |s| && j0 <= j <= |alts|
    requires forall k :: j0 <= k < j ==> Match(ic, alts[k], 0, nodes, ni, s, i, cap).None?
    ensures TryAlts(ic, alts, j0, nodes, ni, s, i, cap) == TryAlts(ic, alts, j, nodes, ni, s, i, cap)
    decreases j - j0
  {
    if j0 < j {
      TryAltsSkip(ic, alts, j0 + 1, j, nodes, ni, s, i, cap);
    }
  }

  /** The search passes over a position where the pattern does not match. */
  lemma SearchSkip(re: Regex, s: string, p: nat)
    requires p < |s| && MatchAt(re, s, p).None?
    ensures SearchFrom(re, s, p) == SearchFrom(re, s, p + 1)
  {
  }

  /** `exec` from 0 when the pattern matches at 0. */
  lemma ExecAtStart(re: Regex, s: string, h: Hit)
    requires MatchAt(re, s, 0) == Some(h)
    ensures ExecFrom(re, s, 0) == ExecResult(Some(MatchInfo(0, h.end, h.cap)), h.end)
  {
  }

  // ---------------------------------------------------------------------
  // Patterns of the form (?:label|...)...(cs{lo,hi}): what group 1 holds

  /** No group opening and no alternation among `atoms[from..to]`. */
  predicate Plain(atoms: seq<Atom>, from: nat, to: nat)
    requires to <= |atoms|
  {
    forall k :: from <= k < to ==> !atoms[k].CaptureStart? && !atoms[k].Alt?
  }

  /** A labelled field: an alternation of plain labels, plain atoms, then
      group 1 made of one repetition `cs{lo,hi}` that ends the pattern. */
  predicate LabelledField(re: Regex, cs: CharSet, lo: nat, hi: Bound) {
    var nodes := re.nodes;
    |nodes| >= 3 && nodes[0].Alt?
    && (forall j :: 0 <= j < |nodes[0].alts| ==> Plain(nodes[0].alts[j], 0, |nodes[0].alts[j]|))
    && Plain(nodes, 1, |nodes| - 2)
    && nodes[|nodes| - 2] == CaptureStart && nodes[|nodes| - 1] == Repeat(cs, lo, hi)
  }

  /** Any way of matching the rest of a labelled field from `i` opens
      group 1 at or after `i` and fills it with `lo` to `hi` characters of
      `cs` up to the end of the match. */
  lemma {:induction false} GroupAtEnd(ic: bool, branch: seq<Atom>, bi: nat, nodes: seq<Atom>, ni: nat,
                                      s: string, i: nat, cap: int, h: Hit, cs: CharSet, lo: nat, hi: Bound)
    requires bi <= |branch| && 2 <= |nodes| && ni <= |nodes| - 2 && i <= |s|
    requires nodes[|nodes| - 2] == CaptureStart && nodes[|nodes| - 1] == Repeat(cs, lo, hi)
    requires Plain(branch, bi, |branch|) && Plain(nodes, ni, |nodes| - 2)
    requires Accepts(ic, branch, bi, nodes, ni, s, i, cap, h)
    ensures i <= h.cap <= h.end <= |s| && lo <= h.end - h.cap && WithinBound(h.end - h.cap, hi)
    ensures AllIn(cs, s, h.cap, h.end)
    decreases |nodes| - ni, |branch| - bi, 0
  {
    if bi < |branch| {
      GroupAtEndAtom(ic, branch[bi], branch, bi + 1, nodes, ni, s, i, cap, h, cs, lo, hi);
    } else if ni < |nodes| - 2 {
      GroupAtEndAtom(ic, nodes[ni], [], 0, nodes, ni + 1, s, i, cap, h, cs, lo, hi);
    } else {
      assert Accepts(ic, [], 0, nodes, ni + 1, s, i, i, h);
      var e :| i + lo <= e <= |s| && WithinBound(e - i, hi) && AllIn(cs, s, i, e)
        && Accepts(ic, [], 0, nodes, ni + 2, s, e, i, h);
    }
  }

  lemma {:induction false} GroupAtEndAtom(ic: bool, a: Atom, branch: seq<Atom>, bi: nat, nodes: seq<Atom>, ni: nat,
                                          s: string, i: nat, cap: int, h: Hit, cs: CharSet, lo: nat, hi: Bound)
    requires bi <= |branch| && 2 <= |nodes| && ni <= |nodes| - 2 && i <= |s|
    requires nodes[|nodes| - 2] == CaptureStart && nodes[|nodes| - 1] == Repeat(cs, lo, hi)
    requires Plain(branch, bi, |branch|) && Plain(nodes, ni, |nodes| - 2)
    requires !a.CaptureStart? && !a.Alt?
    requires AtomAccepts(ic, a, branch, bi, nodes, ni, s, i, cap, h)
    ensures i <= h.cap <= h.end <= |s| && lo <= h.end - h.cap && WithinBound(h.end - h.cap, hi)
    ensures AllIn(cs, s, h.cap, h.end)
    decreases |nodes| - ni, |branch| - bi, 1
  {
    match a
    case Char(c) => GroupAtEnd(ic, branch, bi, nodes, ni, s, i + 1, cap, h, cs, lo, hi);
    case Repeat(cs', lo', hi') =>
      var e :| i + lo' <= e <= |s| && WithinBound(e - i, hi') && AllIn(cs', s, i, e)
        && Accepts(ic, branch, bi, nodes, ni, s, e, cap, h);
      GroupAtEnd(ic, branch, bi, nodes, ni, s, e, cap, h, cs, lo, hi);
    case WordBoundary => GroupAtEnd(ic, branch, bi, nodes, ni, s, i, cap, h, cs, lo, hi);
    case AheadSpaceOrEnd => GroupAtEnd(ic, branch, bi, nodes, ni, s, i, cap, h, cs, lo, hi);
  }

  /** What `exec` finds with a labelled field: group 1 lies inside the
      match, runs to its end, and holds `lo` to `hi` characters of `cs`. */
  lemma ExecGroup(re: Regex, s: string, lastIndex: nat, cs: CharSet, lo: nat, hi: Bound)
    requires LabelledField(re, cs, lo, hi)
    ensures var r := ExecFrom(re, s, lastIndex);
      r.found.Some? ==>
        var m := r.found.value;
        m.start <= m.group <= m.end <= |s| && lo <= m.end - m.group && WithinBound(m.end - m.group, hi)
        && AllIn(cs, s, m.group, m.end)
  {
    var r := ExecFrom(re, s, lastIndex);
    ExecSpec(re, s, lastIndex);
    if r.found.Some? {
      var m := r.found.value;
      var h := Hit(m.end, m.group);
      MatchSound(re.ignoreCase, [], 0, re.nodes, 0, s, m.start, NoGroup);
      var alts := re.nodes[0].alts;
      var j :| 0 <= j < |alts| && Accepts(re.ignoreCase, alts[j], 0, re.nodes, 1, s, m.start, NoGroup, h);
      GroupAtEnd(re.ignoreCase, alts[j], 0, re.nodes, 1, s, m.start, NoGroup, h, cs, lo, hi);
    }
  }
}
