/** The five regular expressions of the document parser
    (content-script.js:477-490), written in the matcher's fragment. */
module Patterns {
  import opened JsText
  import opened JsRegex

  /** A literal word, one `Char` atom per character. */
  function Lit(w: string): (r: seq<Atom>)
    ensures |r| == |w|
    ensures forall k :: 0 <= k < |w| ==> r[k] == Char(w[k])
  {
    seq(|w|, k requires 0 <= k < |w| => Char(w[k]))
  }

  /** `\s*:?\s*(` — the separator between a label and its value, and the
      start of group 1. */
  const Separator: seq<Atom> :=
    [Repeat(Space, 0, Unbounded), Repeat(Single(':'), 0, AtMost(1)), Repeat(Space, 0, Unbounded), CaptureStart]

  /** `/(?:name|student|contact)\s*:?\s*([a-zA-Z\s]{2,30})/gi` */
  const NamePattern: Regex :=
    Regex([Alt([Lit("name"), Lit("student"), Lit("contact")])] + Separator
          + [Repeat(LetterOrSpace, 2, AtMost(30))], true)

  /** `/(?:id|student\s*id|number)\s*:?\s*([0-9]{6,12})/gi` */
  const IdPattern: Regex :=
    Regex([Alt([Lit("id"), Lit("student") + [Repeat(Space, 0, Unbounded)] + Lit("id"), Lit("number")])]
          + Separator + [Repeat(Digit, 6, AtMost(12))], true)

  /** `/(?:phone|tel|telephone)\s*:?\s*([\(\)\-\s0-9]{10,20})/gi` */
  const PhonePattern: Regex :=
    Regex([Alt([Lit("phone"), Lit("tel"), Lit("telephone")])] + Separator
          + [Repeat(PhoneChar, 10, AtMost(20))], true)

  /** `/([A-Z][a-z]+\s+[A-Z][a-z]+)(?=\s|$)/g`. Its group is the whole
      match, and only the whole match (`match[0]`) is ever used. */
  const NameAltPattern: Regex :=
    Regex([Repeat(Upper, 1, AtMost(1)), Repeat(Lower, 1, Unbounded), Repeat(Space, 1, Unbounded),
           Repeat(Upper, 1, AtMost(1)), Repeat(Lower, 1, Unbounded), AheadSpaceOrEnd], false)

  /** `/\b([0-9]{8,12})\b/g`, likewise used through `match[0]` only. */
  const IdAltPattern: Regex :=
    Regex([WordBoundary, Repeat(Digit, 8, AtMost(12)), WordBoundary], false)

  /** The three tier-1 patterns are labelled fields: group 1 is the
      repetition that ends each of them. */
  lemma Tier1Fields()
    ensures LabelledField(NamePattern, LetterOrSpace, 2, AtMost(30))
    ensures LabelledField(IdPattern, Digit, 6, AtMost(12))
    ensures LabelledField(PhonePattern, PhoneChar, 10, AtMost(20))
  {
  }

  /** The three patterns of the tier-1 scan. */
  predicate IsTier1(re: Regex) {
    re == NamePattern || re == IdPattern || re == PhonePattern
  }

  /** Group 1 of a match of a tier-1 pattern lies inside the match and
      runs to its end. */
  lemma Tier1GroupBounds(re: Regex, line: string, lastIndex: nat)
    requires IsTier1(re)
    ensures var r := ExecFrom(re, line, lastIndex);
      r.found.Some? ==> r.found.value.start <= r.found.value.group <= r.found.value.end <= |line|
  {
    if re == NamePattern {
      NameGroup(line, lastIndex);
    } else if re == IdPattern {
      IdGroup(line, lastIndex);
    } else {
      PhoneGroup(line, lastIndex);
    }
  }

  /** Group 1 of a name-pattern match: 2 to 30 letters and whitespace
      running to the end of the match. */
  lemma NameGroup(line: string, lastIndex: nat)
    ensures var r := ExecFrom(NamePattern, line, lastIndex);
      r.found.Some? ==>
        var m := r.found.value;
        m.start <= m.group <= m.end <= |line| && 2 <= m.end - m.group <= 30
        && AllIn(LetterOrSpace, line, m.group, m.end)
  {
    Tier1Fields();
    ExecGroup(NamePattern, line, lastIndex, LetterOrSpace, 2, AtMost(30));
  }

  /** Group 1 of an id-pattern match: 6 to 12 digits running to the end of
      the match. */
  lemma IdGroup(line: string, lastIndex: nat)
    ensures var r := ExecFrom(IdPattern, line, lastIndex);
      r.found.Some? ==>
        var m := r.found.value;
        m.start <= m.group <= m.end <= |line| && 6 <= m.end - m.group <= 12
        && AllIn(Digit, line, m.group, m.end)
  {
    Tier1Fields();
    ExecGroup(IdPattern, line, lastIndex, Digit, 6, AtMost(12));
  }

  /** Group 1 of a phone-pattern match: 10 to 20 digits, parentheses,
      hyphens and whitespace running to the end of the match. */
  lemma PhoneGroup(line: string, lastIndex: nat)
    ensures var r := ExecFrom(PhonePattern, line, lastIndex);
      r.found.Some? ==>
        var m := r.found.value;
        m.start <= m.group <= m.end <= |line| && 10 <= m.end - m.group <= 20
        && AllIn(PhoneChar, line, m.group, m.end)
  {
    Tier1Fields();
    ExecGroup(PhonePattern, line, lastIndex, PhoneChar, 10, AtMost(20));
  }

  /** `s[i..e]` is a capitalised word, whitespace, and another capitalised
      word (`[A-Z][a-z]+\s+[A-Z][a-z]+`), and whitespace or the end of `s`
      follows it. */
  ghost predicate TwoCapitalisedWords(s: string, i: nat, e: nat)
    requires i <= e <= |s|
  {
    i < e && IsUpper(s[i])
    && (exists a, b :: i + 2 <= a < b <= e - 2 && AllIn(Lower, s, i + 1, a) && AllIn(Space, s, a, b)
                       && IsUpper(s[b]) && AllIn(Lower, s, b + 1, e))
    && (e == |s| || IsSpace(s[e]))
  }

  /** Whatever the names fallback pattern matches at `i` is two capitalised
      words followed by whitespace or the end of the text. */
  lemma NameAltShape(s: string, i: nat)
    requires i <= |s|
    ensures MatchAt(NameAltPattern, s, i).Some? ==> TwoCapitalisedWords(s, i, MatchAt(NameAltPattern, s, i).value.end)
  {
    if MatchAt(NameAltPattern, s, i).Some? {
      var h := MatchAt(NameAltPattern, s, i).value;
      MatchSound(false, [], 0, NameAltPattern.nodes, 0, s, i, NoGroup);
      TwoWordsAccepted(NameAltPattern.nodes, s, i, h);
    }
  }

  /** An accepted match of `[A-Z][a-z]+\s+[A-Z][a-z]+(?=\s|$)`, taken apart. */
  lemma TwoWordsAccepted(nodes: seq<Atom>, s: string, i: nat, h: Hit)
    requires |nodes| == 6 && i <= |s|
    requires nodes[0] == Repeat(Upper, 1, AtMost(1)) && nodes[1] == Repeat(Lower, 1, Unbounded)
    requires nodes[2] == Repeat(Space, 1, Unbounded)
    requires nodes[3] == Repeat(Upper, 1, AtMost(1)) && nodes[4] == Repeat(Lower, 1, Unbounded)
    requires nodes[5] == AheadSpaceOrEnd
    requires Accepts(false, [], 0, nodes, 0, s, i, NoGroup, h)
    ensures i <= h.end <= |s| && TwoCapitalisedWords(s, i, h.end)
  {
    var a := CapitalisedWord(nodes, 0, s, i, h);
    AcceptsRepeat(false, nodes, 2, s, a, NoGroup, h);
    var b :| a + 1 <= b <= |s| && AllIn(Space, s, a, b) && Accepts(false, [], 0, nodes, 3, s, b, NoGroup, h);
    var e := CapitalisedWord(nodes, 3, s, b, h);
    assert Accepts(false, [], 0, nodes, 5, s, e, NoGroup, h);
    assert AtomAccepts(false, AheadSpaceOrEnd, [], 0, nodes, 6, s, e, NoGroup, h);
    assert Accepts(false, [], 0, nodes, 6, s, e, NoGroup, h);
    assert h.end == e && (e == |s| || IsSpace(s[e]));
    assert i + 2 <= a < b <= e - 2 && AllIn(Lower, s, i + 1, a) && AllIn(Space, s, a, b)
      && IsUpper(s[b]) && AllIn(Lower, s, b + 1, e);
  }

  /** A capitalised word `[A-Z][a-z]+` of an accepted match, taken apart. */
  lemma CapitalisedWord(nodes: seq<Atom>, ni: nat, s: string, i: nat, h: Hit) returns (a: nat)
    requires ni + 1 < |nodes| && i <= |s|
    requires nodes[ni] == Repeat(Upper, 1, AtMost(1)) && nodes[ni + 1] == Repeat(Lower, 1, Unbounded)
    requires Accepts(false, [], 0, nodes, ni, s, i, NoGroup, h)
    ensures i + 2 <= a <= |s| && IsUpper(s[i]) && AllIn(Lower, s, i + 1, a)
    ensures Accepts(false, [], 0, nodes, ni + 2, s, a, NoGroup, h)
  {
    AcceptsRepeat(false, nodes, ni, s, i, NoGroup, h);
    var e1 :| i + 1 <= e1 <= |s| && WithinBound(e1 - i, AtMost(1)) && AllIn(Upper, s, i, e1)
      && Accepts(false, [], 0, nodes, ni + 1, s, e1, NoGroup, h);
    AcceptsRepeat(false, nodes, ni + 1, s, e1, NoGroup, h);
    a :| e1 + 1 <= a <= |s| && AllIn(Lower, s, e1, a) && Accepts(false, [], 0, nodes, ni + 2, s, a, NoGroup, h);
    assert e1 == i + 1 && IsUpper(s[i]);
  }

  /** Whatever the ids fallback pattern matches at `i` is a whole run of 8
      to 12 digits: neither end touches a word character, so longer digit
      runs and digits next to letters or `_` never match. */
  lemma IdAltShape(s: string, i: nat)
    requires i <= |s|
    ensures MatchAt(IdAltPattern, s, i).Some? ==>
      var e := MatchAt(IdAltPattern, s, i).value.end;
      8 <= e - i <= 12 && AllIn(Digit, s, i, e)
      && (i == 0 || !IsWordChar(s[i - 1])) && (e == |s| || !IsWordChar(s[e]))
  {
    var nodes := IdAltPattern.nodes;
    if MatchAt(IdAltPattern, s, i).Some? {
      var h := MatchAt(IdAltPattern, s, i).value;
      MatchSound(false, [], 0, nodes, 0, s, i, NoGroup);
      assert IsBoundary(s, i) && Accepts(false, [], 0, nodes, 1, s, i, NoGroup, h);
      var e :| i + 8 <= e <= |s| && WithinBound(e - i, AtMost(12)) && AllIn(Digit, s, i, e)
        && Accepts(false, [], 0, nodes, 2, s, e, NoGroup, h);
      assert IsBoundary(s, e) && h.end == e;
      assert IsWordChar(s[i]) && IsWordChar(s[e - 1]);
    }
  }

  // ---------------------------------------------------------------------
  // Computing tier-1 matches

  /** The words that begin the three branches of each tier-1 label. */
  const NameLabels: seq<string> := ["name", "student", "contact"]
  const IdLabels: seq<string> := ["id", "student", "number"]
  const PhoneLabels: seq<string> := ["phone", "tel", "telephone"]

  /** The pattern starts with an alternation of three branches, the
      branch `j` starting with the literal word `ws[j]`. */
  predicate LabelsLead(re: Regex, ws: seq<string>) {
    |ws| == 3 && |re.nodes| >= 1 && re.nodes[0].Alt? && |re.nodes[0].alts| == 3
    && forall j :: 0 <= j < 3 ==>
         0 < |ws[j]| <= |re.nodes[0].alts[j]|
         && forall k :: 0 <= k < |ws[j]| ==> re.nodes[0].alts[j][k] == Char(ws[j][k])
  }

  lemma TierOneLabels()
    ensures LabelsLead(NamePattern, NameLabels)
    ensures LabelsLead(IdPattern, IdLabels)
    ensures LabelsLead(PhonePattern, PhoneLabels)
  {
    var student := Lit("student") + [Repeat(Space, 0, Unbounded)] + Lit("id");
    assert forall k :: 0 <= k < 7 ==> student[k] == Lit("student")[k];
  }

  /** The branches that are a label word and nothing else. */
  lemma BareLabels()
    ensures |NamePattern.nodes[0].alts[0]| == 4 && |NamePattern.nodes[0].alts[1]| == 7
    ensures |IdPattern.nodes[0].alts[0]| == 2 && |PhonePattern.nodes[0].alts[0]| == 5
  {
  }

  /** The word `w` occurs at no position in `[p, q)`. */
  predicate NoWordBetween(ic: bool, s: string, p: nat, q: nat, w: string) {
    forall k :: p <= k < q ==> !WordAt(ic, s, k, w)
  }

  /** Where a prefix of a word never occurs, the word does not either. */
  lemma NoWordOfPrefix(ic: bool, s: string, p: nat, q: nat, w: string, m: nat)
    requires m <= |w| && NoWordBetween(ic, s, p, q, w[..m])
    ensures NoWordBetween(ic, s, p, q, w)
  {
    forall k | p <= k < q && WordAt(ic, s, k, w) ensures false {
      WordAtPrefix(ic, s, k, w, m);
    }
  }

  /** None of the three words occurs at any position in `[p, q)`. */
  predicate NoLabelBetween(ic: bool, s: string, p: nat, q: nat, ws: seq<string>)
    requires |ws| == 3
  {
    NoWordBetween(ic, s, p, q, ws[0]) && NoWordBetween(ic, s, p, q, ws[1]) && NoWordBetween(ic, s, p, q, ws[2])
  }

  /** Where no label word occurs, the pattern does not match. */
  lemma NoLabelNoMatch(re: Regex, ws: seq<string>, s: string, q: nat)
    requires LabelsLead(re, ws) && q <= |s|
    requires !WordAt(re.ignoreCase, s, q, ws[0]) && !WordAt(re.ignoreCase, s, q, ws[1])
             && !WordAt(re.ignoreCase, s, q, ws[2])
    ensures MatchAt(re, s, q).None?
  {
    var ic, nodes, alts := re.ignoreCase, re.nodes, re.nodes[0].alts;
    LitPrefix(ic, alts[0], 0, ws[0], nodes, 1, s, q, NoGroup);
    LitPrefix(ic, alts[1], 0, ws[1], nodes, 1, s, q, NoGroup);
    LitPrefix(ic, alts[2], 0, ws[2], nodes, 1, s, q, NoGroup);
    assert TryAlts(ic, alts, 2, nodes, 1, s, q, NoGroup).None?;
    assert TryAlts(ic, alts, 0, nodes, 1, s, q, NoGroup).None?;
  }

  /** The search passes over a stretch where no label word occurs. */
  lemma {:induction false} NoLabelSkip(re: Regex, ws: seq<string>, s: string, p: nat, q: nat)
    requires LabelsLead(re, ws) && p <= q <= |s|
    requires NoLabelBetween(re.ignoreCase, s, p, q, ws)
    ensures SearchFrom(re, s, p) == SearchFrom(re, s, q)
    decreases q - p
  {
    if p < q {
      NoLabelNoMatch(re, ws, s, p);
      SearchSkip(re, s, p);
      NoLabelSkip(re, ws, s, p + 1, q);
    }
  }

  /** A search from `p` fails when no label word occurs from `p` on. */
  lemma NoLabelSearch(re: Regex, ws: seq<string>, s: string, p: nat)
    requires LabelsLead(re, ws) && p <= |s|
    requires NoLabelBetween(re.ignoreCase, s, p, |s|, ws)
    ensures SearchFrom(re, s, p).None?
  {
    NoLabelSkip(re, ws, s, p, |s|);
    NoLabelNoMatch(re, ws, s, |s|);
  }

  /** Nothing after the label can match when fewer than `lo` characters
      are left for group 1. */
  lemma TailTooShort(re: Regex, cs: CharSet, lo: nat, hi: Bound, s: string, p: nat, cap: int)
    requires LabelledField(re, cs, lo, hi) && p <= |s| && |s| - p < lo
    ensures Match(re.ignoreCase, [], 0, re.nodes, 1, s, p, cap).None?
  {
    var ic, nodes := re.ignoreCase, re.nodes;
    MatchSound(ic, [], 0, nodes, 1, s, p, cap);
    if Match(ic, [], 0, nodes, 1, s, p, cap).Some? {
      var h := Match(ic, [], 0, nodes, 1, s, p, cap).value;
      GroupAtEnd(ic, [], 0, nodes, 1, s, p, cap, h, cs, lo, hi);
      assert false;
    }
  }

  /** The part after the label: `\s*:?\s*(` and group 1, `cs{lo,hi}`. */
  predicate FieldTail(nodes: seq<Atom>, cs: CharSet, lo: nat, hi: Bound) {
    |nodes| == 6
    && nodes[1] == Repeat(Space, 0, Unbounded) && nodes[2] == Repeat(Single(':'), 0, AtMost(1))
    && nodes[3] == Repeat(Space, 0, Unbounded) && nodes[4] == CaptureStart && nodes[5] == Repeat(cs, lo, hi)
  }

  lemma TierOneTails()
    ensures FieldTail(NamePattern.nodes, LetterOrSpace, 2, AtMost(30))
    ensures FieldTail(IdPattern.nodes, Digit, 6, AtMost(12))
    ensures FieldTail(PhonePattern.nodes, PhoneChar, 10, AtMost(20))
  {
  }

  /** After a label, `\s*:?\s*(` and a group that can take `lo` or more
      characters: the spaces, the colon if there is one, the spaces again
      and the longest run of the group are all taken. */
  lemma TailHit(ic: bool, nodes: seq<Atom>, cs: CharSet, lo: nat, hi: Bound, s: string, p: nat, cap: int,
                a: nat, b: nat, c: nat, e: nat)
    requires FieldTail(nodes, cs, lo, hi)
    requires MaxRun(Space, Unbounded, 0, s, p, a)
    requires b == (if a < |s| && s[a] == ':' then a + 1 else a)
    requires MaxRun(Space, Unbounded, 0, s, b, c) && MaxRun(cs, hi, 0, s, c, e) && lo <= e - c
    ensures Match(ic, [], 0, nodes, 1, s, p, cap) == Some(Hit(e, c))
  {
    assert Match(ic, [], 0, nodes, 6, s, e, c) == Some(Hit(e, c));
    GreedyRepeatHit(ic, cs, lo, hi, 0, [], 0, nodes, 6, s, c, c, e);
    assert Match(ic, [], 0, nodes, 5, s, c, c) == Some(Hit(e, c));
    assert Match(ic, [], 0, nodes, 4, s, c, cap) == Some(Hit(e, c));
    GreedyRepeatHit(ic, Space, 0, Unbounded, 0, [], 0, nodes, 4, s, b, cap, c);
    assert MaxRun(Single(':'), AtMost(1), 0, s, a, b);
    GreedyRepeatHit(ic, Single(':'), 0, AtMost(1), 0, [], 0, nodes, 3, s, a, cap, b);
    GreedyRepeatHit(ic, Space, 0, Unbounded, 0, [], 0, nodes, 2, s, p, cap, a);
  }

  /** Branch `j` is a bare label word that occurs at `q` where none of the
      earlier words does, and the rest of the field matches after it: the
      first match at `q` ends the longest run of group 1. */
  lemma LabelHit(re: Regex, ws: seq<string>, j: nat, cs: CharSet, lo: nat, hi: Bound, s: string, q: nat,
                 a: nat, b: nat, c: nat, e: nat)
    requires LabelsLead(re, ws) && FieldTail(re.nodes, cs, lo, hi) && j < 3 && q <= |s|
    requires |re.nodes[0].alts[j]| == |ws[j]|
    requires forall k :: 0 <= k < j ==> !WordAt(re.ignoreCase, s, q, ws[k])
    requires WordAt(re.ignoreCase, s, q, ws[j])
    requires MaxRun(Space, Unbounded, 0, s, q + |ws[j]|, a)
    requires b == (if a < |s| && s[a] == ':' then a + 1 else a)
    requires MaxRun(Space, Unbounded, 0, s, b, c) && MaxRun(cs, hi, 0, s, c, e) && lo <= e - c
    ensures MatchAt(re, s, q) == Some(Hit(e, c))
  {
    var ic, nodes, alts := re.ignoreCase, re.nodes, re.nodes[0].alts;
    forall k | 0 <= k < j ensures Match(ic, alts[k], 0, nodes, 1, s, q, NoGroup).None? {
      LitPrefix(ic, alts[k], 0, ws[k], nodes, 1, s, q, NoGroup);
    }
    TryAltsSkip(ic, alts, 0, j, nodes, 1, s, q, NoGroup);
    LitPrefix(ic, alts[j], 0, ws[j], nodes, 1, s, q, NoGroup);
    BranchDone(ic, alts[j], nodes, 1, s, q + |ws[j]|, NoGroup);
    TailHit(ic, nodes, cs, lo, hi, s, q + |ws[j]|, NoGroup, a, b, c, e);
  }

  /** `exec` fails, and resets `lastIndex`, when no label word occurs from
      `lastIndex` on. */
  lemma NoLabelExec(re: Regex, ws: seq<string>, s: string, lastIndex: nat)
    requires LabelsLead(re, ws) && lastIndex <= |s|
    requires NoLabelBetween(re.ignoreCase, s, lastIndex, |s|, ws)
    ensures ExecFrom(re, s, lastIndex) == ExecResult(None, 0)
  {
    NoLabelSearch(re, ws, s, lastIndex);
  }

  /** A label word occurs at `q`, but fewer than `lo` characters follow
      it, and no other label word occurs at `q`: no match at `q`. */
  lemma LabelTooShort(re: Regex, ws: seq<string>, j: nat, cs: CharSet, lo: nat, hi: Bound, s: string, q: nat)
    requires LabelsLead(re, ws) && LabelledField(re, cs, lo, hi) && j < 3 && q <= |s|
    requires |re.nodes[0].alts[j]| == |ws[j]|
    requires forall k :: 0 <= k < 3 && k != j ==> !WordAt(re.ignoreCase, s, q, ws[k])
    requires WordAt(re.ignoreCase, s, q, ws[j])
    requires q + |ws[j]| <= |s| && |s| - (q + |ws[j]|) < lo
    ensures MatchAt(re, s, q).None?
  {
    var ic, nodes, alts := re.ignoreCase, re.nodes, re.nodes[0].alts;
    forall k | 0 <= k < 3 ensures Match(ic, alts[k], 0, nodes, 1, s, q, NoGroup).None? {
      LitPrefix(ic, alts[k], 0, ws[k], nodes, 1, s, q, NoGroup);
      if k == j {
        BranchDone(ic, alts[j], nodes, 1, s, q + |ws[j]|, NoGroup);
        TailTooShort(re, cs, lo, hi, s, q + |ws[j]|, NoGroup);
      }
    }
    TryAltsSkip(ic, alts, 0, 3, nodes, 1, s, q, NoGroup);
  }

  /** The branch `student\s*id` of the id label, atom by atom. */
  lemma StudentIdBranch()
    ensures var branch := IdPattern.nodes[0].alts[1];
      |branch| == 10 && branch[7] == Repeat(Space, 0, Unbounded)
      && (forall k :: 0 <= k < 7 ==> branch[k] == Char("student"[k]))
      && (forall k :: 0 <= k < 2 ==> branch[8 + k] == Char("id"[k]))
  {
    var branch := Lit("student") + [Repeat(Space, 0, Unbounded)] + Lit("id");
    assert forall k :: 0 <= k < 2 ==> branch[8 + k] == Lit("id")[k];
  }

  /** `student` occurs at `q` but `id` occurs after none of the ways the
      spaces after it can be taken, and the other two label words do not
      occur at `q`: the id pattern does not match at `q`. */
  lemma StudentWithoutId(s: string, q: nat, e: nat)
    requires q + 7 <= |s| && WordAt(true, s, q, "student")
    requires !WordAt(true, s, q, "id") && !WordAt(true, s, q, "number")
    requires MaxRun(Space, Unbounded, 0, s, q + 7, e)
    requires forall f :: q + 7 <= f <= e ==> !WordAt(true, s, f, "id")
    ensures MatchAt(IdPattern, s, q).None?
  {
    IdBranches();
    StudentIdBranch();
    IdBranchesMiss(IdPattern, s, q, e);
  }

  /** The same, for any case-insensitive pattern led by the branches
      `id`, `student\s*id` and `number`. */
  lemma IdBranchesMiss(re: Regex, s: string, q: nat, e: nat)
    requires re.ignoreCase && |re.nodes| >= 1 && re.nodes[0].Alt? && |re.nodes[0].alts| == 3
    requires var alts := re.nodes[0].alts;
      |alts[0]| == 2 && |alts[2]| == 6
      && (forall k :: 0 <= k < 2 ==> alts[0][k] == Char("id"[k]))
      && (forall k :: 0 <= k < 6 ==> alts[2][k] == Char("number"[k]))
    requires var branch := re.nodes[0].alts[1];
      |branch| == 10 && branch[7] == Repeat(Space, 0, Unbounded)
      && (forall k :: 0 <= k < 7 ==> branch[k] == Char("student"[k]))
      && (forall k :: 0 <= k < 2 ==> branch[8 + k] == Char("id"[k]))
    requires q + 7 <= |s| && WordAt(true, s, q, "student")
    requires !WordAt(true, s, q, "id") && !WordAt(true, s, q, "number")
    requires MaxRun(Space, Unbounded, 0, s, q + 7, e)
    requires forall f :: q + 7 <= f <= e ==> !WordAt(true, s, f, "id")
    ensures MatchAt(re, s, q).None?
  {
    var nodes, alts := re.nodes, re.nodes[0].alts;
    LitPrefix(true, alts[0], 0, "id", nodes, 1, s, q, NoGroup);
    LitPrefix(true, alts[2], 0, "number", nodes, 1, s, q, NoGroup);
    LitPrefix(true, alts[1], 0, "student", nodes, 1, s, q, NoGroup);
    SpacesThenWordMiss(true, alts[1], 7, 8, "id", nodes, s, q + 7, e);
    ThreeBranchesMiss(re, s, q);
  }

  /** The first and last branches of the id pattern are bare words. */
  lemma IdBranches()
    ensures |IdPattern.nodes| >= 1 && IdPattern.nodes[0].Alt? && |IdPattern.nodes[0].alts| == 3
    ensures var alts := IdPattern.nodes[0].alts;
      |alts[0]| == 2 && |alts[2]| == 6
      && (forall k :: 0 <= k < 2 ==> alts[0][k] == Char("id"[k]))
      && (forall k :: 0 <= k < 6 ==> alts[2][k] == Char("number"[k]))
  {
  }

  /** A pattern led by three branches does not match where none of them
      does. */
  lemma ThreeBranchesMiss(re: Regex, s: string, q: nat)
    requires |re.nodes| >= 1 && re.nodes[0].Alt? && |re.nodes[0].alts| == 3 && q <= |s|
    requires forall j :: 0 <= j < 3 ==> Match(re.ignoreCase, re.nodes[0].alts[j], 0, re.nodes, 1, s, q, NoGroup).None?
    ensures MatchAt(re, s, q).None?
  {
    TryAltsSkip(re.ignoreCase, re.nodes[0].alts, 0, 3, re.nodes, 1, s, q, NoGroup);
  }

  /** `\s*w` at `bi` of a branch does not match at `i` when `w` occurs
      after none of the ways the spaces at `i` can be taken. */
  lemma SpacesThenWordMiss(ic: bool, branch: seq<Atom>, bi: nat, bj: nat, w: string, nodes: seq<Atom>,
                           s: string, i: nat, e: nat)
    requires bj == bi + 1 && bj + |w| <= |branch| && 1 <= |nodes| && i <= |s|
    requires branch[bi] == Repeat(Space, 0, Unbounded)
    requires forall k :: 0 <= k < |w| ==> branch[bj + k] == Char(w[k])
    requires MaxRun(Space, Unbounded, 0, s, i, e)
    requires forall f :: i <= f <= e ==> !WordAt(ic, s, f, w)
    ensures Match(ic, branch, bi, nodes, 1, s, i, NoGroup).None?
  {
    forall f | i <= f <= e ensures Match(ic, branch, bj, nodes, 1, s, f, NoGroup).None? {
      LitPrefix(ic, branch, bj, w, nodes, 1, s, f, NoGroup);
    }
    GreedyRepeatMiss(ic, Space, 0, Unbounded, 0, branch, bj, nodes, 1, s, i, NoGroup, e);
  }

  /** The last word of a branch, then a field. */
  lemma WordTailHit(ic: bool, branch: seq<Atom>, bi: nat, w: string, nodes: seq<Atom>, cs: CharSet, lo: nat, hi: Bound,
                    s: string, d: nat, a: nat, b: nat, c: nat, e: nat)
    requires FieldTail(nodes, cs, lo, hi) && |branch| == bi + |w| && d <= |s|
    requires forall k :: 0 <= k < |w| ==> branch[bi + k] == Char(w[k])
    requires WordAt(ic, s, d, w) && MaxRun(Space, Unbounded, 0, s, d + |w|, a)
    requires b == (if a < |s| && s[a] == ':' then a + 1 else a)
    requires MaxRun(Space, Unbounded, 0, s, b, c) && MaxRun(cs, hi, 0, s, c, e) && lo <= e - c
    ensures Match(ic, branch, bi, nodes, 1, s, d, NoGroup) == Some(Hit(e, c))
  {
    LitPrefix(ic, branch, bi, w, nodes, 1, s, d, NoGroup);
    BranchDone(ic, branch, nodes, 1, s, d + |w|, NoGroup);
    TailHit(ic, nodes, cs, lo, hi, s, d + |w|, NoGroup, a, b, c, e);
  }

  /** After `student` and its spaces: `id` and a field. */
  lemma StudentIdTail(s: string, d: nat, a: nat, b: nat, c: nat, e: nat)
    requires d <= |s| && WordAt(true, s, d, "id")
    requires MaxRun(Space, Unbounded, 0, s, d + 2, a)
    requires b == (if a < |s| && s[a] == ':' then a + 1 else a)
    requires MaxRun(Space, Unbounded, 0, s, b, c) && MaxRun(Digit, AtMost(12), 0, s, c, e) && 6 <= e - c
    ensures Match(true, IdPattern.nodes[0].alts[1], 8, IdPattern.nodes, 1, s, d, NoGroup) == Some(Hit(e, c))
  {
    TierOneTails();
    StudentIdBranch();
    WordTailHit(true, IdPattern.nodes[0].alts[1], 8, "id", IdPattern.nodes, Digit, 6, AtMost(12), s, d, a, b, c, e);
  }

  /** A second branch `w\s*...` whose rest matches after the longest run
      of spaces, when the first branch fails: the alternation matches. */
  lemma SecondBranchHit(ic: bool, alts: seq<seq<Atom>>, nodes: seq<Atom>, w: string,
                        s: string, q: nat, d: nat, h: Hit)
    requires 1 <= |nodes| && |alts| >= 2 && q <= |s|
    requires Match(ic, alts[0], 0, nodes, 1, s, q, NoGroup).None?
    requires |alts[1]| > |w| && alts[1][|w|] == Repeat(Space, 0, Unbounded)
    requires forall k :: 0 <= k < |w| ==> alts[1][k] == Char(w[k])
    requires WordAt(ic, s, q, w) && MaxRun(Space, Unbounded, 0, s, q + |w|, d)
    requires Match(ic, alts[1], |w| + 1, nodes, 1, s, d, NoGroup) == Some(h)
    ensures TryAlts(ic, alts, 0, nodes, 1, s, q, NoGroup) == Some(h)
  {
    LitPrefix(ic, alts[1], 0, w, nodes, 1, s, q, NoGroup);
    GreedyRepeatHit(ic, Space, 0, Unbounded, 0, alts[1], |w| + 1, nodes, 1, s, q + |w|, NoGroup, d);
  }

  /** `student`, spaces, `id` and a field at `q`, where the label `id`
      alone does not occur: the id pattern matches through its second
      branch. */
  lemma StudentIdHit(s: string, q: nat, d: nat, a: nat, b: nat, c: nat, e: nat)
    requires q + 7 <= |s| && WordAt(true, s, q, "student") && !WordAt(true, s, q, "id")
    requires MaxRun(Space, Unbounded, 0, s, q + 7, d) && WordAt(true, s, d, "id")
    requires MaxRun(Space, Unbounded, 0, s, d + 2, a)
    requires b == (if a < |s| && s[a] == ':' then a + 1 else a)
    requires MaxRun(Space, Unbounded, 0, s, b, c) && MaxRun(Digit, AtMost(12), 0, s, c, e) && 6 <= e - c
    ensures MatchAt(IdPattern, s, q) == Some(Hit(e, c))
  {
    var nodes, alts := IdPattern.nodes, IdPattern.nodes[0].alts;
    TierOneLabels();
    StudentIdBranch();
    LitPrefix(true, alts[0], 0, "id", nodes, 1, s, q, NoGroup);
    StudentIdTail(s, d, a, b, c, e);
    SecondBranchHit(true, alts, nodes, "student", s, q, d, Hit(e, c));
  }
}
