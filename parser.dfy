/** `CrowdmarkProcessor.parseDocumentText` (content-script.js:465-536):
    the tier-1 line scan with its three shared global regular expressions,
    and the tier-2 fallbacks over the whole text. */
module DocumentParser {
  import opened JsText
  import opened JsRegex
  import opened Patterns

  /** The record the parser returns. */
  datatype ParsedData = ParsedData(names: seq<string>, ids: seq<string>, phones: seq<string>, rawText: string)

  /** The tier-1 scan between two lines: the values collected so far and
      the `lastIndex` of each of the three regular expressions. */
  datatype ScanState = ScanState(names: seq<string>, ids: seq<string>, phones: seq<string>,
                                 nameIndex: nat, idIndex: nat, phoneIndex: nat)

  /** Nothing collected yet; the regular expressions were just created. */
  const Fresh: ScanState := ScanState([], [], [], 0, 0, 0)

  /** The check a trimmed name capture must pass to be kept. */
  predicate IsAcceptedName(name: string) {
    |name| > 2 && ' ' in name
  }

  /** `match[1].trim()` for what `exec` finds with the tier-1 pattern `re`
      from `lastIndex`, if it finds anything. */
  function ExecValue(re: Regex, line: string, lastIndex: nat): Option<string>
    requires IsTier1(re)
  {
    Tier1GroupBounds(re, line, lastIndex);
    match ExecFrom(re, line, lastIndex).found
    case None => None
    case Some(m) => Some(Trim(GroupText(line, m)))
  }

  /** One iteration of the tier-1 loop: the name pattern first; a name
      that fails the check does not claim the line, which goes on to the id
      pattern and then the phone pattern. A pattern that is not consulted
      keeps its `lastIndex`. */
  function Step(st: ScanState, line: string): ScanState
  {
    var name := ExecValue(NamePattern, line, st.nameIndex);
    var nameIndex := ExecFrom(NamePattern, line, st.nameIndex).lastIndex;
    if name.Some? && IsAcceptedName(name.value) then
      st.(names := st.names + [name.value], nameIndex := nameIndex)
    else
      var id := ExecValue(IdPattern, line, st.idIndex);
      var idIndex := ExecFrom(IdPattern, line, st.idIndex).lastIndex;
      if id.Some? then
        st.(ids := st.ids + [id.value], nameIndex := nameIndex, idIndex := idIndex)
      else
        var phone := ExecValue(PhonePattern, line, st.phoneIndex);
        var phoneIndex := ExecFrom(PhonePattern, line, st.phoneIndex).lastIndex;
        if phone.Some? then
          st.(phones := st.phones + [phone.value], nameIndex := nameIndex, idIndex := idIndex, phoneIndex := phoneIndex)
        else
          st.(nameIndex := nameIndex, idIndex := idIndex, phoneIndex := phoneIndex)
  }

  /** The tier-1 scan over `lines`, in order, from fresh regular expressions. */
  function Scan(lines: seq<string>): ScanState
  {
    if lines == [] then Fresh else Step(Scan(lines[..|lines| - 1]), lines[|lines| - 1])
  }

  /** The scan of one more line is one more step. */
  lemma ScanSnoc(lines: seq<string>, i: nat)
    requires i < |lines|
    ensures Scan(lines[..i + 1]) == Step(Scan(lines[..i]), lines[i])
  {
    assert lines[..i + 1][..i] == lines[..i];
  }

  /** `matches.slice(0, 5)`. */
  function FirstFive(ms: seq<string>): (r: seq<string>)
    ensures r <= ms && |r| == (if |ms| < 5 then |ms| else 5)
  {
    if |ms| <= 5 then ms else ms[..5]
  }

  /** `text.match(patterns.nameAlt)`, with no match as the empty list. */
  function NameMatches(text: string): seq<string>
  {
    MatchTexts(text, MatchAll(NameAltPattern, text))
  }

  /** `text.match(patterns.idAlt)`, with no match as the empty list. */
  function IdMatches(text: string): seq<string>
  {
    MatchTexts(text, MatchAll(IdAltPattern, text))
  }

  /** The record built from the tier-1 results `st`: a field left empty
      by tier 1 takes the first five fallback matches over the whole text,
      if there are any. */
  function WithFallbacks(text: string, st: ScanState): ParsedData
  {
    var names := if |st.names| == 0 && NameMatches(text) != [] then FirstFive(NameMatches(text)) else st.names;
    var ids := if |st.ids| == 0 && IdMatches(text) != [] then FirstFive(IdMatches(text)) else st.ids;
    ParsedData(names, ids, st.phones, text)
  }

  /** What `parseDocumentText(text)` returns. */
  function Parse(text: string): ParsedData
  {
    WithFallbacks(text, Scan(Lines(text)))
  }

  /** The tier-1 loop as the source writes it: the three global regular
      expressions are created afresh, and each line is pushed onto at most
      one list, the loop moving on with `continue`. */
  method ScanLines(lines: seq<string>) returns (names: seq<string>, ids: seq<string>, phones: seq<string>)
    ensures var st := Scan(lines); names == st.names && ids == st.ids && phones == st.phones
  {
    names, ids, phones := [], [], [];
    var name := new RegExp(NamePattern);
    var id := new RegExp(IdPattern);
    var phone := new RegExp(PhonePattern);
    for i := 0 to |lines|
      invariant Scan(lines[..i]) == ScanState(names, ids, phones, name.lastIndex, id.lastIndex, phone.lastIndex)
    {
      var line := lines[i];
      ScanSnoc(lines, i);
      Tier1GroupBounds(NamePattern, line, name.lastIndex);
      Tier1GroupBounds(IdPattern, line, id.lastIndex);
      Tier1GroupBounds(PhonePattern, line, phone.lastIndex);
      var found := name.Exec(line);
      if found.Some? {
        var value := Trim(GroupText(line, found.value));
        if |value| > 2 && ' ' in value {
          names := names + [value];
          continue;
        }
      }
      found := id.Exec(line);
      if found.Some? {
        ids := ids + [Trim(GroupText(line, found.value))];
        continue;
      }
      found := phone.Exec(line);
      if found.Some? {
        phones := phones + [Trim(GroupText(line, found.value))];
        continue;
      }
    }
    assert lines[..|lines|] == lines;
  }

  /** The parser as the source writes it: the tier-1 loop over the trimmed,
      non-empty lines, then the two fallbacks, each reassigning its list
      when tier 1 left it empty and the fallback pattern matches. */
  method ParseDocumentText(text: string) returns (parsed: ParsedData)
    ensures parsed == Parse(text)
    ensures parsed.rawText == text
  {
    var lines := Lines(text);
    var names, ids, phones := ScanLines(lines);
    if |names| == 0 {
      var nameMatches := NameMatches(text);
      if nameMatches != [] {
        names := FirstFive(nameMatches);
      }
    }
    if |ids| == 0 {
      var idMatches := IdMatches(text);
      if idMatches != [] {
        ids := FirstFive(idMatches);
      }
    }
    parsed := ParsedData(names, ids, phones, text);
  }

  // ---------------------------------------------------------------------
  // Properties of the tier-1 scan

  /** How many values have been collected. */
  function Entries(st: ScanState): nat {
    |st.names| + |st.ids| + |st.phones|
  }

  /** A line adds at most one value, to one list, and never removes or
      changes what was collected before. */
  lemma StepAddsAtMostOne(st: ScanState, line: string)
    ensures var r := Step(st, line);
      st.names <= r.names && st.ids <= r.ids && st.phones <= r.phones
      && Entries(st) <= Entries(r) <= Entries(st) + 1
  {
  }

  /** The priority between the patterns: a line gives a name exactly when
      the name pattern finds a capture that passes the check; otherwise
      (also after a rejected name) it gives an id exactly when the id
      pattern matches; and only when neither claims it, a phone exactly
      when the phone pattern matches. Each added value is the trimmed
      capture. */
  lemma StepPriority(st: ScanState, line: string)
    ensures var r := Step(st, line);
      var name := ExecValue(NamePattern, line, st.nameIndex);
      var id := ExecValue(IdPattern, line, st.idIndex);
      var phone := ExecValue(PhonePattern, line, st.phoneIndex);
      var nameClaims := name.Some? && IsAcceptedName(name.value);
      (|r.names| > |st.names| <==> nameClaims)
      && (nameClaims ==> r.names == st.names + [name.value])
      && (|r.ids| > |st.ids| <==> !nameClaims && id.Some?)
      && (!nameClaims && id.Some? ==> r.ids == st.ids + [id.value])
      && (|r.phones| > |st.phones| <==> !nameClaims && id.None? && phone.Some?)
      && (!nameClaims && id.None? && phone.Some? ==> r.phones == st.phones + [phone.value])
  {
  }

  /** The `lastIndex` of each pattern moves exactly as `exec` moves it,
      and only when the pattern is consulted: the name pattern on every
      line, the id pattern unless a name claims the line, the phone pattern
      unless a name or an id does. */
  lemma StepIndices(st: ScanState, line: string)
    ensures var r := Step(st, line);
      var name := ExecValue(NamePattern, line, st.nameIndex);
      var nameClaims := name.Some? && IsAcceptedName(name.value);
      var idFound := ExecFrom(IdPattern, line, st.idIndex).found.Some?;
      r.nameIndex == ExecFrom(NamePattern, line, st.nameIndex).lastIndex
      && r.idIndex == (if nameClaims then st.idIndex else ExecFrom(IdPattern, line, st.idIndex).lastIndex)
      && r.phoneIndex == (if nameClaims || idFound then st.phoneIndex
                          else ExecFrom(PhonePattern, line, st.phoneIndex).lastIndex)
  {
  }

  /** Each line contributes at most one value, so there are never more
      values than lines. */
  lemma {:induction false} ScanAtMostOnePerLine(lines: seq<string>)
    ensures Entries(Scan(lines)) <= |lines|
  {
    if lines != [] {
      ScanAtMostOnePerLine(lines[..|lines| - 1]);
      StepAddsAtMostOne(Scan(lines[..|lines| - 1]), lines[|lines| - 1]);
    }
  }

  /** Values appear in line order: scanning more lines only extends the
      lists. */
  lemma {:induction false} ScanExtends(lines: seq<string>, i: nat)
    requires i <= |lines|
    ensures var before := Scan(lines[..i]); var after := Scan(lines);
      before.names <= after.names && before.ids <= after.ids && before.phones <= after.phones
    decreases |lines| - i
  {
    if i < |lines| {
      ScanExtends(lines[..|lines| - 1], i);
      assert lines[..|lines| - 1][..i] == lines[..i];
      StepAddsAtMostOne(Scan(lines[..|lines| - 1]), lines[|lines| - 1]);
    } else {
      assert lines[..i] == lines;
    }
  }

  /** A tier-1 name: trimmed, longer than two characters, with a space, at
      most 30 letters and whitespace. */
  predicate IsNameValue(v: string) {
    IsTrimmed(v) && IsAcceptedName(v) && |v| <= 30 && forall k :: 0 <= k < |v| ==> InSet(LetterOrSpace, v[k])
  }

  /** A tier-1 id: 6 to 12 ASCII digits. */
  predicate IsIdValue(v: string) {
    6 <= |v| <= 12 && forall k :: 0 <= k < |v| ==> IsDigit(v[k])
  }

  /** A tier-1 phone: trimmed, at most 20 digits, parentheses, hyphens and
      whitespace. */
  predicate IsPhoneValue(v: string) {
    IsTrimmed(v) && |v| <= 20 && forall k :: 0 <= k < |v| ==> InSet(PhoneChar, v[k])
  }

  /** Trimming a run of `cs` leaves a trimmed string of `cs` no longer
      than the run. */
  lemma TrimRun(line: string, g: nat, e: nat, cs: CharSet)
    requires g <= e <= |line| && AllIn(cs, line, g, e)
    ensures IsTrimmed(Trim(line[g..e])) && |Trim(line[g..e])| <= e - g
    ensures forall k :: 0 <= k < |Trim(line[g..e])| ==> InSet(cs, Trim(line[g..e])[k])
  {
    var run := line[g..e];
    assert AllSatisfy(run, c => InSet(cs, c)) by {
      forall k | 0 <= k < |run| ensures InSet(cs, run[k]) {
        assert run[k] == line[g + k];
      }
    }
    TrimKeepsClass(run, c => InSet(cs, c));
  }

  /** A name capture that passes the check has the shape of a name. */
  lemma NameValueShape(line: string, lastIndex: nat)
    ensures var v := ExecValue(NamePattern, line, lastIndex);
      v.Some? && IsAcceptedName(v.value) ==> IsNameValue(v.value)
  {
    NameGroup(line, lastIndex);
    var n := ExecFrom(NamePattern, line, lastIndex).found;
    if n.Some? {
      TrimRun(line, n.value.group, n.value.end, LetterOrSpace);
    }
  }

  /** An id capture is its run of 6 to 12 digits, which trimming keeps. */
  lemma IdValueShape(line: string, lastIndex: nat)
    ensures var v := ExecValue(IdPattern, line, lastIndex); v.Some? ==> IsIdValue(v.value)
  {
    IdGroup(line, lastIndex);
    var d := ExecFrom(IdPattern, line, lastIndex).found;
    if d.Some? {
      var run := line[d.value.group..d.value.end];
      assert forall k :: 0 <= k < |run| ==> IsDigit(run[k]) by {
        forall k | 0 <= k < |run| ensures IsDigit(run[k]) {
          assert run[k] == line[d.value.group + k];
        }
      }
      assert !IsSpace(run[0]) && !IsSpace(run[|run| - 1]);
      TrimOfTrimmed(run);
    }
  }

  /** A phone capture has the shape of a phone. */
  lemma PhoneValueShape(line: string, lastIndex: nat)
    ensures var v := ExecValue(PhonePattern, line, lastIndex); v.Some? ==> IsPhoneValue(v.value)
  {
    PhoneGroup(line, lastIndex);
    var p := ExecFrom(PhonePattern, line, lastIndex).found;
    if p.Some? {
      TrimRun(line, p.value.group, p.value.end, PhoneChar);
    }
  }

  /** Every collected value has its field's shape. */
  predicate WellShaped(st: ScanState) {
    (forall k :: 0 <= k < |st.names| ==> IsNameValue(st.names[k]))
    && (forall k :: 0 <= k < |st.ids| ==> IsIdValue(st.ids[k]))
    && (forall k :: 0 <= k < |st.phones| ==> IsPhoneValue(st.phones[k]))
  }

  /** A step keeps the collected values well shaped. */
  lemma StepShapes(st: ScanState, line: string)
    requires WellShaped(st)
    ensures WellShaped(Step(st, line))
  {
    NameValueShape(line, st.nameIndex);
    IdValueShape(line, st.idIndex);
    PhoneValueShape(line, st.phoneIndex);
  }

  /** Every value the scan collects has its field's shape. */
  lemma {:induction false} ScanShapes(lines: seq<string>)
    ensures WellShaped(Scan(lines))
  {
    if lines != [] {
      ScanShapes(lines[..|lines| - 1]);
      StepShapes(Scan(lines[..|lines| - 1]), lines[|lines| - 1]);
    }
  }

  // ---------------------------------------------------------------------
  // Properties of the whole parse

  /** The number of fallback matches kept. */
  function Kept(n: nat): nat {
    if n < 5 then n else 5
  }

  /** Names are the tier-1 names when there are any. Otherwise they are the
      first (at most five) successive matches of the fallback pattern over
      the whole text, each two capitalised words followed by whitespace or
      the end of the text. */
  lemma ParseNames(text: string)
    ensures var st := Scan(Lines(text)); var names := Parse(text).names;
      |st.names| > 0 ==> names == st.names
    ensures var st := Scan(Lines(text)); var names := Parse(text).names;
      var ms := MatchAll(NameAltPattern, text);
      |st.names| == 0 ==>
        |names| == Kept(|ms|)
        && forall k :: 0 <= k < |names| ==>
             names[k] == MatchText(text, ms[k]) && TwoCapitalisedWords(text, ms[k].start, ms[k].end)
  {
    var ms := MatchAll(NameAltPattern, text);
    MatchAllSuccessive(NameAltPattern, text, 0);
    forall k | 0 <= k < |ms| ensures TwoCapitalisedWords(text, ms[k].start, ms[k].end) {
      NameAltShape(text, ms[k].start);
    }
  }

  /** Ids are the tier-1 ids when there are any. Otherwise they are the
      first (at most five) successive matches of the fallback pattern over
      the whole text, each a whole run of 8 to 12 digits that touches no
      letter, digit or `_`. */
  lemma ParseIds(text: string)
    ensures var st := Scan(Lines(text)); var ids := Parse(text).ids;
      |st.ids| > 0 ==> ids == st.ids
    ensures var st := Scan(Lines(text)); var ids := Parse(text).ids;
      var ms := MatchAll(IdAltPattern, text);
      |st.ids| == 0 ==>
        |ids| == Kept(|ms|)
        && forall k :: 0 <= k < |ids| ==>
             ids[k] == MatchText(text, ms[k]) && 8 <= |ids[k]| <= 12
             && AllIn(Digit, text, ms[k].start, ms[k].end)
             && (ms[k].start == 0 || !IsWordChar(text[ms[k].start - 1]))
             && (ms[k].end == |text| || !IsWordChar(text[ms[k].end]))
  {
    var ms := MatchAll(IdAltPattern, text);
    MatchAllSuccessive(IdAltPattern, text, 0);
    forall k | 0 <= k < |ms|
      ensures 8 <= ms[k].end - ms[k].start <= 12 && AllIn(Digit, text, ms[k].start, ms[k].end)
              && (ms[k].start == 0 || !IsWordChar(text[ms[k].start - 1]))
              && (ms[k].end == |text| || !IsWordChar(text[ms[k].end]))
    {
      IdAltShape(text, ms[k].start);
    }
  }

  /** When tier 1 finds no name but the fallback pattern matches somewhere
      in the text, the fallback fires: the first name is the text of the
      leftmost match, which starts at or before that place. */
  lemma NameFallbackFires(text: string, q: nat)
    requires |Scan(Lines(text)).names| == 0 && q <= |text| && MatchAt(NameAltPattern, text, q).Some?
    ensures var ms := MatchAll(NameAltPattern, text);
      |Parse(text).names| > 0 && |ms| > 0 && ms[0].start <= q
      && Parse(text).names[0] == MatchText(text, ms[0])
  {
    MatchAllNoneMissed(NameAltPattern, text, 0);
    ParseNames(text);
  }

  /** When tier 1 finds no id but the fallback pattern matches somewhere
      in the text, the fallback fires: the first id is the text of the
      leftmost match, which starts at or before that place. */
  lemma IdFallbackFires(text: string, q: nat)
    requires |Scan(Lines(text)).ids| == 0 && q <= |text| && MatchAt(IdAltPattern, text, q).Some?
    ensures var ms := MatchAll(IdAltPattern, text);
      |Parse(text).ids| > 0 && |ms| > 0 && ms[0].start <= q
      && Parse(text).ids[0] == MatchText(text, ms[0])
  {
    MatchAllNoneMissed(IdAltPattern, text, 0);
    ParseIds(text);
  }

  /** Phones have no fallback: they are exactly the tier-1 phones, and the
      raw text is the input. */
  lemma ParsePhones(text: string)
    ensures Parse(text).phones == Scan(Lines(text)).phones
    ensures Parse(text).rawText == text
  {
  }

  /** The empty text has no lines and no fallback match: every list is
      empty and the raw text is the empty string. */
  lemma ParseEmpty()
    ensures Parse("") == ParsedData([], [], [], "")
  {
    assert Split("") == [""];
    assert Lines("") == [];
    assert MatchAt(NameAltPattern, "", 0).None?;
    assert MatchAt(IdAltPattern, "", 0).None?;
  }
}
