/** Two inputs of the parser worked through: a labelled one, which the
    tier-1 scan reads line by line, and the same two values without
    labels, which only the tier-2 fallbacks find. */
module WorkedExamples {
  import opened JsText
  import opened JsRegex
  import opened Patterns
  import opened DocumentParser
  import Transcript

  // ---------------------------------------------------------------------
  // Generic steps of the computation

  /** A greedy repetition at the top level takes its longest run when the
      rest of the pattern matches after it. */
  lemma RepeatNode(ic: bool, nodes: seq<Atom>, ni: nat, s: string, i: nat, e: nat, cap: int)
    requires ni < |nodes| && nodes[ni].Repeat? && i <= |s|
    requires MaxRun(nodes[ni].cs, nodes[ni].hi, 0, s, i, e) && nodes[ni].lo <= e - i
    requires Match(ic, [], 0, nodes, ni + 1, s, e, cap).Some?
    ensures Match(ic, [], 0, nodes, ni, s, i, cap) == Match(ic, [], 0, nodes, ni + 1, s, e, cap)
  {
    var a := nodes[ni];
    GreedyRepeatHit(ic, a.cs, a.lo, a.hi, 0, [], 0, nodes, ni + 1, s, i, cap, e);
  }

  /** The search passes over positions where the pattern does not match. */
  lemma {:induction false} SearchPast(re: Regex, s: string, p: nat, q: nat)
    requires p <= q <= |s|
    requires forall k :: p <= k < q ==> MatchAt(re, s, k).None?
    ensures SearchFrom(re, s, p) == SearchFrom(re, s, q)
    decreases q - p
  {
    if p < q {
      SearchSkip(re, s, p);
      SearchPast(re, s, p + 1, q);
    }
  }

  /** A search fails when the pattern matches nowhere from `p` on. */
  lemma SearchNowhere(re: Regex, s: string, p: nat)
    requires p <= |s|
    requires forall k :: p <= k <= |s| ==> MatchAt(re, s, k).None?
    ensures SearchFrom(re, s, p).None?
  {
    SearchPast(re, s, p, |s|);
  }

  /** Two lines without newlines are the pieces of their join. */
  lemma SplitTwo(x: string, y: string)
    requires '\n' !in x && '\n' !in y
    ensures Split(x + "\n" + y) == [x, y]
  {
    assert Join([x, y]) == x + "\n" + Join([y]);
    SplitJoin([x, y]);
  }

  /** A non-empty trimmed piece is kept as it is. */
  lemma OneKept(x: string)
    requires |x| > 0 && IsTrimmed(x)
    ensures TrimAndDropEmpty([x]) == [x]
  {
    TrimOfTrimmed(x);
    assert [x][1..] == [];
  }

  /** Two trimmed lines without newlines are the lines of their join. */
  lemma TwoLines(x: string, y: string)
    requires |x| > 0 && IsTrimmed(x) && '\n' !in x
    requires |y| > 0 && IsTrimmed(y) && '\n' !in y
    ensures Lines(x + "\n" + y) == [x, y]
  {
    SplitTwo(x, y);
    OneKept(x);
    OneKept(y);
    TrimAndDropEmptyAppend([x], [y]);
    assert [x] + [y] == [x, y];
  }

  /** The scan of two lines is two steps from fresh expressions. */
  lemma ScanTwo(x: string, y: string)
    ensures Scan([x, y]) == Step(Step(Fresh, x), y)
  {
    ScanSnoc([x, y], 0);
    ScanSnoc([x, y], 1);
    assert [x, y][..0] == [];
    assert [x, y][..2] == [x, y];
  }

  // ---------------------------------------------------------------------
  // "Student: Jane Doe\nID: 12345678": both values from tier 1

  const Tagged1: string := "Student: Jane Doe"
  const Tagged2: string := "ID: 12345678"

  /** "student", the second name label, opens the first line, and "name"
      does not. */
  lemma Tagged1Label()
    ensures !WordAt(true, Tagged1, 0, "name") && WordAt(true, Tagged1, 0, "student")
  {
  }

  /** The colon, one space, then eight letters and spaces to the end. */
  lemma Tagged1Spaces()
    ensures MaxRun(Space, Unbounded, 0, Tagged1, 7, 7) && Tagged1[7] == ':' && MaxRun(Space, Unbounded, 0, Tagged1, 8, 9)
  {
  }

  lemma Tagged1Field()
    ensures MaxRun(LetterOrSpace, AtMost(30), 0, Tagged1, 9, 17)
  {
  }

  lemma Tagged1NameExec()
    ensures ExecFrom(NamePattern, Tagged1, 0) == ExecResult(Some(MatchInfo(0, 17, 9)), 17)
  {
    TierOneLabels(); TierOneTails(); BareLabels();
    Tagged1Label(); Tagged1Spaces(); Tagged1Field();
    assert forall k :: 0 <= k < 1 ==> !WordAt(true, Tagged1, 0, NameLabels[k]);
    LabelHit(NamePattern, NameLabels, 1, LetterOrSpace, 2, AtMost(30), Tagged1, 0, 7, 8, 9, 17);
    ExecAtStart(NamePattern, Tagged1, Hit(17, 9));
  }

  /** The name pattern claims the first line with "Jane Doe" and leaves
      its `lastIndex` at 17. */
  lemma Tagged1Step()
    ensures Step(Fresh, Tagged1) == ScanState(["Jane Doe"], [], [], 17, 0, 0)
  {
    Tagged1NameExec();
    assert Tagged1[9..17] == "Jane Doe";
    TrimOfTrimmed("Jane Doe");
    assert IsAcceptedName("Jane Doe");
    Transcript.StepByName(Fresh, Tagged1, "Jane Doe", 17);
  }

  lemma Tagged2Label()
    ensures WordAt(true, Tagged2, 0, "id")
  {
  }

  lemma Tagged2Spaces()
    ensures MaxRun(Space, Unbounded, 0, Tagged2, 2, 2) && Tagged2[2] == ':' && MaxRun(Space, Unbounded, 0, Tagged2, 3, 4)
  {
  }

  lemma Tagged2Field()
    ensures MaxRun(Digit, AtMost(12), 0, Tagged2, 4, 12)
  {
  }

  lemma Tagged2IdExec()
    ensures ExecFrom(IdPattern, Tagged2, 0) == ExecResult(Some(MatchInfo(0, 12, 4)), 12)
  {
    TierOneLabels(); TierOneTails(); BareLabels();
    Tagged2Label(); Tagged2Spaces(); Tagged2Field();
    LabelHit(IdPattern, IdLabels, 0, Digit, 6, AtMost(12), Tagged2, 0, 2, 3, 4, 12);
    ExecAtStart(IdPattern, Tagged2, Hit(12, 4));
  }

  /** The name pattern resumes at 17, past the end of the 12-character
      second line, and fails; the id pattern reads the digits after "ID: ". */
  lemma Tagged2Step()
    ensures Step(ScanState(["Jane Doe"], [], [], 17, 0, 0), Tagged2)
         == ScanState(["Jane Doe"], ["12345678"], [], 0, 12, 0)
  {
    var st := ScanState(["Jane Doe"], [], [], 17, 0, 0);
    assert ExecFrom(NamePattern, Tagged2, 17) == ExecResult(None, 0);
    Tagged2IdExec();
    assert Tagged2[4..12] == "12345678";
    TrimOfTrimmed("12345678");
    Transcript.StepById(st, Tagged2, 0, "12345678", 12);
  }

  lemma TaggedLines()
    ensures Lines("Student: Jane Doe\nID: 12345678") == [Tagged1, Tagged2]
  {
    assert "Student: Jane Doe\nID: 12345678" == Tagged1 + "\n" + Tagged2;
    TwoLines(Tagged1, Tagged2);
  }

  lemma TaggedScan()
    ensures Scan(Lines("Student: Jane Doe\nID: 12345678")) == ScanState(["Jane Doe"], ["12345678"], [], 0, 12, 0)
  {
    TaggedLines();
    ScanTwo(Tagged1, Tagged2);
    Tagged1Step();
    Tagged2Step();
  }

  /** A labelled text: the name and the id come from tier 1, and neither
      fallback is consulted. */
  lemma ParseTagged()
    ensures Parse("Student: Jane Doe\nID: 12345678")
         == ParsedData(["Jane Doe"], ["12345678"], [], "Student: Jane Doe\nID: 12345678")
  {
    TaggedScan();
  }

  // ---------------------------------------------------------------------
  // "Jane Doe\n12345678": both values from the fallbacks

  const Bare1: string := "Jane Doe"
  const Bare2: string := "12345678"
  const BareText: string := "Jane Doe\n12345678"

  lemma Bare1LacksName()
    ensures NoWordBetween(true, Bare1, 0, 8, "name")
  {
    assert NoWordBetween(true, Bare1, 0, 8, "na") && "name"[..2] == "na";
    NoWordOfPrefix(true, Bare1, 0, 8, "name", 2);
  }

  lemma Bare1LacksStudent()
    ensures NoWordBetween(true, Bare1, 0, 8, "student")
  {
    assert NoWordBetween(true, Bare1, 0, 8, "s") && "student"[..1] == "s";
    NoWordOfPrefix(true, Bare1, 0, 8, "student", 1);
  }

  lemma Bare1LacksContact()
    ensures NoWordBetween(true, Bare1, 0, 8, "contact")
  {
    assert NoWordBetween(true, Bare1, 0, 8, "c") && "contact"[..1] == "c";
    NoWordOfPrefix(true, Bare1, 0, 8, "contact", 1);
  }

  lemma Bare1LacksId()
    ensures NoWordBetween(true, Bare1, 0, 8, "id")
  {
    assert NoWordBetween(true, Bare1, 0, 8, "i") && "id"[..1] == "i";
    NoWordOfPrefix(true, Bare1, 0, 8, "id", 1);
  }

  lemma Bare1LacksNumber()
    ensures NoWordBetween(true, Bare1, 0, 8, "number")
  {
    assert NoWordBetween(true, Bare1, 0, 8, "nu") && "number"[..2] == "nu";
    NoWordOfPrefix(true, Bare1, 0, 8, "number", 2);
  }

  lemma Bare1LacksPhone()
    ensures NoWordBetween(true, Bare1, 0, 8, "phone")
  {
    assert NoWordBetween(true, Bare1, 0, 8, "p") && "phone"[..1] == "p";
    NoWordOfPrefix(true, Bare1, 0, 8, "phone", 1);
  }

  lemma Bare1LacksTel()
    ensures NoWordBetween(true, Bare1, 0, 8, "tel")
  {
    assert NoWordBetween(true, Bare1, 0, 8, "t") && "tel"[..1] == "t";
    NoWordOfPrefix(true, Bare1, 0, 8, "tel", 1);
  }

  lemma Bare1LacksTelephone()
    ensures NoWordBetween(true, Bare1, 0, 8, "telephone")
  {
    assert NoWordBetween(true, Bare1, 0, 8, "t") && "telephone"[..1] == "t";
    NoWordOfPrefix(true, Bare1, 0, 8, "telephone", 1);
  }

  lemma Bare2LacksName()
    ensures NoWordBetween(true, Bare2, 0, 8, "name")
  {
    assert NoWordBetween(true, Bare2, 0, 8, "n") && "name"[..1] == "n";
    NoWordOfPrefix(true, Bare2, 0, 8, "name", 1);
  }

  lemma Bare2LacksStudent()
    ensures NoWordBetween(true, Bare2, 0, 8, "student")
  {
    assert NoWordBetween(true, Bare2, 0, 8, "s") && "student"[..1] == "s";
    NoWordOfPrefix(true, Bare2, 0, 8, "student", 1);
  }

  lemma Bare2LacksContact()
    ensures NoWordBetween(true, Bare2, 0, 8, "contact")
  {
    assert NoWordBetween(true, Bare2, 0, 8, "c") && "contact"[..1] == "c";
    NoWordOfPrefix(true, Bare2, 0, 8, "contact", 1);
  }

  lemma Bare2LacksId()
    ensures NoWordBetween(true, Bare2, 0, 8, "id")
  {
    assert NoWordBetween(true, Bare2, 0, 8, "i") && "id"[..1] == "i";
    NoWordOfPrefix(true, Bare2, 0, 8, "id", 1);
  }

  lemma Bare2LacksNumber()
    ensures NoWordBetween(true, Bare2, 0, 8, "number")
  {
    assert NoWordBetween(true, Bare2, 0, 8, "n") && "number"[..1] == "n";
    NoWordOfPrefix(true, Bare2, 0, 8, "number", 1);
  }

  lemma Bare2LacksPhone()
    ensures NoWordBetween(true, Bare2, 0, 8, "phone")
  {
    assert NoWordBetween(true, Bare2, 0, 8, "p") && "phone"[..1] == "p";
    NoWordOfPrefix(true, Bare2, 0, 8, "phone", 1);
  }

  lemma Bare2LacksTel()
    ensures NoWordBetween(true, Bare2, 0, 8, "tel")
  {
    assert NoWordBetween(true, Bare2, 0, 8, "t") && "tel"[..1] == "t";
    NoWordOfPrefix(true, Bare2, 0, 8, "tel", 1);
  }

  lemma Bare2LacksTelephone()
    ensures NoWordBetween(true, Bare2, 0, 8, "telephone")
  {
    assert NoWordBetween(true, Bare2, 0, 8, "t") && "telephone"[..1] == "t";
    NoWordOfPrefix(true, Bare2, 0, 8, "telephone", 1);
  }

  /** No label word occurs on either line, so tier 1 collects nothing
      and every `lastIndex` stays at 0. */
  lemma Bare1Step()
    ensures Step(Fresh, Bare1) == Fresh
  {
    TierOneLabels();
    Bare1LacksName(); Bare1LacksStudent(); Bare1LacksContact(); Bare1LacksId(); Bare1LacksNumber(); Bare1LacksPhone(); Bare1LacksTel(); Bare1LacksTelephone();
    NoLabelExec(NamePattern, NameLabels, Bare1, 0);
    NoLabelExec(IdPattern, IdLabels, Bare1, 0);
    NoLabelExec(PhonePattern, PhoneLabels, Bare1, 0);
    Transcript.StepByNone(Fresh, Bare1, 0, 0, 0);
  }

  lemma Bare2Step()
    ensures Step(Fresh, Bare2) == Fresh
  {
    TierOneLabels();
    Bare2LacksName(); Bare2LacksStudent(); Bare2LacksContact(); Bare2LacksId(); Bare2LacksNumber(); Bare2LacksPhone(); Bare2LacksTel(); Bare2LacksTelephone();
    NoLabelExec(NamePattern, NameLabels, Bare2, 0);
    NoLabelExec(IdPattern, IdLabels, Bare2, 0);
    NoLabelExec(PhonePattern, PhoneLabels, Bare2, 0);
    Transcript.StepByNone(Fresh, Bare2, 0, 0, 0);
  }

  lemma BareScan()
    ensures Scan(Lines(BareText)) == Fresh
  {
    assert BareText == Bare1 + "\n" + Bare2;
    TwoLines(Bare1, Bare2);
    ScanTwo(Bare1, Bare2);
    Bare1Step();
    Bare2Step();
  }

  /** `[A-Z][a-z]+\s+[A-Z][a-z]+(?=\s|$)` matches the two words
      `s[i..a]` and `s[b..e]`, each a capital and the longest run of
      lower-case letters after it, with the longest run of whitespace
      between them and whitespace or the end after `e`. */
  lemma TwoWordsHit(nodes: seq<Atom>, s: string, i: nat, a: nat, b: nat, e: nat)
    requires |nodes| == 6
    requires nodes[0] == Repeat(Upper, 1, AtMost(1)) && nodes[1] == Repeat(Lower, 1, Unbounded)
    requires nodes[2] == Repeat(Space, 1, Unbounded)
    requires nodes[3] == Repeat(Upper, 1, AtMost(1)) && nodes[4] == Repeat(Lower, 1, Unbounded)
    requires nodes[5] == AheadSpaceOrEnd
    requires i + 1 < a < b < b + 1 < e <= |s|
    requires MaxRun(Upper, AtMost(1), 0, s, i, i + 1) && MaxRun(Lower, Unbounded, 0, s, i + 1, a)
    requires MaxRun(Space, Unbounded, 0, s, a, b)
    requires MaxRun(Upper, AtMost(1), 0, s, b, b + 1) && MaxRun(Lower, Unbounded, 0, s, b + 1, e)
    requires e == |s| || IsSpace(s[e])
    ensures Match(false, [], 0, nodes, 0, s, i, NoGroup) == Some(Hit(e, NoGroup))
  {
    assert Match(false, [], 0, nodes, 6, s, e, NoGroup) == Some(Hit(e, NoGroup));
    assert MatchAtom(false, AheadSpaceOrEnd, [], 0, nodes, 6, s, e, NoGroup) == Some(Hit(e, NoGroup));
    RepeatNode(false, nodes, 4, s, b + 1, e, NoGroup);
    RepeatNode(false, nodes, 3, s, b, b + 1, NoGroup);
    RepeatNode(false, nodes, 2, s, a, b, NoGroup);
    RepeatNode(false, nodes, 1, s, i + 1, a, NoGroup);
    RepeatNode(false, nodes, 0, s, i, i + 1, NoGroup);
  }

  lemma JaneDoeRuns()
    ensures MaxRun(Upper, AtMost(1), 0, BareText, 0, 1) && MaxRun(Lower, Unbounded, 0, BareText, 1, 4)
    ensures MaxRun(Space, Unbounded, 0, BareText, 4, 5)
    ensures MaxRun(Upper, AtMost(1), 0, BareText, 5, 6) && MaxRun(Lower, Unbounded, 0, BareText, 6, 8)
    ensures IsSpace(BareText[8])
  {
  }

  /** "Jane Doe" is two capitalised words followed by the newline. */
  lemma JaneDoeAt0()
    ensures MatchAt(NameAltPattern, BareText, 0) == Some(Hit(8, NoGroup))
  {
    JaneDoeRuns();
    TwoWordsHit(NameAltPattern.nodes, BareText, 0, 4, 5, 8);
  }

  /** No capital letter follows the name, so the names pattern matches
      nowhere after it. */
  lemma NoNameAfter8()
    ensures forall q :: 8 <= q <= |BareText| ==> MatchAt(NameAltPattern, BareText, q).None?
  {
    forall q | 8 <= q <= |BareText| ensures MatchAt(NameAltPattern, BareText, q).None? {
      NameAltShape(BareText, q);
      assert q < |BareText| ==> !IsUpper(BareText[q]);
    }
  }

  lemma BareNameSearch()
    ensures MatchAll(NameAltPattern, BareText) == [MatchInfo(0, 8, NoGroup)]
  {
    JaneDoeAt0();
    NoNameAfter8();
    SearchNowhere(NameAltPattern, BareText, 8);
    assert MatchAllFrom(NameAltPattern, BareText, 8) == [];
  }

  lemma BareNameMatches()
    ensures NameMatches(BareText) == ["Jane Doe"]
  {
    BareNameSearch();
    assert BareText[0..8] == "Jane Doe";
  }

  /** No digit occurs before the newline, so the ids pattern matches
      nowhere before the second line. */
  lemma NoIdBefore9()
    ensures forall q :: 0 <= q < 9 ==> MatchAt(IdAltPattern, BareText, q).None?
  {
    forall q | 0 <= q < 9 ensures MatchAt(IdAltPattern, BareText, q).None? {
      IdAltShape(BareText, q);
      assert !InSet(Digit, BareText[q]);
    }
  }

  /** `\b[0-9]{8,12}\b` matches the longest run of at most twelve digits
      from `i` when both of its ends are word boundaries. */
  lemma DigitsHit(nodes: seq<Atom>, s: string, i: nat, e: nat)
    requires |nodes| == 3 && nodes[0] == WordBoundary && nodes[1] == Repeat(Digit, 8, AtMost(12))
    requires nodes[2] == WordBoundary
    requires i + 8 <= e <= |s| && MaxRun(Digit, AtMost(12), 0, s, i, e)
    requires IsBoundary(s, i) && IsBoundary(s, e)
    ensures Match(false, [], 0, nodes, 0, s, i, NoGroup) == Some(Hit(e, NoGroup))
  {
    assert Match(false, [], 0, nodes, 3, s, e, NoGroup) == Some(Hit(e, NoGroup));
    assert MatchAtom(false, WordBoundary, [], 0, nodes, 3, s, e, NoGroup) == Some(Hit(e, NoGroup));
    assert Match(false, [], 0, nodes, 1, s, i, NoGroup) == Match(false, [], 0, nodes, 0, s, i, NoGroup);
    RepeatNode(false, nodes, 1, s, i, e, NoGroup);
  }

  lemma SecondLineDigits()
    ensures MaxRun(Digit, AtMost(12), 0, BareText, 9, 17)
    ensures IsBoundary(BareText, 9) && IsBoundary(BareText, 17)
  {
  }

  /** The eight digits of the second line form a whole word. */
  lemma DigitsAt9()
    ensures MatchAt(IdAltPattern, BareText, 9) == Some(Hit(17, NoGroup))
  {
    SecondLineDigits();
    DigitsHit(IdAltPattern.nodes, BareText, 9, 17);
  }

  /** Eight or more digits cannot start at the end of the text. */
  lemma NoIdAt17()
    ensures MatchAt(IdAltPattern, BareText, 17).None?
  {
    IdAltShape(BareText, 17);
  }

  lemma BareIdSearch()
    ensures MatchAll(IdAltPattern, BareText) == [MatchInfo(9, 17, NoGroup)]
  {
    NoIdBefore9();
    SearchPast(IdAltPattern, BareText, 0, 9);
    DigitsAt9();
    NoIdAt17();
    assert SearchFrom(IdAltPattern, BareText, 17).None?;
    assert MatchAllFrom(IdAltPattern, BareText, 17) == [];
  }

  lemma BareIdMatches()
    ensures IdMatches(BareText) == ["12345678"]
  {
    BareIdSearch();
    assert BareText[9..17] == "12345678";
  }

  /** The same values without labels: tier 1 finds nothing, so both
      fields come from the fallbacks over the whole text. */
  lemma ParseBare()
    ensures Parse("Jane Doe\n12345678") == ParsedData(["Jane Doe"], ["12345678"], [], "Jane Doe\n12345678")
  {
    BareScan();
    BareNameMatches();
    BareIdMatches();
  }
}
