/** The simulated OCR transcript of background.js:47-58, for document 1,
    run through the parser. */
module Transcript {
  import opened JsText
  import opened JsRegex
  import opened Patterns
  import opened DocumentParser

  /** The indentation of each line of the template literal. */
  const Indent: string := "            "

  /** The transcript's non-blank lines, trimmed. */
  const L1: string := "Crowdmark Document #1"
  const L2: string := "Student Information:"
  const L3: string := "Name: Sarah Johnson"
  const L4: string := "Student ID: 987654321"
  const L5: string := "Phone: (416) 555-0123"
  const L6: string := "Emergency Contact:"
  const L7: string := "Name: Mike Johnson"
  const L8: string := "ID: 123456789"
  const L9: string := "Phone: (416) 555-9876"

  /** The two blocks of lines of the transcript. */
  const FirstBlock: seq<string> := [L1, L2, L3, L4, L5]
  const SecondBlock: seq<string> := [L6, L7, L8, L9]

  /** Each line with the template's indentation in front. */
  function Indented(ls: seq<string>): (r: seq<string>)
    ensures |r| == |ls| && forall i :: 0 <= i < |ls| ==> r[i] == Indent + ls[i]
  {
    if ls == [] then [] else [Indent + ls[0]] + Indented(ls[1..])
  }

  /** The pieces of the template literal between its newlines: nothing
      before the first newline, the indented lines with a blank indented
      line between the two blocks, and the indentation before the closing
      backquote. */
  const Pieces: seq<string> := [""] + Indented(FirstBlock) + [Indent] + Indented(SecondBlock) + [Indent]

  /** The transcript text: its pieces joined by newlines. */
  function Text(): string {
    Join(Pieces)
  }

  const TextLines: seq<string> := FirstBlock + SecondBlock

  lemma IndentBlank()
    ensures IsBlank(Indent) && '\n' !in Indent
  {
  }

  /** An indented line trims to the line. */
  lemma TrimIndented(l: string)
    requires |l| > 0 && IsTrimmed(l)
    ensures Trim(Indent + l) == l
  {
    IndentBlank();
    TrimStartBlankPrefix(Indent, l);
    TrimStartOfTrimmed(l);
  }

  /** Non-empty trimmed lines survive their indentation being trimmed. */
  lemma {:induction false} TrimAndDropIndented(ls: seq<string>)
    requires forall i :: 0 <= i < |ls| ==> |ls[i]| > 0 && IsTrimmed(ls[i])
    ensures TrimAndDropEmpty(Indented(ls)) == ls
  {
    if ls != [] {
      TrimIndented(ls[0]);
      TrimAndDropIndented(ls[1..]);
      assert Indented(ls)[1..] == Indented(ls[1..]);
    }
  }

  /** A line of the transcript is non-empty, trimmed and free of
      newlines. */
  predicate IsLine(l: string) {
    |l| > 0 && IsTrimmed(l) && '\n' !in l
  }

  lemma FirstLineShape(l: string)
    requires l in FirstBlock
    ensures IsLine(l)
  {
  }

  lemma SecondLineShape(l: string)
    requires l in SecondBlock
    ensures IsLine(l)
  {
  }

  /** The lines of each block are non-empty, trimmed and free of
      newlines. */
  lemma FirstBlockShape()
    ensures forall i :: 0 <= i < |FirstBlock| ==> IsLine(FirstBlock[i])
  {
    FirstLineShape(L1);
    FirstLineShape(L2);
    FirstLineShape(L3);
    FirstLineShape(L4);
    FirstLineShape(L5);
  }

  lemma SecondBlockShape()
    ensures forall i :: 0 <= i < |SecondBlock| ==> IsLine(SecondBlock[i])
  {
    SecondLineShape(L6);
    SecondLineShape(L7);
    SecondLineShape(L8);
    SecondLineShape(L9);
  }

  /** Every piece is free of newlines, so splitting the text gives the
      pieces back. */
  lemma SplitText()
    ensures Split(Text()) == Pieces
  {
    IndentBlank();
    FirstBlockShape();
    SecondBlockShape();
    assert forall i :: 0 <= i < |Pieces| ==> '\n' !in Pieces[i];
    SplitJoin(Pieces);
  }

  /** The blank pieces are dropped... */
  lemma BlankDropped(w: string)
    requires IsBlank(w)
    ensures TrimAndDropEmpty([w]) == []
  {
    TrimEmptyIffBlank(w);
    assert [w][1..] == [];
  }

  lemma BlankPiecesDropped()
    ensures TrimAndDropEmpty([""]) == [] && TrimAndDropEmpty([Indent]) == []
  {
    IndentBlank();
    BlankDropped(Indent);
    BlankDropped("");
  }

  /** ... and the indented lines trimmed. */
  lemma FirstBlockKept()
    ensures TrimAndDropEmpty(Indented(FirstBlock)) == FirstBlock
  {
    FirstBlockShape();
    TrimAndDropIndented(FirstBlock);
  }

  lemma SecondBlockKept()
    ensures TrimAndDropEmpty(Indented(SecondBlock)) == SecondBlock
  {
    SecondBlockShape();
    TrimAndDropIndented(SecondBlock);
  }

  lemma DropEmpty<T>(a: seq<T>, b: seq<T>)
    ensures [] + a + [] + b + [] == a + b
  {
  }

  /** The parser sees exactly the nine non-blank lines, trimmed. */
  lemma TextLinesOfText()
    ensures Lines(Text()) == TextLines
  {
    SplitText();
    BlankPiecesDropped();
    FirstBlockKept();
    SecondBlockKept();
    var first, second := Indented(FirstBlock), Indented(SecondBlock);
    TrimAndDropEmptyAppend([""] + first + [Indent] + second, [Indent]);
    TrimAndDropEmptyAppend([""] + first + [Indent], second);
    TrimAndDropEmptyAppend([""] + first, [Indent]);
    TrimAndDropEmptyAppend([""], first);
    DropEmpty(FirstBlock, SecondBlock);
  }

  // ---------------------------------------------------------------------
  // Where the label words do not occur, line by line

  lemma L1LacksName()
    ensures NoWordBetween(true, L1, 0, 21, "name")
  {
    assert NoWordBetween(true, L1, 0, 21, "na") && "name"[..2] == "na";
    NoWordOfPrefix(true, L1, 0, 21, "name", 2);
  }

  lemma L1LacksStudent()
    ensures NoWordBetween(true, L1, 0, 21, "student")
  {
    assert NoWordBetween(true, L1, 0, 21, "s") && "student"[..1] == "s";
    NoWordOfPrefix(true, L1, 0, 21, "student", 1);
  }

  lemma L1LacksContact()
    ensures NoWordBetween(true, L1, 0, 21, "contact")
  {
    assert NoWordBetween(true, L1, 0, 21, "co") && "contact"[..2] == "co";
    NoWordOfPrefix(true, L1, 0, 21, "contact", 2);
  }

  lemma L1LacksId()
    ensures NoWordBetween(true, L1, 0, 21, "id")
  {
    assert NoWordBetween(true, L1, 0, 21, "i") && "id"[..1] == "i";
    NoWordOfPrefix(true, L1, 0, 21, "id", 1);
  }

  lemma L1LacksNumber()
    ensures NoWordBetween(true, L1, 0, 21, "number")
  {
    assert NoWordBetween(true, L1, 0, 21, "nu") && "number"[..2] == "nu";
    NoWordOfPrefix(true, L1, 0, 21, "number", 2);
  }

  lemma L1LacksPhone()
    ensures NoWordBetween(true, L1, 0, 21, "phone")
  {
    assert NoWordBetween(true, L1, 0, 21, "p") && "phone"[..1] == "p";
    NoWordOfPrefix(true, L1, 0, 21, "phone", 1);
  }

  lemma L1LacksTel()
    ensures NoWordBetween(true, L1, 0, 21, "tel")
  {
    assert NoWordBetween(true, L1, 0, 21, "te") && "tel"[..2] == "te";
    NoWordOfPrefix(true, L1, 0, 21, "tel", 2);
  }

  lemma L1LacksTelephone()
    ensures NoWordBetween(true, L1, 0, 21, "telephone")
  {
    assert NoWordBetween(true, L1, 0, 21, "te") && "telephone"[..2] == "te";
    NoWordOfPrefix(true, L1, 0, 21, "telephone", 2);
  }

  lemma L2LacksId()
    ensures NoWordBetween(true, L2, 1, 20, "id")
  {
  }

  lemma L2LacksStudent()
    ensures NoWordBetween(true, L2, 1, 20, "student")
  {
    assert NoWordBetween(true, L2, 1, 20, "s") && "student"[..1] == "s";
    NoWordOfPrefix(true, L2, 1, 20, "student", 1);
  }

  lemma L2LacksNumber()
    ensures NoWordBetween(true, L2, 1, 20, "number")
  {
    assert NoWordBetween(true, L2, 1, 20, "nu") && "number"[..2] == "nu";
    NoWordOfPrefix(true, L2, 1, 20, "number", 2);
  }

  lemma L2LacksPhone()
    ensures NoWordBetween(true, L2, 0, 20, "phone")
  {
    assert NoWordBetween(true, L2, 0, 20, "p") && "phone"[..1] == "p";
    NoWordOfPrefix(true, L2, 0, 20, "phone", 1);
  }

  lemma L2LacksTel()
    ensures NoWordBetween(true, L2, 0, 20, "tel")
  {
    assert NoWordBetween(true, L2, 0, 20, "te") && "tel"[..2] == "te";
    NoWordOfPrefix(true, L2, 0, 20, "tel", 2);
  }

  lemma L2LacksTelephone()
    ensures NoWordBetween(true, L2, 0, 20, "telephone")
  {
    assert NoWordBetween(true, L2, 0, 20, "te") && "telephone"[..2] == "te";
    NoWordOfPrefix(true, L2, 0, 20, "telephone", 2);
  }

  lemma L3LacksId()
    ensures NoWordBetween(true, L3, 0, 19, "id")
  {
    assert NoWordBetween(true, L3, 0, 19, "i") && "id"[..1] == "i";
    NoWordOfPrefix(true, L3, 0, 19, "id", 1);
  }

  lemma L3LacksStudent()
    ensures NoWordBetween(true, L3, 0, 19, "student")
  {
    assert NoWordBetween(true, L3, 0, 19, "st") && "student"[..2] == "st";
    NoWordOfPrefix(true, L3, 0, 19, "student", 2);
  }

  lemma L3LacksNumber()
    ensures NoWordBetween(true, L3, 0, 19, "number")
  {
    assert NoWordBetween(true, L3, 0, 19, "nu") && "number"[..2] == "nu";
    NoWordOfPrefix(true, L3, 0, 19, "number", 2);
  }

  lemma L3LacksPhone()
    ensures NoWordBetween(true, L3, 0, 19, "phone")
  {
    assert NoWordBetween(true, L3, 0, 19, "p") && "phone"[..1] == "p";
    NoWordOfPrefix(true, L3, 0, 19, "phone", 1);
  }

  lemma L3LacksTel()
    ensures NoWordBetween(true, L3, 0, 19, "tel")
  {
    assert NoWordBetween(true, L3, 0, 19, "t") && "tel"[..1] == "t";
    NoWordOfPrefix(true, L3, 0, 19, "tel", 1);
  }

  lemma L3LacksTelephone()
    ensures NoWordBetween(true, L3, 0, 19, "telephone")
  {
    assert NoWordBetween(true, L3, 0, 19, "t") && "telephone"[..1] == "t";
    NoWordOfPrefix(true, L3, 0, 19, "telephone", 1);
  }

  lemma L5LacksName()
    ensures NoWordBetween(true, L5, 10, 21, "name")
  {
    assert NoWordBetween(true, L5, 10, 21, "n") && "name"[..1] == "n";
    NoWordOfPrefix(true, L5, 10, 21, "name", 1);
  }

  lemma L5LacksStudent()
    ensures NoWordBetween(true, L5, 10, 21, "student")
  {
    assert NoWordBetween(true, L5, 10, 21, "s") && "student"[..1] == "s";
    NoWordOfPrefix(true, L5, 10, 21, "student", 1);
  }

  lemma L5LacksContact()
    ensures NoWordBetween(true, L5, 10, 21, "contact")
  {
    assert NoWordBetween(true, L5, 10, 21, "c") && "contact"[..1] == "c";
    NoWordOfPrefix(true, L5, 10, 21, "contact", 1);
  }

  lemma L6LacksName()
    ensures NoWordBetween(true, L6, 0, 10, "name") && NoWordBetween(true, L6, 11, 18, "name")
  {
    assert NoWordBetween(true, L6, 0, 10, "na") && "name"[..2] == "na";
    NoWordOfPrefix(true, L6, 0, 10, "name", 2);
    assert NoWordBetween(true, L6, 11, 18, "na") && "name"[..2] == "na";
    NoWordOfPrefix(true, L6, 11, 18, "name", 2);
  }

  lemma L6LacksStudent()
    ensures NoWordBetween(true, L6, 0, 18, "student")
  {
    assert NoWordBetween(true, L6, 0, 18, "s") && "student"[..1] == "s";
    NoWordOfPrefix(true, L6, 0, 18, "student", 1);
  }

  lemma L6LacksContact()
    ensures NoWordBetween(true, L6, 0, 10, "contact") && NoWordBetween(true, L6, 11, 18, "contact")
  {
    assert NoWordBetween(true, L6, 0, 10, "co") && "contact"[..2] == "co";
    NoWordOfPrefix(true, L6, 0, 10, "contact", 2);
    assert NoWordBetween(true, L6, 11, 18, "co") && "contact"[..2] == "co";
    NoWordOfPrefix(true, L6, 11, 18, "contact", 2);
  }

  lemma L6LacksId()
    ensures NoWordBetween(true, L6, 0, 18, "id")
  {
    assert NoWordBetween(true, L6, 0, 18, "i") && "id"[..1] == "i";
    NoWordOfPrefix(true, L6, 0, 18, "id", 1);
  }

  lemma L6LacksNumber()
    ensures NoWordBetween(true, L6, 0, 18, "number")
  {
    assert NoWordBetween(true, L6, 0, 18, "nu") && "number"[..2] == "nu";
    NoWordOfPrefix(true, L6, 0, 18, "number", 2);
  }

  lemma L9LacksName()
    ensures NoWordBetween(true, L9, 0, 21, "name")
  {
    assert NoWordBetween(true, L9, 0, 21, "na") && "name"[..2] == "na";
    NoWordOfPrefix(true, L9, 0, 21, "name", 2);
  }

  lemma L9LacksStudent()
    ensures NoWordBetween(true, L9, 0, 21, "student") && NoWordBetween(true, L9, 13, 21, "student")
  {
    assert NoWordBetween(true, L9, 0, 21, "s") && "student"[..1] == "s";
    NoWordOfPrefix(true, L9, 0, 21, "student", 1);
    assert NoWordBetween(true, L9, 13, 21, "s") && "student"[..1] == "s";
    NoWordOfPrefix(true, L9, 13, 21, "student", 1);
  }

  lemma L9LacksContact()
    ensures NoWordBetween(true, L9, 0, 21, "contact")
  {
    assert NoWordBetween(true, L9, 0, 21, "c") && "contact"[..1] == "c";
    NoWordOfPrefix(true, L9, 0, 21, "contact", 1);
  }

  lemma L9LacksId()
    ensures NoWordBetween(true, L9, 13, 21, "id")
  {
    assert NoWordBetween(true, L9, 13, 21, "i") && "id"[..1] == "i";
    NoWordOfPrefix(true, L9, 13, 21, "id", 1);
  }

  lemma L9LacksNumber()
    ensures NoWordBetween(true, L9, 13, 21, "number")
  {
    assert NoWordBetween(true, L9, 13, 21, "n") && "number"[..1] == "n";
    NoWordOfPrefix(true, L9, 13, 21, "number", 1);
  }

  // ---------------------------------------------------------------------
  // The characters each match takes, line by line

  lemma L2NoNameAt0()
    ensures !WordAt(true, L2, 0, "name")
  {
  }

  lemma L2StudentAt0()
    ensures WordAt(true, L2, 0, "student")
  {
  }

  lemma L2NameLabel()
    ensures !WordAt(true, L2, 0, "name") && WordAt(true, L2, 0, "student")
  {
    L2NoNameAt0(); L2StudentAt0();
  }

  lemma L2NameSpaces()
    ensures MaxRun(Space, Unbounded, 0, L2, 7, 8) && L2[8] == 'I' && MaxRun(Space, Unbounded, 0, L2, 8, 8)
  {
  }

  lemma L2NameField()
    ensures MaxRun(LetterOrSpace, AtMost(30), 0, L2, 8, 19)
  {
  }

  lemma L2NoIdAt0()
    ensures !WordAt(true, L2, 0, "id")
  {
  }

  lemma L2NoNumberAt0()
    ensures !WordAt(true, L2, 0, "number")
  {
  }

  lemma L2IdLabel()
    ensures WordAt(true, L2, 0, "student") && !WordAt(true, L2, 0, "id") && !WordAt(true, L2, 0, "number")
  {
    L2StudentAt0(); L2NoIdAt0(); L2NoNumberAt0();
  }

  lemma L2NoIdAt7()
    ensures !WordAt(true, L2, 7, "id")
  {
  }

  lemma L2NoIdAt8()
    ensures !WordAt(true, L2, 8, "id")
  {
  }

  lemma L2IdSpaces()
    ensures MaxRun(Space, Unbounded, 0, L2, 7, 8) && !WordAt(true, L2, 7, "id") && !WordAt(true, L2, 8, "id")
  {
    L2NoIdAt7(); L2NoIdAt8();
    assert MaxRun(Space, Unbounded, 0, L2, 7, 8);
  }

  lemma L3NameLabel()
    ensures WordAt(true, L3, 0, "name")
  {
  }

  lemma L3NameSpaces()
    ensures MaxRun(Space, Unbounded, 0, L3, 4, 4) && L3[4] == ':' && MaxRun(Space, Unbounded, 0, L3, 5, 6)
  {
  }

  lemma L3NameField()
    ensures MaxRun(LetterOrSpace, AtMost(30), 0, L3, 6, 19)
  {
  }

  lemma L4NoNameAt0()
    ensures !WordAt(true, L4, 0, "name")
  {
  }

  lemma L4StudentAt0()
    ensures WordAt(true, L4, 0, "student")
  {
  }

  lemma L4NameLabel()
    ensures !WordAt(true, L4, 0, "name") && WordAt(true, L4, 0, "student")
  {
    L4NoNameAt0(); L4StudentAt0();
  }

  lemma L4NameSpaces()
    ensures MaxRun(Space, Unbounded, 0, L4, 7, 8) && L4[8] == 'I' && MaxRun(Space, Unbounded, 0, L4, 8, 8)
  {
  }

  lemma L4NameField()
    ensures MaxRun(LetterOrSpace, AtMost(30), 0, L4, 8, 10)
  {
  }

  lemma L4NoIdAt0()
    ensures !WordAt(true, L4, 0, "id")
  {
  }

  lemma L4IdAt8()
    ensures WordAt(true, L4, 8, "id")
  {
  }

  lemma L4IdLabel()
    ensures WordAt(true, L4, 0, "student") && !WordAt(true, L4, 0, "id") && WordAt(true, L4, 8, "id")
  {
    L4StudentAt0(); L4NoIdAt0(); L4IdAt8();
  }

  lemma L4IdSpaces()
    ensures MaxRun(Space, Unbounded, 0, L4, 7, 8) && MaxRun(Space, Unbounded, 0, L4, 10, 10) && L4[10] == ':'
      && MaxRun(Space, Unbounded, 0, L4, 11, 12)
  {
  }

  lemma L4IdField()
    ensures MaxRun(Digit, AtMost(12), 0, L4, 12, 21)
  {
  }

  lemma L5PhoneLabel()
    ensures WordAt(true, L5, 0, "phone")
  {
  }

  lemma L5PhoneSpaces()
    ensures MaxRun(Space, Unbounded, 0, L5, 5, 5) && L5[5] == ':' && MaxRun(Space, Unbounded, 0, L5, 6, 7)
  {
  }

  lemma L5PhoneField()
    ensures MaxRun(PhoneChar, AtMost(20), 0, L5, 7, 21)
  {
  }

  lemma L6NoNameAt10()
    ensures !WordAt(true, L6, 10, "name")
  {
  }

  lemma L6NoStudentAt10()
    ensures !WordAt(true, L6, 10, "student")
  {
  }

  lemma L6ContactAt10()
    ensures WordAt(true, L6, 10, "contact")
  {
  }

  lemma L6NameLabel()
    ensures !WordAt(true, L6, 10, "name") && !WordAt(true, L6, 10, "student") && WordAt(true, L6, 10, "contact")
  {
    L6NoNameAt10(); L6NoStudentAt10(); L6ContactAt10();
  }

  lemma L7NameLabel()
    ensures WordAt(true, L7, 0, "name")
  {
  }

  lemma L7NameSpaces()
    ensures MaxRun(Space, Unbounded, 0, L7, 4, 4) && L7[4] == ':' && MaxRun(Space, Unbounded, 0, L7, 5, 6)
  {
  }

  lemma L7NameField()
    ensures MaxRun(LetterOrSpace, AtMost(30), 0, L7, 6, 18)
  {
  }

  lemma L8IdLabel()
    ensures WordAt(true, L8, 0, "id")
  {
  }

  lemma L8IdSpaces()
    ensures MaxRun(Space, Unbounded, 0, L8, 2, 2) && L8[2] == ':' && MaxRun(Space, Unbounded, 0, L8, 3, 4)
  {
  }

  lemma L8IdField()
    ensures MaxRun(Digit, AtMost(12), 0, L8, 4, 13)
  {
  }

  lemma L9PhoneLabel()
    ensures WordAt(true, L9, 0, "phone")
  {
  }

  lemma L9PhoneSpaces()
    ensures MaxRun(Space, Unbounded, 0, L9, 5, 5) && L9[5] == ':' && MaxRun(Space, Unbounded, 0, L9, 6, 7)
  {
  }

  lemma L9PhoneField()
    ensures MaxRun(PhoneChar, AtMost(20), 0, L9, 7, 21)
  {
  }

  // ---------------------------------------------------------------------
  // What each `exec` of the scan finds, line by line

  /** No label word anywhere in the first line: all three patterns fail. */
  lemma L1Exec()
    ensures ExecFrom(NamePattern, L1, 0) == ExecResult(None, 0)
    ensures ExecFrom(IdPattern, L1, 0) == ExecResult(None, 0)
    ensures ExecFrom(PhonePattern, L1, 0) == ExecResult(None, 0)
  {
    TierOneLabels();
    L1LacksName(); L1LacksStudent(); L1LacksContact(); L1LacksId(); L1LacksNumber();
    L1LacksPhone(); L1LacksTel(); L1LacksTelephone();
    NoLabelExec(NamePattern, NameLabels, L1, 0);
    NoLabelExec(IdPattern, IdLabels, L1, 0);
    NoLabelExec(PhonePattern, PhoneLabels, L1, 0);
  }

  /** The name pattern takes "Student" as its label and captures
      "Information", up to the colon. */
  lemma L2NameExec()
    ensures ExecFrom(NamePattern, L2, 0) == ExecResult(Some(MatchInfo(0, 19, 8)), 19)
  {
    TierOneLabels(); TierOneTails(); BareLabels();
    L2NameLabel(); L2NameSpaces(); L2NameField();
    assert forall k :: 0 <= k < 1 ==> !WordAt(true, L2, 0, NameLabels[k]);
    LabelHit(NamePattern, NameLabels, 1, LetterOrSpace, 2, AtMost(30), L2, 0, 8, 8, 8, 19);
    ExecAtStart(NamePattern, L2, Hit(19, 8));
  }

  /** "Student" without "ID" after it: the id pattern fails. */
  lemma L2IdExec()
    ensures ExecFrom(IdPattern, L2, 0) == ExecResult(None, 0)
  {
    L2IdAt0();
    SearchSkip(IdPattern, L2, 0);
    L2IdFrom1();
  }

  lemma L2IdAt0()
    ensures MatchAt(IdPattern, L2, 0).None?
  {
    L2IdLabel(); L2IdSpaces();
    StudentWithoutId(L2, 0, 8);
  }

  lemma L2IdFrom1()
    ensures SearchFrom(IdPattern, L2, 1).None?
  {
    TierOneLabels();
    L2LacksId(); L2LacksStudent(); L2LacksNumber();
    NoLabelSearch(IdPattern, IdLabels, L2, 1);
  }

  lemma L2PhoneExec()
    ensures ExecFrom(PhonePattern, L2, 0) == ExecResult(None, 0)
  {
    TierOneLabels();
    L2LacksPhone(); L2LacksTel(); L2LacksTelephone();
    NoLabelExec(PhonePattern, PhoneLabels, L2, 0);
  }

  /** The name pattern resumes at 19, the end of this 19-character line,
      and fails; the id and phone patterns fail as well. */
  lemma L3Exec()
    ensures ExecFrom(NamePattern, L3, 19) == ExecResult(None, 0)
    ensures ExecFrom(IdPattern, L3, 0) == ExecResult(None, 0)
    ensures ExecFrom(PhonePattern, L3, 0) == ExecResult(None, 0)
  {
    TierOneLabels();
    NoLabelExec(NamePattern, NameLabels, L3, 19);
    L3LacksId(); L3LacksStudent(); L3LacksNumber();
    NoLabelExec(IdPattern, IdLabels, L3, 0);
    L3LacksPhone(); L3LacksTel(); L3LacksTelephone();
    NoLabelExec(PhonePattern, PhoneLabels, L3, 0);
  }

  /** A fresh name pattern would capture "Sarah Johnson" in the third line. */
  lemma L3FreshNameExec()
    ensures ExecFrom(NamePattern, L3, 0) == ExecResult(Some(MatchInfo(0, 19, 6)), 19)
  {
    TierOneLabels(); TierOneTails(); BareLabels();
    L3NameLabel(); L3NameSpaces(); L3NameField();
    LabelHit(NamePattern, NameLabels, 0, LetterOrSpace, 2, AtMost(30), L3, 0, 4, 5, 6, 19);
    ExecAtStart(NamePattern, L3, Hit(19, 6));
  }

  /** The name pattern takes "Student" as its label and captures "ID". */
  lemma L4NameExec()
    ensures ExecFrom(NamePattern, L4, 0) == ExecResult(Some(MatchInfo(0, 10, 8)), 10)
  {
    TierOneLabels(); TierOneTails(); BareLabels();
    L4NameLabel(); L4NameSpaces(); L4NameField();
    assert forall k :: 0 <= k < 1 ==> !WordAt(true, L4, 0, NameLabels[k]);
    LabelHit(NamePattern, NameLabels, 1, LetterOrSpace, 2, AtMost(30), L4, 0, 8, 8, 8, 10);
    ExecAtStart(NamePattern, L4, Hit(10, 8));
  }

  /** The id pattern matches "Student ID: 987654321" through `student\s*id`. */
  lemma L4IdExec()
    ensures ExecFrom(IdPattern, L4, 0) == ExecResult(Some(MatchInfo(0, 21, 12)), 21)
  {
    L4IdLabel(); L4IdSpaces(); L4IdField();
    StudentIdHit(L4, 0, 8, 10, 11, 12, 21);
    ExecAtStart(IdPattern, L4, Hit(21, 12));
  }

  /** The name pattern resumes at 10 and fails, the id pattern resumes at
      21, the end of the line, and fails; the phone pattern matches. */
  lemma L5Exec()
    ensures ExecFrom(NamePattern, L5, 10) == ExecResult(None, 0)
    ensures ExecFrom(IdPattern, L5, 21) == ExecResult(None, 0)
  {
    TierOneLabels();
    L5LacksName(); L5LacksStudent(); L5LacksContact();
    NoLabelExec(NamePattern, NameLabels, L5, 10);
    NoLabelExec(IdPattern, IdLabels, L5, 21);
  }

  lemma L5PhoneExec()
    ensures ExecFrom(PhonePattern, L5, 0) == ExecResult(Some(MatchInfo(0, 21, 7)), 21)
  {
    TierOneLabels(); TierOneTails(); BareLabels();
    L5PhoneLabel(); L5PhoneSpaces(); L5PhoneField();
    LabelHit(PhonePattern, PhoneLabels, 0, PhoneChar, 10, AtMost(20), L5, 0, 5, 6, 7, 21);
    ExecAtStart(PhonePattern, L5, Hit(21, 7));
  }

  /** At 10 "Contact" occurs, but one character after it is too short a
      name; no label word occurs after it. */
  lemma L6NameFromContact()
    ensures SearchFrom(NamePattern, L6, 10).None?
  {
    TierOneLabels(); Tier1Fields(); BareLabels();
    L6LacksName(); L6LacksStudent(); L6LacksContact(); L6NameLabel();
    assert forall k :: 0 <= k < 3 && k != 2 ==> !WordAt(true, L6, 10, NameLabels[k]);
    LabelTooShort(NamePattern, NameLabels, 2, LetterOrSpace, 2, AtMost(30), L6, 10);
    SearchSkip(NamePattern, L6, 10);
    NoLabelSearch(NamePattern, NameLabels, L6, 11);
  }

  /** The name pattern fails on "Emergency Contact:"; no id label occurs;
      the phone pattern's `lastIndex` of 21 is past the end of this
      18-character line. */
  lemma L6NameExec()
    ensures ExecFrom(NamePattern, L6, 0) == ExecResult(None, 0)
  {
    TierOneLabels();
    L6LacksName(); L6LacksStudent(); L6LacksContact();
    NoLabelSkip(NamePattern, NameLabels, L6, 0, 10);
    L6NameFromContact();
  }

  lemma L6Exec()
    ensures ExecFrom(IdPattern, L6, 0) == ExecResult(None, 0)
    ensures ExecFrom(PhonePattern, L6, 21) == ExecResult(None, 0)
  {
    TierOneLabels();
    L6LacksId(); L6LacksStudent(); L6LacksNumber();
    NoLabelExec(IdPattern, IdLabels, L6, 0);
  }

  lemma L7NameExec()
    ensures ExecFrom(NamePattern, L7, 0) == ExecResult(Some(MatchInfo(0, 18, 6)), 18)
  {
    TierOneLabels(); TierOneTails(); BareLabels();
    L7NameLabel(); L7NameSpaces(); L7NameField();
    LabelHit(NamePattern, NameLabels, 0, LetterOrSpace, 2, AtMost(30), L7, 0, 4, 5, 6, 18);
    ExecAtStart(NamePattern, L7, Hit(18, 6));
  }

  /** The name pattern's `lastIndex` of 18 is past the end of this
      13-character line; the id pattern matches. */
  lemma L8Exec()
    ensures ExecFrom(NamePattern, L8, 18) == ExecResult(None, 0)
    ensures ExecFrom(IdPattern, L8, 0) == ExecResult(Some(MatchInfo(0, 13, 4)), 13)
  {
    TierOneLabels(); TierOneTails(); BareLabels();
    L8IdLabel(); L8IdSpaces(); L8IdField();
    LabelHit(IdPattern, IdLabels, 0, Digit, 6, AtMost(12), L8, 0, 2, 3, 4, 13);
    ExecAtStart(IdPattern, L8, Hit(13, 4));
  }

  lemma L9Exec()
    ensures ExecFrom(NamePattern, L9, 0) == ExecResult(None, 0)
    ensures ExecFrom(IdPattern, L9, 13) == ExecResult(None, 0)
  {
    TierOneLabels();
    L9LacksName(); L9LacksStudent(); L9LacksContact(); L9LacksId(); L9LacksNumber();
    NoLabelExec(NamePattern, NameLabels, L9, 0);
    NoLabelExec(IdPattern, IdLabels, L9, 13);
  }

  lemma L9PhoneExec()
    ensures ExecFrom(PhonePattern, L9, 0) == ExecResult(Some(MatchInfo(0, 21, 7)), 21)
  {
    TierOneLabels(); TierOneTails(); BareLabels();
    L9PhoneLabel(); L9PhoneSpaces(); L9PhoneField();
    LabelHit(PhonePattern, PhoneLabels, 0, PhoneChar, 10, AtMost(20), L9, 0, 5, 6, 7, 21);
    ExecAtStart(PhonePattern, L9, Hit(21, 7));
  }

  // ---------------------------------------------------------------------
  // The values the captures give

  lemma L2NameValue()
    ensures ExecValue(NamePattern, L2, 0) == Some("Information")
  {
    L2NameExec();
    assert L2[8..19] == "Information";
    TrimOfTrimmed("Information");
  }

  lemma L3FreshNameValue()
    ensures ExecValue(NamePattern, L3, 0) == Some("Sarah Johnson")
  {
    L3FreshNameExec();
    assert L3[6..19] == "Sarah Johnson";
    TrimOfTrimmed("Sarah Johnson");
  }

  lemma L4NameValue()
    ensures ExecValue(NamePattern, L4, 0) == Some("ID")
  {
    L4NameExec();
    assert L4[8..10] == "ID";
    TrimOfTrimmed("ID");
  }

  lemma L4IdValue()
    ensures ExecValue(IdPattern, L4, 0) == Some("987654321")
  {
    L4IdExec();
    assert L4[12..21] == "987654321";
    TrimOfTrimmed("987654321");
  }

  lemma L5PhoneValue()
    ensures ExecValue(PhonePattern, L5, 0) == Some("(416) 555-0123")
  {
    L5PhoneExec();
    assert L5[7..21] == "(416) 555-0123";
    TrimOfTrimmed("(416) 555-0123");
  }

  lemma L7NameValue()
    ensures ExecValue(NamePattern, L7, 0) == Some("Mike Johnson")
  {
    L7NameExec();
    assert L7[6..18] == "Mike Johnson";
    TrimOfTrimmed("Mike Johnson");
  }

  lemma L8IdValue()
    ensures ExecValue(IdPattern, L8, 0) == Some("123456789")
  {
    L8Exec();
    assert L8[4..13] == "123456789";
    TrimOfTrimmed("123456789");
  }

  lemma L9PhoneValue()
    ensures ExecValue(PhonePattern, L9, 0) == Some("(416) 555-9876")
  {
    L9PhoneExec();
    assert L9[7..21] == "(416) 555-9876";
    TrimOfTrimmed("(416) 555-9876");
  }

  /** The two captures that fail the name check. */
  lemma NamesRejected()
    ensures !IsAcceptedName("Information") && !IsAcceptedName("ID")
  {
  }

  // ---------------------------------------------------------------------
  // The scan, line by line

  /** The name pattern does not claim the line. */
  predicate NameDeclines(st: ScanState, line: string) {
    var name := ExecValue(NamePattern, line, st.nameIndex);
    !(name.Some? && IsAcceptedName(name.value))
  }

  /** The four outcomes of a step, each from what the three `exec` calls
      give. */
  lemma StepByName(st: ScanState, line: string, v: string, ni: nat)
    requires ExecValue(NamePattern, line, st.nameIndex) == Some(v) && IsAcceptedName(v)
    requires ExecFrom(NamePattern, line, st.nameIndex).lastIndex == ni
    ensures Step(st, line) == st.(names := st.names + [v], nameIndex := ni)
  {
  }

  lemma StepById(st: ScanState, line: string, ni: nat, v: string, ii: nat)
    requires NameDeclines(st, line) && ExecFrom(NamePattern, line, st.nameIndex).lastIndex == ni
    requires ExecValue(IdPattern, line, st.idIndex) == Some(v)
    requires ExecFrom(IdPattern, line, st.idIndex).lastIndex == ii
    ensures Step(st, line) == st.(ids := st.ids + [v], nameIndex := ni, idIndex := ii)
  {
  }

  lemma StepByPhone(st: ScanState, line: string, ni: nat, ii: nat, v: string, pi: nat)
    requires NameDeclines(st, line) && ExecFrom(NamePattern, line, st.nameIndex).lastIndex == ni
    requires ExecFrom(IdPattern, line, st.idIndex) == ExecResult(None, ii)
    requires ExecValue(PhonePattern, line, st.phoneIndex) == Some(v)
    requires ExecFrom(PhonePattern, line, st.phoneIndex).lastIndex == pi
    ensures Step(st, line) == st.(phones := st.phones + [v], nameIndex := ni, idIndex := ii, phoneIndex := pi)
  {
  }

  lemma StepByNone(st: ScanState, line: string, ni: nat, ii: nat, pi: nat)
    requires NameDeclines(st, line) && ExecFrom(NamePattern, line, st.nameIndex).lastIndex == ni
    requires ExecFrom(IdPattern, line, st.idIndex) == ExecResult(None, ii)
    requires ExecFrom(PhonePattern, line, st.phoneIndex) == ExecResult(None, pi)
    ensures Step(st, line) == st.(nameIndex := ni, idIndex := ii, phoneIndex := pi)
  {
  }

  lemma Step1()
    ensures Step(Fresh, L1) == Fresh
  {
    L1Exec();
    StepByNone(Fresh, L1, 0, 0, 0);
  }

  /** "Information" has no space and is rejected; the name pattern keeps
      its `lastIndex` of 19. */
  lemma Step2()
    ensures Step(Fresh, L2) == ScanState([], [], [], 19, 0, 0)
  {
    L2NameExec(); L2NameValue(); NamesRejected(); L2IdExec(); L2PhoneExec();
    StepByNone(Fresh, L2, 19, 0, 0);
  }

  lemma Step3()
    ensures Step(ScanState([], [], [], 19, 0, 0), L3) == Fresh
  {
    L3Exec();
    StepByNone(ScanState([], [], [], 19, 0, 0), L3, 0, 0, 0);
  }

  /** "ID" is too short a name; the line falls through to the id pattern. */
  lemma Step4()
    ensures Step(Fresh, L4) == ScanState([], ["987654321"], [], 10, 21, 0)
  {
    L4NameExec(); L4NameValue(); NamesRejected(); L4IdExec(); L4IdValue();
    StepById(Fresh, L4, 10, "987654321", 21);
  }

  lemma Step5()
    ensures Step(ScanState([], ["987654321"], [], 10, 21, 0), L5)
         == ScanState([], ["987654321"], ["(416) 555-0123"], 0, 0, 21)
  {
    L5Exec(); L5PhoneExec(); L5PhoneValue();
    StepByPhone(ScanState([], ["987654321"], [], 10, 21, 0), L5, 0, 0, "(416) 555-0123", 21);
  }

  lemma Step6()
    ensures Step(ScanState([], ["987654321"], ["(416) 555-0123"], 0, 0, 21), L6)
         == ScanState([], ["987654321"], ["(416) 555-0123"], 0, 0, 0)
  {
    L6NameExec(); L6Exec();
    StepByNone(ScanState([], ["987654321"], ["(416) 555-0123"], 0, 0, 21), L6, 0, 0, 0);
  }

  /** The one name the scan keeps. */
  lemma MikeAccepted()
    ensures IsAcceptedName("Mike Johnson")
  {
    assert "Mike Johnson"[4] == ' ';
  }

  lemma Step7()
    ensures Step(ScanState([], ["987654321"], ["(416) 555-0123"], 0, 0, 0), L7)
         == ScanState(["Mike Johnson"], ["987654321"], ["(416) 555-0123"], 18, 0, 0)
  {
    L7NameExec(); L7NameValue(); MikeAccepted();
    StepByName(ScanState([], ["987654321"], ["(416) 555-0123"], 0, 0, 0), L7, "Mike Johnson", 18);
  }

  lemma Step8()
    ensures Step(ScanState(["Mike Johnson"], ["987654321"], ["(416) 555-0123"], 18, 0, 0), L8)
         == ScanState(["Mike Johnson"], ["987654321", "123456789"], ["(416) 555-0123"], 0, 13, 0)
  {
    L8Exec(); L8IdValue();
    StepById(ScanState(["Mike Johnson"], ["987654321"], ["(416) 555-0123"], 18, 0, 0), L8, 0, "123456789", 13);
  }

  lemma Step9()
    ensures Step(ScanState(["Mike Johnson"], ["987654321", "123456789"], ["(416) 555-0123"], 0, 13, 0), L9)
         == ScanState(["Mike Johnson"], ["987654321", "123456789"], ["(416) 555-0123", "(416) 555-9876"], 0, 0, 21)
  {
    L9Exec(); L9PhoneExec(); L9PhoneValue();
    StepByPhone(ScanState(["Mike Johnson"], ["987654321", "123456789"], ["(416) 555-0123"], 0, 13, 0), L9,
                0, 0, "(416) 555-9876", 21);
  }

  /** One more line of the transcript is one more step of the scan. */
  lemma ScanNext(i: nat, before: ScanState, after: ScanState)
    requires i < |TextLines| && Scan(TextLines[..i]) == before && Step(before, TextLines[i]) == after
    ensures Scan(TextLines[..i + 1]) == after
  {
    ScanSnoc(TextLines, i);
  }

  lemma ScanThrough1()
    ensures Scan(TextLines[..1]) == Fresh
  {
    assert TextLines[..0] == [];
    assert TextLines[0] == FirstBlock[0] == L1;
    Step1();
    ScanNext(0, Fresh, Fresh);
  }

  /** After the first two lines the name pattern's `lastIndex` is 19. */
  lemma ScanThrough2()
    ensures Scan(TextLines[..2]) == ScanState([], [], [], 19, 0, 0)
  {
    ScanThrough1();
    assert TextLines[1] == FirstBlock[1] == L2;
    Step2();
    ScanNext(1, Fresh, ScanState([], [], [], 19, 0, 0));
  }

  lemma ScanThrough3()
    ensures Scan(TextLines[..3]) == Fresh
  {
    ScanThrough2();
    assert TextLines[2] == FirstBlock[2] == L3;
    Step3();
    ScanNext(2, ScanState([], [], [], 19, 0, 0), Fresh);
  }

  lemma ScanThrough4()
    ensures Scan(TextLines[..4]) == ScanState([], ["987654321"], [], 10, 21, 0)
  {
    ScanThrough3();
    assert TextLines[3] == FirstBlock[3] == L4;
    Step4();
    ScanNext(3, Fresh, ScanState([], ["987654321"], [], 10, 21, 0));
  }

  lemma ScanThrough5()
    ensures Scan(TextLines[..5]) == ScanState([], ["987654321"], ["(416) 555-0123"], 0, 0, 21)
  {
    ScanThrough4();
    assert TextLines[4] == FirstBlock[4] == L5;
    Step5();
    ScanNext(4, ScanState([], ["987654321"], [], 10, 21, 0), ScanState([], ["987654321"], ["(416) 555-0123"], 0, 0, 21));
  }

  lemma ScanThrough6()
    ensures Scan(TextLines[..6]) == ScanState([], ["987654321"], ["(416) 555-0123"], 0, 0, 0)
  {
    ScanThrough5();
    assert TextLines[5] == SecondBlock[0] == L6;
    Step6();
    ScanNext(5, ScanState([], ["987654321"], ["(416) 555-0123"], 0, 0, 21), ScanState([], ["987654321"], ["(416) 555-0123"], 0, 0, 0));
  }

  lemma ScanThrough7()
    ensures Scan(TextLines[..7]) == ScanState(["Mike Johnson"], ["987654321"], ["(416) 555-0123"], 18, 0, 0)
  {
    ScanThrough6();
    assert TextLines[6] == SecondBlock[1] == L7;
    Step7();
    ScanNext(6, ScanState([], ["987654321"], ["(416) 555-0123"], 0, 0, 0), ScanState(["Mike Johnson"], ["987654321"], ["(416) 555-0123"], 18, 0, 0));
  }

  lemma ScanThrough8()
    ensures Scan(TextLines[..8]) == ScanState(["Mike Johnson"], ["987654321", "123456789"], ["(416) 555-0123"], 0, 13, 0)
  {
    ScanThrough7();
    assert TextLines[7] == SecondBlock[2] == L8;
    Step8();
    ScanNext(7, ScanState(["Mike Johnson"], ["987654321"], ["(416) 555-0123"], 18, 0, 0), ScanState(["Mike Johnson"], ["987654321", "123456789"], ["(416) 555-0123"], 0, 13, 0));
  }

  lemma ScanThrough9()
    ensures Scan(TextLines) == ScanState(["Mike Johnson"], ["987654321", "123456789"], ["(416) 555-0123", "(416) 555-9876"], 0, 0, 21)
  {
    ScanThrough8();
    assert TextLines[8] == SecondBlock[3] == L9;
    Step9();
    ScanNext(8, ScanState(["Mike Johnson"], ["987654321", "123456789"], ["(416) 555-0123"], 0, 13, 0), ScanState(["Mike Johnson"], ["987654321", "123456789"], ["(416) 555-0123", "(416) 555-9876"], 0, 0, 21));
    assert TextLines[..9] == TextLines;
  }

  /** The record the parser returns for the transcript: one name, two ids
      and two phones, all from tier 1; neither fallback fires. */
  lemma ParseTranscript()
    ensures Parse(Text()) == ParsedData(["Mike Johnson"], ["987654321", "123456789"],
                                        ["(416) 555-0123", "(416) 555-9876"], Text())
  {
    TextLinesOfText();
    ScanThrough9();
  }

  /** "Sarah Johnson" is lost: a name pattern created for the third line
      alone would capture it and it passes the check, but the shared one
      resumes at 19, where the match of "Student Information" ended, which
      is the whole length of "Name: Sarah Johnson", and finds nothing. */
  lemma SarahJohnsonLost()
    ensures TextLines[2] == L3 && |L3| == 19
    ensures ExecValue(NamePattern, L3, 0) == Some("Sarah Johnson") && IsAcceptedName("Sarah Johnson")
    ensures Scan(TextLines[..2]).nameIndex == 19
    ensures ExecValue(NamePattern, L3, Scan(TextLines[..2]).nameIndex).None?
  {
    assert TextLines[2] == FirstBlock[2] == L3;
    L3FreshNameValue();
    ScanThrough2();
    L3Exec();
  }
}
