# Crowdmark document parser, modelled in Dafny

The browser extension reads an OCR transcript of a scanned Crowdmark
document and pulls out student names, student ids and phone numbers.
This project models the parser behind that:
`CrowdmarkProcessor.parseDocumentText` in `content-script.js`. It also
models `getCurrentDocumentNumber`, which reads the document number from
the page's query string.

The parser works in two tiers.

- Tier 1 splits the text on `\n`, trims each line and drops empty lines.
  It then runs three case-insensitive global regular expressions over
  each line, in priority order: name, then id, then phone.
  - The name pattern runs first. It claims the line only if its trimmed
    capture is longer than two characters and contains a space.
  - A rejected name falls through to the id pattern, and after that to
    the phone pattern.
  - A line adds at most one value, to one list.
- Tier 2 runs only for a list that tier 1 left empty: names, or ids. It
  takes the first five matches of a fallback pattern over the whole
  text. Phones have no fallback.

The three tier-1 regular expressions are literals that are evaluated once
per call and then reused for every line. `exec` on a global expression
reads and updates its `lastIndex`, so the search on one line starts where
the previous match of that expression ended. A failed search resets
`lastIndex` to 0. The model follows the code on this point: it does not
rescan each line from index 0. The transcript in `background.js` shows the consequence:

- `Student Information:` leaves the name expression at index 19.
- The next line, `Name: Sarah Johnson`, is exactly 19 characters long,
  so the name search on it fails and "Sarah Johnson" is never collected
  (`Transcript.SarahJohnsonLost`).

The files, one module each:

- `js_text.dfy` (`JsText`): the JavaScript string operations the parser
  relies on.
  - `\s` and `trim` share one whitespace class.
  - `split('\n')` and `join('\n')` are inverses of each other.
  - `.map(trim).filter(...)` is modelled as `TrimAndDropEmpty`.
- `regex.dfy` (`JsRegex`): the part of ECMAScript regular expressions
  that the five patterns use.
  - A backtracking matcher in JavaScript's order: greedy repetition,
    alternatives left to right, ASCII case folding for `i`. Folding ASCII
    only is exact here: without the `u` flag, ECMAScript never folds a
    character at or above U+0080 to one below it, and every letter the
    five patterns mention is ASCII.
  - `exec` with its `lastIndex` rule, and a class `RegExp` that holds
    `lastIndex` as a mutable field.
  - `String.prototype.match` with the `g` flag.
  - Soundness and completeness of the matcher against a declarative
    acceptance relation.
- `patterns.dfy` (`Patterns`): the five patterns of
  content-script.js:477-490, and what their matches look like.
- `parser.dfy` (`DocumentParser`): the parser, in two forms.
  - The imperative form: a `for` loop whose three `RegExp` objects hold
    their `lastIndex` across lines.
  - A functional scan (`Step`, `Scan`, `Parse`), which the loop is
    proved equal to.
  - Lemmas about that scan.
- `document_number.dfy` (`DocumentNumber`): `parseInt(num) || 1`.
- `transcript.dfy` (`Transcript`): the simulated OCR text of
  background.js:47-58 for document 1, with its parse computed exactly.
- `worked_examples.dfy` (`WorkedExamples`): two short texts with their
  parses computed exactly. In `Student: Jane Doe\nID: 12345678` both
  values come from tier 1. In `Jane Doe\n12345678` tier 1 finds nothing
  and both come from the fallbacks.

## Model

| member | source | states |
|---|---|---|
| DocumentParser.ParseDocumentText | content-script.js:465-536 | the result is the functional parse of the text, and the raw text is returned with it |
| DocumentParser.Parse | content-script.js:465-536 | the functional parse: tier-1 scan of the lines, then the fallbacks. Its properties are stated by `ParseNames`, `ParseIds`, `ParsePhones`, `NameFallbackFires`, `IdFallbackFires` and `ParseEmpty`, and `ParseDocumentText` is proved equal to it |
| DocumentParser.ParseEmpty | content-script.js:465-536 | the empty text parses to empty names, ids and phones, with `rawText` the empty string |
| DocumentParser.Step | content-script.js:497-516 | one iteration of the tier-1 loop. Its properties are stated by `StepAddsAtMostOne`, `StepPriority`, `StepIndices` and `StepShapes` |
| DocumentParser.Scan | content-script.js:493-517 | the tier-1 loop over the lines from fresh expressions. Its properties are stated by `ScanAtMostOnePerLine`, `ScanExtends` and `ScanShapes`, and `ScanLines` is proved equal to it |
| DocumentParser.WithFallbacks | content-script.js:520-532 | the two fallbacks, applied to a tier-1 result. Their properties are stated by `ParseNames`, `ParseIds`, `NameFallbackFires` and `IdFallbackFires` |
| DocumentParser.ScanLines | content-script.js:493-517 | the loop over the lines, with three `RegExp` objects shared across lines and `continue` after each push, collects exactly the lists of the functional scan |
| DocumentParser.FirstFive | content-script.js:523 | `slice(0, 5)` keeps a prefix of the matches of length exactly min(n, 5), where n is the number of matches |
| DocumentParser.StepAddsAtMostOne | content-script.js:497-516 | one line never removes or changes collected values, and it adds at most one value to one list |
| DocumentParser.StepPriority | content-script.js:497-516 | a line gives a name exactly when the name capture passes the length-and-space check; otherwise, including after a rejected name, it gives an id exactly when the id pattern matches; otherwise a phone exactly when the phone pattern matches; each value pushed is the trimmed capture |
| DocumentParser.StepIndices | content-script.js:497-516 | each expression's `lastIndex` moves as `exec` moves it, and only when the expression is consulted: name on every line, id unless a name claims the line, phone unless a name or an id does. This restates the index updates of `Step`; `ScanLines`, which drives real `RegExp` objects through `RegExp.Exec`, confirms the same behaviour independently |
| DocumentParser.ScanAtMostOnePerLine | content-script.js:493-517 | the scan collects no more values than there are lines |
| DocumentParser.ScanExtends | content-script.js:493-517 | scanning more lines only appends to each list, so values appear in line order |
| DocumentParser.NameValueShape | content-script.js:497-503 | a name that passes the check is trimmed, at most 30 characters, all letters and whitespace, longer than two characters and contains a space |
| DocumentParser.IdValueShape | content-script.js:506-510 | an id is 6 to 12 ASCII digits |
| DocumentParser.PhoneValueShape | content-script.js:512-516 | a phone is trimmed, at most 20 characters, made of digits, parentheses, hyphens and whitespace |
| DocumentParser.StepShapes | content-script.js:497-516 | a step keeps every collected value in its field's shape |
| DocumentParser.ScanShapes | content-script.js:493-517 | every value the scan collects has its field's shape |
| DocumentParser.ParseNames | content-script.js:520-525 | tier-1 names are kept when there are any; otherwise names are the first min(5, n) successive fallback matches over the whole text, each two capitalised words followed by whitespace or the end of the text |
| DocumentParser.ParseIds | content-script.js:527-532 | tier-1 ids are kept when there are any; otherwise ids are the first min(5, n) fallback matches, each a run of 8 to 12 digits with no letter, digit or `_` on either side |
| DocumentParser.NameFallbackFires | content-script.js:520-525 | when tier 1 finds no name and the name fallback matches anywhere in the text, the names are not empty: the first is the text of the leftmost fallback match, which starts no later than that match |
| DocumentParser.IdFallbackFires | content-script.js:527-532 | when tier 1 finds no id and the id fallback matches anywhere in the text, the ids are not empty: the first is the text of the leftmost fallback match, which starts no later than that match |
| DocumentParser.ParsePhones | content-script.js:512-515 | phones come from tier 1 only, and `rawText` is the input text |
| JsText.Trim | content-script.js:468 | `trim` removes exactly the leading and trailing whitespace: the result is trimmed, is a substring of the input, and everything removed is whitespace |
| JsText.TrimAndDropEmpty | content-script.js:468 | `.map(line => line.trim()).filter(line => line)`. Its properties are stated by `TrimAndDropEmptyLines`, `TrimAndDropEmptyNone` and `TrimAndDropEmptyAppend` |
| JsText.Lines | content-script.js:468 | the lines the tier-1 loop visits: `Split`, then `TrimAndDropEmpty` |
| JsText.TrimEmptyIffBlank | content-script.js:468 | a line trims to the empty string exactly when it is all whitespace |
| JsText.TrimKeepsClass | content-script.js:499-514 | trimming keeps a string inside any character class it was drawn from, and never lengthens it |
| JsText.Split | content-script.js:468 | `split('\n')` gives at least one piece, and no piece contains a newline |
| JsText.JoinSplit | content-script.js:468 | joining the pieces of `split('\n')` with newlines gives the text back |
| JsText.SplitJoin | content-script.js:468 | pieces without newlines are exactly what `split` recovers from their join |
| JsText.TrimAndDropEmptyLines | content-script.js:468 | every line kept is non-empty and trimmed, and there are no more lines than pieces |
| JsText.TrimAndDropEmptyNone | content-script.js:468 | no line is kept exactly when every piece is blank |
| JsText.TrimAndDropEmptyAppend | content-script.js:468 | lines are kept or dropped one piece at a time, so the filter distributes over concatenation |
| JsRegex.RegExp.constructor | content-script.js:477-490 | a regular-expression literal starts with `lastIndex` 0 |
| JsRegex.RegExp.Exec | content-script.js:497-512 | `exec` returns what the search from the old `lastIndex` finds, and sets `lastIndex` to the end of that match, or to 0 on failure |
| JsRegex.ExecSpec | content-script.js:497-512 | past the end of the line `exec` fails; a failure means no match at any position from `lastIndex` on and resets `lastIndex`; a success is a real match at its start, with none earlier, and moves `lastIndex` to its end |
| JsRegex.ExecFrom | content-script.js:497-512 | `exec` on a global expression: a found match starts at or after `lastIndex` and ends inside the string. `ExecSpec` states the rest |
| JsRegex.SearchFrom | content-script.js:497-512 | the search from a position: a found match starts at or after it and ends inside the string. `SearchFromLeftmost` states that it is the leftmost |
| JsRegex.SearchFromLeftmost | content-script.js:497-512 | the search returns the leftmost position from which the pattern matches |
| JsRegex.MatchSound | content-script.js:477-490 | whatever the backtracking matcher returns is accepted by the declarative reading of the pattern |
| JsRegex.Match | content-script.js:477-490 | the backtracking matcher: a match found from `i` ends between `i` and the end of the string. `MatchSound` and `MatchComplete` relate it to the declarative `Accepts` |
| JsRegex.MatchAt | content-script.js:477-490 | the first match of a whole pattern at one position. `MatchSound`, `MatchComplete`, `NameAltShape` and `IdAltShape` state what it finds |
| JsRegex.MatchComplete | content-script.js:477-490 | whenever the declarative reading accepts some match from a position, the matcher finds one there |
| JsRegex.MatchAllSpec | content-script.js:521-528 | `match` with the `g` flag returns successive, non-overlapping matches, each the first match at its start, and passes none over: no match starts before the first entry, between the resume point after one entry and the next entry, or after the resume point of the last; an empty result means the pattern matches nowhere |
| JsRegex.MatchAllFrom | content-script.js:521-528 | `match` with the `g` flag from a given `lastIndex`: every entry lies inside the string. `MatchAllSpec` states the rest |
| JsRegex.MatchAll | content-script.js:521-528 | `text.match(re)` for a global `re`, with `null` as the empty list: every entry lies inside the string. `MatchAllSpec` states the rest |
| JsRegex.MatchAllSuccessive | content-script.js:521-528 | the entries `match` returns are matches in order, without overlap, each the first match at its start |
| JsRegex.MatchAllNoneMissed | content-script.js:521-528 | no match is passed over: none before the first entry, in a gap between entries, or after the last, and none at all when the result is empty |
| JsRegex.MatchTexts | content-script.js:521-528 | `match` returns one string per match, each the matched text |
| JsRegex.WordAtPrefix | content-script.js:479-485 | proof helper: where a label word occurs, every prefix of it occurs too |
| Patterns.Tier1GroupBounds | content-script.js:479-485 | for the three tier-1 patterns, `match[1]` lies inside the match and runs to its end |
| Patterns.NameGroup | content-script.js:479 | the name capture is 2 to 30 letters and whitespace |
| Patterns.IdGroup | content-script.js:482 | the id capture is 6 to 12 digits |
| Patterns.PhoneGroup | content-script.js:485 | the phone capture is 10 to 20 digits, parentheses, hyphens and whitespace |
| Patterns.NameAltShape | content-script.js:488 | a match of the name fallback is an upper-case letter and lower-case letters, whitespace, then another such word, followed by whitespace or the end of the text |
| Patterns.IdAltShape | content-script.js:489 | a match of the id fallback is a run of 8 to 12 digits with no word character on either side |
| Patterns.NoLabelNoMatch | content-script.js:479-485 | a tier-1 pattern cannot match at a position where none of its three label words occurs |
| Patterns.NoLabelSearch | content-script.js:479-485 | a search finds nothing on a stretch where no label word occurs |
| Patterns.LabelHit | content-script.js:479-485 | at a position where a bare label word occurs and no earlier alternative's word does, the pattern matches through that word, the longest run of spaces, an optional colon, the longest run of spaces and the longest run of its field class (up to its bound); group 1 starts at that run |
| Patterns.StudentWithoutId | content-script.js:482 | `student` with no `id` after any of its spaces, and neither `id` nor `number` at the same position, does not match the id pattern there |
| Patterns.StudentIdHit | content-script.js:482 | `student`, spaces, `id`, a separator and a digit run match the id pattern through its second alternative |
| DocumentNumber.GetCurrentDocumentNumber | content-script.js:451-454 | the result is never 0; an absent parameter gives 1; a non-zero `parseInt` result is returned as is; `NaN` and 0 give 1 |
| DocumentNumber.ParseInt | content-script.js:453 | `parseInt` with no radix: leading whitespace skipped, an optional sign, `0x`/`0X` for base 16, then the longest digit run, or `NaN` when there is no digit. Its properties are stated by `ParseIntDecimal`, `ParseIntNegative`, `ParseIntHex`, `ParseIntPlus` and `ParseIntNoDigit` |
| DocumentNumber.ParseIntDecimal | content-script.js:453 | `parseInt` reads back the decimal numeral of any natural number, after any leading whitespace and before anything that ends the numeral |
| DocumentNumber.ParseIntNegative | content-script.js:453 | the same after a minus sign gives the negated number |
| DocumentNumber.ParseIntHex | content-script.js:453 | `parseInt` reads `0x1A`, `0x1a`, `0X1A` and `0X1a` as 26: a `0x` or `0X` prefix switches to base 16, and hex digits are read in either letter case |
| DocumentNumber.ParseIntPlus | content-script.js:453 | `parseInt("+7")` gives 7: a plus sign is accepted and dropped |
| DocumentNumber.ParseIntNoDigit | content-script.js:453 | text that starts with a character that is not whitespace, a sign or a digit parses as `NaN` |
| DocumentNumber.DocumentNumberOfDecimal | content-script.js:451-454 | a positive decimal numeral, possibly followed by non-digit text, is the document number |
| DocumentNumber.DocumentSeven | content-script.js:451-454 | `?num=7` opens document 7 |
| DocumentNumber.DocumentTwelve | content-script.js:451-454 | `?num=12abc` opens document 12 |
| DocumentNumber.DocumentOneForText | content-script.js:451-454 | any `num` whose first character is not whitespace, a sign or a digit opens document 1 |
| DocumentNumber.DocumentOneForZero | content-script.js:451-454 | `?num=0` opens document 1, because 0 is falsy |
| Transcript.TextLinesOfText | background.js:47-58 | the parser sees exactly the nine non-blank lines of the simulated transcript, trimmed |
| Transcript.ParseTranscript | background.js:47-58 | the transcript parses to names ["Mike Johnson"], ids ["987654321", "123456789"] and phones ["(416) 555-0123", "(416) 555-9876"], all from tier 1 |
| Transcript.SarahJohnsonLost | content-script.js:493-503 | the name expression alone would capture "Sarah Johnson" on the third line, and that name passes the check; but the shared expression resumes at 19, the full length of that line, and finds nothing |
| Transcript.NamesRejected | content-script.js:500 | the name captures "Information" and "ID" fail the length-and-space check, so those lines fall through to the id pattern |
| WorkedExamples.ParseTagged | content-script.js:465-536 | `Student: Jane Doe\nID: 12345678` parses to names ["Jane Doe"] and ids ["12345678"], both from tier 1, with no phones |
| WorkedExamples.ParseBare | content-script.js:465-536 | `Jane Doe\n12345678` parses to names ["Jane Doe"] and ids ["12345678"]: tier 1 finds nothing on either line, so both come from the fallbacks |
| WorkedExamples.TwoWordsHit | content-script.js:488 | proof helper: a capital, the longest run of lower-case letters, the longest run of whitespace and another such word, followed by whitespace or the end, is a match of the name fallback ending after the second word |
| WorkedExamples.DigitsHit | content-script.js:489 | proof helper: the longest run of 8 to 12 digits with a word boundary at both ends is a match of the id fallback |
| WorkedExamples.SearchPast | content-script.js:521-528 | proof helper: the search passes over positions where the pattern does not match |

## Left out

- Strings are sequences of Unicode scalar values. JavaScript indexes UTF-16 code units, so a supplementary-plane character is one position in the model and two in the browser.
- DocumentNumber.ParseInt: the value is an exact integer. The rounding of `Number` above 2^53 is not modelled.
- DocumentNumber.GetCurrentDocumentNumber: takes the already-decoded value of the `num` parameter, or `None` when it is absent. `URLSearchParams` decoding of `window.location.search` is not modelled.
- `console.log` calls (content-script.js, lines 466 and 534) are output only and are left out.
- The `SnippingTool` class, the DOM, image and `chrome.runtime` methods of `CrowdmarkProcessor`, and the `isProcessing` flag are left out. They are I/O and UI around the parser.
- `popup.js`, the message routing of `background.js` and `server.py` are not part of this model. Of `background.js` only the simulated transcript text is used.
- The regular-expression engine covers only the constructs the five patterns use: literal characters, greedy bounded repetition of a character class, one top-level alternation, the start of group 1, `\b` and `(?=\s|$)`. Group 1 always ends where the whole match ends in these patterns, so only its start is recorded.
