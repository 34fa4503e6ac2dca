# HTTP quiz marking, modelled in Dafny

The page `script.js` belongs to an HTTP self-assessment site. When the quiz
form is submitted, a handler grades five questions against a fixed answer key:

- question 1 is free text, compared after trimming and lower-casing with `quic`;
- questions 2 to 4 are radio groups, compared by the exact id of the checked option (`B`, `C`, `B`);
- question 5 is a checkbox group, compared with `arraysEqualIgnoreOrder` against `['A', 'B', 'D']`.

For each question the handler adds one to `score` when the answer is right. It
renders one feedback block: whether the answer was right, the learner's answer
(option ids resolved to their label text by `getOptionLabel`, or a placeholder
when nothing was given), the correct answer and an explanation. At the end it
computes the percentage `score / 5 * 100` and the pass decision
`score / 5 >= 0.8`.

The model has five modules:

- `Wrappers`: `Option`, the page's `null` or a value.
- `Text`: `String.prototype.trim` with the exact ECMAScript white-space set,
  `toLowerCase` over ASCII, `Array.prototype.join`, and a splitter that reads
  a `"; "`-joined list back.
- `Ordering`: `arraysEqualIgnoreOrder` as the code does it (length test,
  copy-and-sort, compare by position), with an insertion sort under
  lexicographic order. Its meaning is proved: the result is multiset equality.
- `Form`: the DOM reads. A named group of inputs becomes a list of
  `Input(value, checked, labelText)` in document order. `getRadioValue` is a
  method with the source's loop and early return, proved against the function
  `FirstChecked`. `getCheckboxValues` and `getOptionLabel` are functions.
- `Quiz`: the answer key, the per-question verdicts, and the handler `Grade`.
  `Grade` is a straight-line method like the source: five blocks, each with
  `if correct { score := score + 1; }` and a push onto the feedback list. Its
  contract states the whole outcome in terms of the verdict functions. The
  lemmas beside it state what each verdict means.

The percentage and the pass test are computed on exact `real`s. For five
questions they agree with the integer forms `score * 20` and `score >= 4`
(`10 * score >= 8 * 5`).

Two consequences of the code that are easy to miss:

- `querySelectorAll('input[name="q5"]:checked')` returns the boxes in
  document order, not in the order they were clicked. `GetCheckboxValues`
  reads them in document order (`GetCheckboxValuesOne` and
  `GetCheckboxValuesAppend`), and the shown labels follow that order.
- `arraysEqualIgnoreOrder` compares sorted lists, so it is multiset equality
  and repetitions count (`RepetitionsCount`). It agrees with set equality
  whenever the option values are distinct.

Radio values are tested for truthiness before they are shown (`q2Value ? ... : '(no option selected)'`).
A checked option whose value is the empty string is therefore shown as the
placeholder. It is still compared with the key, and is wrong. `SingleVerdict` models exactly this.

## Model

| member | source | states |
|---|---|---|
| Text.Trim | script.js:43 | the trimmed string is no longer than the input and has no white space at either end |
| Text.TrimParts | script.js:43 | every string is its trim with a white-space prefix and a white-space suffix |
| Text.TrimCharacterization | script.js:43 | `Trim(s) == r` exactly when `r` has no white space at either end and `s` is `r` padded with white space on both sides |
| Text.TrimOfPadded | script.js:193 | trimming a string with no white space at its ends, padded with white space, gives that string back |
| Text.TrimIgnoresPadding | script.js:43 | extra white space around the input does not change its trim |
| Text.TrimEmptyIffBlank | script.js:43-44 | a string trims to the empty string exactly when it is all white space |
| Text.TrimIdempotent | script.js:193 | trimming twice is trimming once |
| Text.LowerChar | script.js:43 | capitals A-Z move to a-z by adding 32, every other character is kept, and the result is never a capital |
| Text.ToLower | script.js:43 | the result has the input's length, no capital A-Z is left in it, and each position holds the `LowerChar` of the character at that position of the input |
| Text.ToLowerTrimCommute | script.js:43 | lower-casing and trimming commute |
| Text.Join | script.js:100 | joining no elements gives the empty string, and joining one gives that element |
| Text.SplitJoin | script.js:100 | a non-empty list whose elements contain no `;`, joined with `"; "`, splits back into exactly that list in order |
| Ordering.Below | script.js:178-179 | the comparator of `.sort()`; no contract of its own: BelowReflexive, BelowAntisymmetric, BelowTransitive and BelowTotal make it a total order |
| Ordering.BelowTotal | script.js:178 | the sort order relates every two strings |
| Ordering.BelowTransitive | script.js:178 | the sort order is transitive |
| Ordering.BelowAntisymmetric | script.js:178 | two strings each below the other are equal |
| Ordering.InsertSorted | script.js:178 | inserting into a sorted list keeps it sorted |
| Ordering.Sort | script.js:178-179 | `[...a].sort()`: the sorted copy has the input's length; SortPermutes and SortSorts give its meaning |
| Ordering.SortPermutes | script.js:178-179 | sorting keeps every element with its multiplicity |
| Ordering.SortSorts | script.js:178-179 | the sorted copy is sorted |
| Ordering.SortedUnique | script.js:178-180 | two sorted lists with the same multiset are equal |
| Ordering.ArraysEqualIgnoreOrder | script.js:177 | lists of different lengths never match |
| Ordering.ArraysEqualIgnoreOrderIsPermutation | script.js:176-181 | the comparison is true exactly when the two lists are multiset-equal |
| Ordering.ArraysEqualIgnoreOrderSymmetric | script.js:176-181 | the comparison is symmetric |
| Ordering.ArraysEqualIgnoreOrderInvariant | script.js:176-181 | rearranging either list, or both, does not change the comparison |
| Ordering.ProperSubOrSupersetNeverMatches | script.js:176-181 | a proper sub-multiset or super-multiset never matches |
| Ordering.SameMembersDifferentCountsNeverMatch | script.js:176-181 | lists with the same members but different multiplicities do not match |
| Ordering.RepetitionsCount | script.js:176-181 | `[A, A, B]` and `[A, B, B]` have the same members and do not match, so the comparison is not set equality |
| Form.FirstChecked | script.js:152-158 | `None` exactly when no input is checked; otherwise the value of an input that is checked with none checked before it |
| Form.GetRadioValue | script.js:152-158 | the loop returns `FirstChecked` of the group: the first checked value in document order, or `None` |
| Form.GetCheckboxValues | script.js:165-168 | at most one value per input, and empty exactly when nothing is checked |
| Form.GetCheckboxValuesOne | script.js:165-168 | one input gives its value when it is checked and nothing otherwise |
| Form.GetCheckboxValuesAppend | script.js:165-168 | the values of two runs of inputs are those of the first run followed by those of the second, so the values come once per checked input, in document order |
| Form.GetCheckboxValuesMembers | script.js:165-168 | a value is read exactly when some checked input has it |
| Form.IndexOfValue | script.js:190 | the position of the first input with the value: none before it has the value, and it has it unless it is past the end |
| Form.GetOptionLabel | script.js:189-194 | the lookup never fails; with no input of that value it is the raw id; otherwise it is the raw id or the trimmed label text of an input with that value |
| Form.OptionLabelOfFirstMatch | script.js:189-194 | the first input with the value decides: its label text, trimmed, or the raw id when it has no label |
| Form.OptionLabels | script.js:100 | as many labels as ids, and the label at each position is the `GetOptionLabel` of the id at that position |
| Quiz.NormalizeText | script.js:43 | `.trim().toLowerCase()`: the result is no longer than the input, and it is empty exactly when the input is all white space |
| Quiz.TextVerdict | script.js:43-50 | question 1 is right exactly when the trimmed, lower-cased answer is the key; an answer of only white space is shown as `(no answer entered)` and, for a non-empty key, is wrong; any other answer is shown as its normalised text; for a non-empty key, a right answer is shown as the key itself |
| Quiz.TextVerdictIgnoresPadding | script.js:43-44 | white space around the typed answer changes neither the verdict nor what is shown |
| Quiz.TextVerdictIgnoresCase | script.js:43-44 | two answers that lower-case alike get the same verdict and are shown alike |
| Quiz.PaddedCapitalsAccepted | script.js:43-44 | `" QUIC "` is right and is shown as `quic` |
| Quiz.BlankTextIsUnanswered | script.js:43-50 | for a non-empty key, an answer of only white space is wrong and shown as `(no answer entered)` |
| Quiz.SingleVerdict | script.js:56-63 | no selection is wrong and shown as `(no option selected)`; a selection is right exactly when it is the key id; a selected empty value is shown as `(no option selected)` too; a non-empty selection is shown as its label |
| Quiz.MultiVerdict | script.js:95-101 | right exactly when `arraysEqualIgnoreOrder` holds, that is, exactly when the selection is the key rearranged (the same multiset); nothing selected is shown as `(no options selected)`; otherwise the labels of the selection in reading order joined by `"; "` |
| Quiz.MultiVerdictListsSelectedLabels | script.js:99-101 | for a non-empty selection none of whose labels contains `;`, the shown answer splits back into the selection's labels, in reading order |
| Quiz.ShownMulti | script.js:103-105 | `correctQ5Label`, the key's labels joined by `"; "`; no contract of its own: ShownMultiListsKeyLabels gives its meaning |
| Quiz.ShownMultiListsKeyLabels | script.js:103-105 | for a non-empty key none of whose labels contains `;`, the shown correct answer splits back into the key's labels, in key order |
| Quiz.ReorderedKeyMatches | script.js:96 | `[D, A, B]` matches the key `[A, B, D]` |
| Quiz.PartialKeyFails | script.js:96 | the subset `[A, B]` and the superset `[A, B, D, C]` do not match |
| Quiz.WrongOptionFails | script.js:96 | `[A, B, C]` does not match |
| Quiz.Answer1 | script.js:43-50 | the verdict Grade records for question 1, the TextVerdict of the typed text against `quic`; no contract of its own |
| Quiz.Answer2 | script.js:56-63 | the verdict for question 2, the SingleVerdict of the first checked q2 option against `B`; no contract of its own |
| Quiz.Answer3 | script.js:69-76 | the verdict for question 3, the SingleVerdict of the first checked q3 option against `C`; no contract of its own |
| Quiz.Answer4 | script.js:82-89 | the verdict for question 4, the SingleVerdict of the first checked q4 option against `B`; no contract of its own |
| Quiz.Answer5 | script.js:95-101 | the verdict for question 5, the MultiVerdict of the checked q5 values against `[A, B, D]`; no contract of its own |
| Quiz.CountCorrect | script.js:45-97 | a count of correct blocks is at most the number of blocks |
| Quiz.CountCorrectOfFive | script.js:45-97 | five blocks count the sum of their points |
| Quiz.CountCorrectExtremes | script.js:45-97 | full marks exactly when every block is correct, zero exactly when none is |
| Quiz.PassedIffFourCorrect | script.js:117 | `score / 5 >= 0.8` exactly when `10 * score >= 8 * 5`, i.e. when `score >= 4` |
| Quiz.PercentageIsWhole | script.js:116 | `score / 5 * 100` is exactly `score * 20` |
| Quiz.PercentageExamples | script.js:116 | scores 4, 3, 5 and 0 give 80, 60, 100 and 0 per cent |
| Quiz.Grade | script.js:39-117 | five blocks in question order, each with the verdict of its question, the shown answers and the explanation; the score is the number of right verdicts, at most 5; the percentage is `score * 20`; passed exactly when `score >= 4` |
| Quiz.KeyFormAllCorrect | script.js:24-30 | a form answered with the key, with padding and capitals in question 1, has all five verdicts right |
| Quiz.GradeKeyAnswers | script.js:39-117 | that form scores 5 out of 5, 100 per cent, and passes |
| Quiz.UnansweredFormPlaceholders | script.js:43-101 | a form with only white space typed and nothing checked has every verdict wrong, and every shown answer is the placeholder of its kind |
| Quiz.GradeUnanswered | script.js:39-117 | such a form scores 0, 0 per cent, and fails |
| Quiz.GradeTwice | script.js:39-117 | grading depends on the form alone: the same form gives the same outcome |
| Quiz.GradeAndCount | script.js:39-117 | the reported score is the number of feedback blocks marked correct |

## Left out

- DOM access (`getElementById`, `querySelectorAll`, `querySelector`, `closest`, `textContent`, `.checked`) is not modelled. Each group is an argument: a list of inputs with their value, checked state and label text.
- The attribute selectors are built by pasting the value into `[value="..."]`. A value containing `"` or `\` would break that selector; the model assumes values are matched literally.
- `buildFeedback` and the results HTML (script.js:120-137, 206-222) are presentation only. The model stops at the fields passed to `buildFeedback`, and the pass/fail banner and score line are not modelled.
- Event wiring, `preventDefault`, the reset handler and the check for missing elements (script.js:13-21, 36-37, 141-145) are left out: they contain no grading logic.
- Floating point is left out. The percentage and the pass test are exact `real`s. `toFixed(0)` and `Math.round` for display are not modelled.
- Text.LowerChar: lowers only the ASCII capitals A-Z. `toLowerCase` also lowers the other cased letters.
- Text.ToLower: `Text.LowerChar`, the character map it applies, covers only the ASCII capitals. `toLowerCase` also lower-cases non-ASCII letters, and some of them to more than one character. An answer with such capitals is compared and shown with them unchanged in the model.
- Ordering.Below: compares characters by code point. `Array.prototype.sort` compares UTF-16 code units, which orders some characters differently. The verdict does not depend on this: the proof of `ArraysEqualIgnoreOrderIsPermutation` uses only that `Below` is total, antisymmetric and transitive, and UTF-16 code-unit order is all three.
