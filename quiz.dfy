/**
 The quiz of the HTTP self-assessment page: the submit handler that
 checks five answers against a fixed key, counts the correct ones, and
 decides pass or fail against a pass mark of 80%.
 */
module Quiz {
  import opened Wrappers
  import opened Text
  import opened Ordering
  import opened Form

  // The answer key.
  const KeyQ1: string := "quic"
  const KeyQ2: string := "B"
  const KeyQ3: string := "C"
  const KeyQ4: string := "B"
  const KeyQ5: seq<string> := ["A", "B", "D"]

  const Total: nat := 5
  const PassMark: real := 0.8

  // What is shown in place of an answer that was not given.
  const NoAnswerEntered: string := "(no answer entered)"
  const NoOptionSelected: string := "(no option selected)"
  const NoOptionsSelected: string := "(no options selected)"

  /** Between the labels of a multi-select answer. */
  const Separator: string := "; "

  // The correct answers as shown for questions 1 to 4.
  const ShownQ1: string := "QUIC"
  const ShownQ2: string := "B. A stateless, application-layer protocol for client\U{2013}server communication"
  const ShownQ3: string := "C. HTTP/1.1"
  const ShownQ4: string := "B. Binary framing + multiplexed streams on a single TCP connection"

  const ExplainQ1: string := "HTTP/3 maps HTTP onto QUIC, a UDP-based transport that reduces head-of-line blocking."
  const ExplainQ2: string := "HTTP defines how clients and servers exchange requests and responses over the web."
  const ExplainQ3: string := "HTTP/1.1 introduced persistent connections and chunked transfer encoding."
  const ExplainQ4: string := "HTTP/2 keeps HTTP semantics but adds a binary framing layer for multiplexing and header compression."
  const ExplainQ5: string := "HTTP/3 over QUIC uses UDP, avoids TCP head-of-line blocking, and supports faster 0-RTT/1-RTT setup."

  /** Whether one answer is right, and the answer as it is shown back. */
  datatype Verdict = Verdict(correct: bool, userAnswer: string)

  /** The fields the handler passes to `buildFeedback` for one question. */
  datatype Feedback = Feedback(number: nat, correct: bool, userAnswer: string, correctAnswer: string, explanation: string)

  /** The form as the handler reads it: the text typed for question 1 and the
      input groups named q2 to q5. */
  datatype Submission = Submission(q1: string, q2: seq<Input>, q3: seq<Input>, q4: seq<Input>, q5: seq<Input>)

  datatype Outcome = Outcome(score: nat, total: nat, percentage: real, passed: bool, feedback: seq<Feedback>)

  /** The free-text answer after trimming and lower-casing. */
  function NormalizeText(raw: string): (r: string)
    ensures |r| <= |raw|
    ensures r == [] <==> AllWhiteSpace(raw)
  {
    TrimEmptyIffBlank(raw);
    ToLower(Trim(raw))
  }

  /** Question 1: the normalized text must equal the key; an empty answer
      is shown as a placeholder. */
  function TextVerdict(raw: string, key: string): (v: Verdict)
    ensures v.correct <==> NormalizeText(raw) == key
    ensures AllWhiteSpace(raw) ==> v.userAnswer == NoAnswerEntered
    ensures AllWhiteSpace(raw) && key != "" ==> !v.correct
    ensures !AllWhiteSpace(raw) ==> v.userAnswer == NormalizeText(raw)
    ensures v.correct && key != "" ==> v.userAnswer == key
  {
    TrimEmptyIffBlank(raw);
    var value := NormalizeText(raw);
    Verdict(value == key, if value != "" then value else NoAnswerEntered)
  }

  /** Questions 2 to 4: the selected id must equal the key's id exactly. A
      selection that is absent, or whose value is the empty string (the
      page's truthiness test), is shown as a placeholder. */
  function SingleVerdict(selected: Option<string>, key: string, group: seq<Input>): (v: Verdict)
    ensures selected.None? ==> !v.correct && v.userAnswer == NoOptionSelected
    ensures selected.Some? ==> (v.correct <==> selected.value == key)
    ensures selected == Some("") ==> v.userAnswer == NoOptionSelected
    ensures selected.Some? && selected.value != "" ==> v.userAnswer == GetOptionLabel(group, selected.value)
  {
    Verdict(selected == Some(key),
            if selected.Some? && selected.value != "" then GetOptionLabel(group, selected.value) else NoOptionSelected)
  }

  /** Question 5: the selected ids, sorted, must be the key's ids, sorted.
      The answer is shown as the labels of the selected ids, in the order
      they were read, joined by "; "; nothing selected is shown as a
      placeholder. */
  function MultiVerdict(selected: seq<string>, key: seq<string>, group: seq<Input>): (v: Verdict)
    ensures v.correct == ArraysEqualIgnoreOrder(selected, key)
    ensures v.correct <==> multiset(selected) == multiset(key)
    ensures selected == [] ==> v.userAnswer == NoOptionsSelected
    ensures selected != [] ==> v.userAnswer == Join(OptionLabels(group, selected), Separator)
  {
    ArraysEqualIgnoreOrderIsPermutation(selected, key);
    Verdict(ArraysEqualIgnoreOrder(selected, key),
            if |selected| > 0 then Join(OptionLabels(group, selected), Separator) else NoOptionsSelected)
  }

  /** The correct answer shown for question 5: the key's labels in key order. */
  function ShownMulti(key: seq<string>, group: seq<Input>): string {
    Join(OptionLabels(group, key), Separator)
  }

  /** No label of `ids` contains the separator's ';'. */
  predicate PlainLabels(group: seq<Input>, ids: seq<string>) {
    forall n :: 0 <= n < |ids| ==> Lacks(GetOptionLabel(group, ids[n]), ';')
  }

  /** The correct answer shown for question 5 is the list of the key's
      labels, one per key id, in key order, and nothing else. */
  lemma ShownMultiListsKeyLabels(key: seq<string>, group: seq<Input>)
    requires key != [] && PlainLabels(group, key)
    ensures SplitList(ShownMulti(key, group)) == OptionLabels(group, key)
  {
    SplitJoin(OptionLabels(group, key));
  }

  /** The answer shown for question 5 is the list of the labels of the
      selected ids, in the order they were read. */
  lemma MultiVerdictListsSelectedLabels(selected: seq<string>, key: seq<string>, group: seq<Input>)
    requires selected != [] && PlainLabels(group, selected)
    ensures SplitList(MultiVerdict(selected, key, group).userAnswer) == OptionLabels(group, selected)
  {
    SplitJoin(OptionLabels(group, selected));
  }

  /** White space typed around the answer to question 1 changes nothing. */
  lemma TextVerdictIgnoresPadding(a: string, s: string, b: string, key: string)
    requires AllWhiteSpace(a) && AllWhiteSpace(b)
    ensures TextVerdict(a + s + b, key) == TextVerdict(s, key)
  {
    TrimIgnoresPadding(a, s, b);
  }

  lemma NormalizeTextOfLower(s: string)
    ensures NormalizeText(ToLower(s)) == NormalizeText(s)
  {
    ToLowerTrimCommute(s);
    ToLowerIdempotent(Trim(s));
  }

  /** Neither does the case of the letters typed. */
  lemma TextVerdictIgnoresCase(s: string, t: string, key: string)
    requires ToLower(s) == ToLower(t)
    ensures TextVerdict(s, key) == TextVerdict(t, key)
  {
    NormalizeTextOfLower(s);
    NormalizeTextOfLower(t);
  }

  lemma TrimOfPaddedQuic()
    ensures Trim(" QUIC ") == "QUIC"
  {
    assert " QUIC " == " " + "QUIC" + " ";
    TrimOfPadded(" ", "QUIC", " ");
  }

  lemma LowerOfQuic()
    ensures ToLower("QUIC") == "quic"
  {
  }

  /** " QUIC " is accepted, and shown back as "quic". */
  lemma PaddedCapitalsAccepted()
    ensures TextVerdict(" QUIC ", KeyQ1) == Verdict(true, "quic")
  {
    TrimOfPaddedQuic();
    LowerOfQuic();
  }

  /** An answer of nothing but white space is wrong, and shown as the
      placeholder. */
  lemma BlankTextIsUnanswered(s: string, key: string)
    requires AllWhiteSpace(s) && key != []
    ensures TextVerdict(s, key) == Verdict(false, NoAnswerEntered)
  {
    assert s + [] + [] == s;
    TrimOfPadded(s, [], []);
  }

  /** The key of question 5 in another order matches. */
  lemma ReorderedKeyMatches()
    ensures ArraysEqualIgnoreOrder(["D", "A", "B"], KeyQ5)
  {
    assert multiset(["D", "A", "B"]) == multiset(KeyQ5);
    ArraysEqualIgnoreOrderIsPermutation(["D", "A", "B"], KeyQ5);
  }

  /** A proper subset or a proper superset of the key of question 5 does not match. */
  lemma PartialKeyFails()
    ensures !ArraysEqualIgnoreOrder(["A", "B"], KeyQ5)
    ensures !ArraysEqualIgnoreOrder(["A", "B", "D", "C"], KeyQ5)
  {
  }

  /** Nor does a wrong option in place of a right one. */
  lemma WrongOptionFails()
    ensures !ArraysEqualIgnoreOrder(["A", "B", "C"], KeyQ5)
  {
    assert "C" in multiset(["A", "B", "C"]);
    ArraysEqualIgnoreOrderIsPermutation(["A", "B", "C"], KeyQ5);
  }

  // The verdict the handler reaches for each question of a form.
  function Answer1(form: Submission): Verdict { TextVerdict(form.q1, KeyQ1) }
  function Answer2(form: Submission): Verdict { SingleVerdict(FirstChecked(form.q2), KeyQ2, form.q2) }
  function Answer3(form: Submission): Verdict { SingleVerdict(FirstChecked(form.q3), KeyQ3, form.q3) }
  function Answer4(form: Submission): Verdict { SingleVerdict(FirstChecked(form.q4), KeyQ4, form.q4) }
  function Answer5(form: Submission): Verdict { MultiVerdict(GetCheckboxValues(form.q5), KeyQ5, form.q5) }

  /** What one answer adds to the score. */
  function Point(correct: bool): nat {
    if correct then 1 else 0
  }

  /** The number of feedback blocks marked correct. */
  function CountCorrect(fs: seq<Feedback>): (n: nat)
    ensures n <= |fs|
  {
    if fs == [] then 0 else Point(fs[0].correct) + CountCorrect(fs[1..])
  }

  /** Five blocks score the sum of their points. */
  lemma CountCorrectOfFive(fs: seq<Feedback>)
    requires |fs| == 5
    ensures CountCorrect(fs)
         == Point(fs[0].correct) + Point(fs[1].correct) + Point(fs[2].correct) + Point(fs[3].correct) + Point(fs[4].correct)
  {
    var t1 := fs[1..];
    var t2 := t1[1..];
    var t3 := t2[1..];
    var t4 := t3[1..];
    assert t4[1..] == [];
    assert CountCorrect(t4) == Point(fs[4].correct);
    assert CountCorrect(t3) == Point(fs[3].correct) + CountCorrect(t4);
    assert CountCorrect(t2) == Point(fs[2].correct) + CountCorrect(t3);
    assert CountCorrect(t1) == Point(fs[1].correct) + CountCorrect(t2);
  }

  /** Full marks exactly when every block is correct, zero exactly when none is. */
  lemma {:induction false} CountCorrectExtremes(fs: seq<Feedback>)
    ensures CountCorrect(fs) == |fs| <==> forall i :: 0 <= i < |fs| ==> fs[i].correct
    ensures CountCorrect(fs) == 0 <==> forall i :: 0 <= i < |fs| ==> !fs[i].correct
  {
    if fs != [] {
      CountCorrectExtremes(fs[1..]);
      assert forall i :: 0 < i < |fs| ==> fs[i] == fs[1..][i - 1];
    }
  }

  /** The pass test on the exact fraction is the integer test
      `10 * score >= 8 * Total`, which for five questions means four right. */
  lemma PassedIffFourCorrect(score: nat)
    ensures (score as real / Total as real >= PassMark) <==> 10 * score >= 8 * Total
    ensures (score as real / Total as real >= PassMark) <==> score >= 4
  {
  }

  /** The percentage is a whole number for every score out of five. */
  lemma PercentageIsWhole(score: nat)
    ensures (score as real / Total as real) * 100.0 == (score * 20) as real
  {
  }

  /** The percentages of the scores 4, 3, 5 and 0: 80, 60, 100 and 0. */
  lemma PercentageExamples()
    ensures (4 as real / Total as real) * 100.0 == 80.0
    ensures (3 as real / Total as real) * 100.0 == 60.0
    ensures (5 as real / Total as real) * 100.0 == 100.0
    ensures (0 as real / Total as real) * 100.0 == 0.0
  {
  }

  lemma Push5(b1: Feedback, b2: Feedback, b3: Feedback, b4: Feedback, b5: Feedback)
    ensures [] + [b1] + [b2] + [b3] + [b4] + [b5] == [b1, b2, b3, b4, b5]
  {
  }

  /** The submit handler: grade the five questions in turn, adding one to
      the score for each correct answer and collecting one feedback block per
      question, then derive the percentage and the pass decision. */
  method Grade(form: Submission) returns (outcome: Outcome)
    ensures outcome.total == Total
    ensures outcome.feedback == [
      Feedback(1, Answer1(form).correct, Answer1(form).userAnswer, ShownQ1, ExplainQ1),
      Feedback(2, Answer2(form).correct, Answer2(form).userAnswer, ShownQ2, ExplainQ2),
      Feedback(3, Answer3(form).correct, Answer3(form).userAnswer, ShownQ3, ExplainQ3),
      Feedback(4, Answer4(form).correct, Answer4(form).userAnswer, ShownQ4, ExplainQ4),
      Feedback(5, Answer5(form).correct, Answer5(form).userAnswer, ShownMulti(KeyQ5, form.q5), ExplainQ5)]
    ensures outcome.score == Point(Answer1(form).correct) + Point(Answer2(form).correct)
                           + Point(Answer3(form).correct) + Point(Answer4(form).correct)
                           + Point(Answer5(form).correct)
    ensures outcome.score <= Total
    ensures outcome.percentage == (outcome.score * 20) as real
    ensures outcome.passed <==> outcome.score >= 4
  {
    var score: nat := 0;
    var feedbackBlocks: seq<Feedback> := [];

    // Question 1: free text.
    var q1 := TextVerdict(form.q1, KeyQ1);
    if q1.correct {
      score := score + 1;
    }
    var block1 := Feedback(1, q1.correct, q1.userAnswer, ShownQ1, ExplainQ1);
    feedbackBlocks := feedbackBlocks + [block1];

    // Questions 2 to 4: one option each.
    var q2Value := GetRadioValue(form.q2);
    var q2 := SingleVerdict(q2Value, KeyQ2, form.q2);
    if q2.correct {
      score := score + 1;
    }
    var block2 := Feedback(2, q2.correct, q2.userAnswer, ShownQ2, ExplainQ2);
    feedbackBlocks := feedbackBlocks + [block2];

    var q3Value := GetRadioValue(form.q3);
    var q3 := SingleVerdict(q3Value, KeyQ3, form.q3);
    if q3.correct {
      score := score + 1;
    }
    var block3 := Feedback(3, q3.correct, q3.userAnswer, ShownQ3, ExplainQ3);
    feedbackBlocks := feedbackBlocks + [block3];

    var q4Value := GetRadioValue(form.q4);
    var q4 := SingleVerdict(q4Value, KeyQ4, form.q4);
    if q4.correct {
      score := score + 1;
    }
    var block4 := Feedback(4, q4.correct, q4.userAnswer, ShownQ4, ExplainQ4);
    feedbackBlocks := feedbackBlocks + [block4];

    // Question 5: any number of options.
    var q5Values := GetCheckboxValues(form.q5);
    var q5 := MultiVerdict(q5Values, KeyQ5, form.q5);
    if q5.correct {
      score := score + 1;
    }
    var shownQ5 := ShownMulti(KeyQ5, form.q5);
    var block5 := Feedback(5, q5.correct, q5.userAnswer, shownQ5, ExplainQ5);
    feedbackBlocks := feedbackBlocks + [block5];
    Push5(block1, block2, block3, block4, block5);

    var percentage := (score as real / Total as real) * 100.0;
    var passed := score as real / Total as real >= PassMark;
    PassedIffFourCorrect(score);
    PercentageIsWhole(score);
    outcome := Outcome(score, Total, percentage, passed, feedbackBlocks);
  }

  /** A form answered exactly as the key asks, with white space and capitals
      in the typed answer and the options of question 5 in the page's order. */
  function KeyForm(): Submission {
    Submission(" QUIC ",
               [Input("A", false, None), Input("B", true, None)],
               [Input("B", false, None), Input("C", true, None)],
               [Input("A", false, None), Input("B", true, None)],
               [Input("A", true, None), Input("B", true, None), Input("C", false, None), Input("D", true, None)])
  }

  lemma KeyFormAllCorrect()
    ensures Answer1(KeyForm()).correct && Answer2(KeyForm()).correct && Answer3(KeyForm()).correct
    ensures Answer4(KeyForm()).correct && Answer5(KeyForm()).correct
  {
    PaddedCapitalsAccepted();
    KeyFormQ5Correct();
  }

  lemma KeyFormQ5Correct()
    ensures Answer5(KeyForm()).correct
  {
    assert GetCheckboxValues(KeyForm().q5) == KeyQ5;
  }

  /** The key's answers get full marks and pass. */
  method GradeKeyAnswers() returns (outcome: Outcome)
    ensures outcome.score == Total && outcome.percentage == 100.0 && outcome.passed
  {
    KeyFormAllCorrect();
    outcome := Grade(KeyForm());
  }

  /** A form left unanswered: nothing but white space typed, nothing checked. */
  predicate Unanswered(form: Submission) {
    AllWhiteSpace(form.q1) && NoneChecked(form.q2) && NoneChecked(form.q3) && NoneChecked(form.q4) && NoneChecked(form.q5)
  }

  lemma UnansweredFormPlaceholders(form: Submission)
    requires Unanswered(form)
    ensures Answer1(form) == Verdict(false, NoAnswerEntered)
    ensures Answer2(form) == Answer3(form) == Answer4(form) == Verdict(false, NoOptionSelected)
    ensures Answer5(form) == Verdict(false, NoOptionsSelected)
  {
  }

  /** An unanswered form scores nothing and fails. */
  method GradeUnanswered(form: Submission) returns (outcome: Outcome)
    requires Unanswered(form)
    ensures outcome.score == 0 && outcome.percentage == 0.0 && !outcome.passed
  {
    UnansweredFormPlaceholders(form);
    outcome := Grade(form);
  }

  /** Grading depends on the form alone: submitting the same answers again
      gives the same outcome. */
  method GradeTwice(form: Submission) returns (first: Outcome, second: Outcome)
    ensures first == second
  {
    first := Grade(form);
    second := Grade(form);
  }

  /** The score the handler reports is the number of its feedback blocks
      marked correct. */
  method GradeAndCount(form: Submission) returns (outcome: Outcome)
    ensures outcome.score == CountCorrect(outcome.feedback)
  {
    outcome := Grade(form);
    CountCorrectOfFive(outcome.feedback);
  }
}
