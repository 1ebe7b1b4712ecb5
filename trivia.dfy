/** The quiz's question data and the pure computations over it: turning the trivia
    service's results into displayed questions, scoring, the labels of the warning
    screen and the choice of navigation buttons on a question card. */
module Trivia {
  import opened JsText

  /** Every quiz holds ten questions; the last one is at index 9. */
  const QuizLength: nat := 10
  const LastIndex: nat := QuizLength - 1

  /** One result of the trivia service, as kept in the user's `data`. */
  datatype RawQuestion = RawQuestion(question: string, correctAnswer: string, incorrectAnswers: seq<string>)

  /** A question as the quiz shows it: its text and its answers in display order. */
  datatype Question = Question(questionText: string, allAnswers: seq<string>)

  /** The answers a question offers: the incorrect ones and the correct one. */
  function AnswerPool(q: RawQuestion): multiset<string> {
    multiset(q.incorrectAnswers) + multiset{q.correctAnswer}
  }

  /** Sorting with a comparator that returns a random sign: the outcome is some
      reordering, decided here by `picks` (the random draws), of which the model
      promises only that it is a permutation. Each step moves the element at
      `picks[0]` (modulo the remaining length) to the front. */
  function Shuffle<T>(xs: seq<T>, picks: seq<nat>): (r: seq<T>)
    ensures |r| == |xs| && multiset(r) == multiset(xs)
    decreases |xs|
  {
    if xs == [] then []
    else
      var k := if picks == [] then 0 else picks[0] % |xs|;
      var rest := xs[..k] + xs[k + 1..];
      assert xs == xs[..k] + [xs[k]] + xs[k + 1..];
      [xs[k]] + Shuffle(rest, if picks == [] then [] else picks[1..])
  }

  /** One question prepared for display: the same text, and its answers are exactly
      the incorrect answers plus the correct one, in some order. */
  function Prepare(q: RawQuestion, picks: seq<nat>): (p: Question)
    ensures p.questionText == q.question
    ensures multiset(p.allAnswers) == AnswerPool(q)
  {
    Question(q.question, Shuffle(q.incorrectAnswers + [q.correctAnswer], picks))
  }

  /** `questions` was prepared from `data`, question by question. */
  predicate PreparedFrom(questions: seq<Question>, data: seq<RawQuestion>) {
    |questions| == |data| &&
    forall i :: 0 <= i < |questions| ==>
      questions[i].questionText == data[i].question &&
      multiset(questions[i].allAnswers) == AnswerPool(data[i])
  }

  /** The random draws used for the `i`-th question (none when `order` is short). */
  function PicksFor(order: seq<seq<nat>>, i: nat): seq<nat> {
    if i < |order| then order[i] else []
  }

  /** `prepareQuestions`: every fetched question mapped to its displayed form. */
  function PrepareQuestions(data: seq<RawQuestion>, order: seq<seq<nat>>): (questions: seq<Question>)
    ensures PreparedFrom(questions, data)
  {
    seq(|data|, i requires 0 <= i < |data| => Prepare(data[i], PicksFor(order, i)))
  }

  /** The correct answer is always among the answers offered for it. */
  lemma CorrectAnswerOffered(questions: seq<Question>, data: seq<RawQuestion>, i: nat)
    requires PreparedFrom(questions, data) && i < |data|
    ensures data[i].correctAnswer in questions[i].allAnswers
  {
    assert data[i].correctAnswer in AnswerPool(data[i]);
    assert data[i].correctAnswer in multiset(questions[i].allAnswers);
  }

  /** Question `i` was answered with its correct answer. An index past the end of
      `answers` reads as `undefined` in the source, which equals no answer. */
  predicate AnsweredCorrectly(data: seq<RawQuestion>, answers: seq<string>, i: nat)
    requires i < |data|
  {
    i < |answers| && answers[i] == data[i].correctAnswer
  }

  /** The running total of the `reduce` after its first `n` steps. */
  function Tally(data: seq<RawQuestion>, answers: seq<string>, n: nat): (t: nat)
    requires n <= |data|
    ensures t <= n
  {
    if n == 0 then 0
    else Tally(data, answers, n - 1) + (if AnsweredCorrectly(data, answers, n - 1) then 1 else 0)
  }

  /** The score `showResult` computes: the `reduce` over all of `data`. */
  function Score(data: seq<RawQuestion>, answers: seq<string>): (s: nat)
    ensures s <= |data|
  {
    Tally(data, answers, |data|)
  }

  /** The indices below `n` that were answered correctly. */
  function CorrectBelow(data: seq<RawQuestion>, answers: seq<string>, n: nat): set<nat>
    requires n <= |data|
  {
    set i: nat | i < n && AnsweredCorrectly(data, answers, i)
  }

  lemma {:induction false} TallyCountsCorrect(data: seq<RawQuestion>, answers: seq<string>, n: nat)
    requires n <= |data|
    ensures Tally(data, answers, n) == |CorrectBelow(data, answers, n)|
  {
    if n > 0 {
      TallyCountsCorrect(data, answers, n - 1);
      var below := CorrectBelow(data, answers, n - 1);
      if AnsweredCorrectly(data, answers, n - 1) {
        assert CorrectBelow(data, answers, n) == below + {n - 1};
      } else {
        assert CorrectBelow(data, answers, n) == below;
      }
    }
  }

  /** The score is the number of questions whose chosen answer is the correct one. */
  lemma ScoreCountsCorrect(data: seq<RawQuestion>, answers: seq<string>)
    ensures Score(data, answers) == |CorrectBelow(data, answers, |data|)|
  {
    TallyCountsCorrect(data, answers, |data|);
  }

  lemma {:induction false} TallyFull(data: seq<RawQuestion>, answers: seq<string>, n: nat)
    requires n <= |data|
    ensures Tally(data, answers, n) == n <==> forall i :: 0 <= i < n ==> AnsweredCorrectly(data, answers, i)
  {
    if n > 0 {
      TallyFull(data, answers, n - 1);
    }
  }

  /** Full marks exactly when every question was answered correctly. */
  lemma FullMarks(data: seq<RawQuestion>, answers: seq<string>)
    ensures Score(data, answers) == |data| <==>
      forall i :: 0 <= i < |data| ==> AnsweredCorrectly(data, answers, i)
  {
    TallyFull(data, answers, |data|);
  }

  /** The label of a question on the warning screen: `split(" ")`, `slice(0, 4)`,
      `join(" ")`. It is the question text up to, and not including, its fourth
      space: a prefix of the text with at most three spaces, that is either the
      whole text or is followed by a space. */
  function SummaryLabel(text: string): (caption: string)
    ensures |caption| <= |text| && caption == text[..|caption|]
    ensures Spaces(caption) == if Spaces(text) < 3 then Spaces(text) else 3
    ensures |caption| == |text| || text[|caption|] == ' '
  {
    FirstWordsIsPrefix(text, 4);
    FirstWords(text, 4)
  }

  /** One button of the warning screen: its `data-ind`, its label and whether it is
      drawn as bookmarked. */
  datatype SummaryButton = SummaryButton(index: nat, caption: string, flagged: bool)

  /** The warning screen's buttons: one per question, in order, each carrying its own
      position as `data-ind`. A bookmark flag past the end of `marked` reads as
      `undefined`, which is not set. */
  function Summary(questions: seq<Question>, marked: seq<bool>): (buttons: seq<SummaryButton>)
    ensures |buttons| == |questions|
    ensures forall i :: 0 <= i < |buttons| ==>
      buttons[i].index == i &&
      buttons[i].caption == SummaryLabel(questions[i].questionText) &&
      buttons[i].flagged == (i < |marked| && marked[i])
  {
    seq(|questions|, i requires 0 <= i < |questions| =>
      SummaryButton(i, SummaryLabel(questions[i].questionText), i < |marked| && marked[i]))
  }

  /** The navigation controls of a question card, as `generateQuestionHTML` chooses
      them; `answered` is set when the card is drawn for reviewing answers. */
  datatype Controls = Controls(backHidden: bool, confirmLabel: string, confirmHidden: bool, centered: bool)

  function ControlsFor(index: nat, answered: bool): Controls {
    var hidden := index == 0;
    var isLast := index == LastIndex;
    var title := if isLast then "Submit" else "Next";
    var nextLabel := if answered then "Next" else title;
    Controls(hidden, nextLabel, isLast && answered, hidden || (isLast && answered))
  }
}
