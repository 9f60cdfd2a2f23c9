/** The static question table of the quiz page.

    The questions are fixed at load time and never change. Their Russian wording
    is not reproduced here: the question, option and explanation texts are short
    labels, since no operation of the page looks inside them.
 */
module QuizData {

  /** One multiple-choice question: `correct` is the index of the right option. */
  datatype Question = Question(
    id: nat,
    question: string,
    options: seq<string>,
    correct: nat,
    explanation: string)

  /** A question whose correct index names one of its own options. */
  predicate WellFormed(q: Question) {
    q.correct < |q.options|
  }

  /** The five questions of the test, in display order. */
  const TestQuestions: seq<Question> := [
    Question(1, "Q1", ["Q1.0", "Q1.1", "Q1.2", "Q1.3"], 1, "E1"),
    Question(2, "Q2", ["Q2.0", "Q2.1", "Q2.2", "Q2.3"], 1, "E2"),
    Question(3, "Q3", ["Q3.0", "Q3.1", "Q3.2", "Q3.3"], 1, "E3"),
    Question(4, "Q4", ["Q4.0", "Q4.1", "Q4.2", "Q4.3"], 1, "E4"),
    Question(5, "Q5", ["Q5.0", "Q5.1", "Q5.2", "Q5.3"], 2, "E5")
  ]

  /** The number of questions, which the page shows as the total. */
  const QuestionCount: nat := |TestQuestions|

  /** The table has five questions, each with four options, numbered from 1 in
      order, and every correct index names an existing option. */
  lemma TestQuestionsWellFormed()
    ensures QuestionCount == 5
    ensures forall i :: 0 <= i < |TestQuestions| ==>
      && TestQuestions[i].id == i + 1
      && |TestQuestions[i].options| == 4
      && WellFormed(TestQuestions[i])
  {
  }
}
