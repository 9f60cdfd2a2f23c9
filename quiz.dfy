/** The quiz page's state machine.

    The page component keeps five pieces of state and changes them only through
    its event handlers. Each handler is one atomic transition here; the
    conditions under which the page renders a handler's button (and enables it)
    are the handler's preconditions.
 */
module Quiz {
  import opened QuizData
  import opened Scoring

  /** Which of the two top-level views is shown. */
  datatype View = Courses | Test

  /** The quiz's progress as the page presents it. */
  datatype Phase = NotStarted | InProgress(index: int) | Completed

  class QuizPage {
    var currentView: View
    var currentQuestion: int
    var selectedAnswers: map<nat, nat>
    var showResults: bool
    var testStarted: bool

    /** The state a reset leaves behind. */
    predicate Pristine()
      reads this
    {
      currentQuestion == 0 && selectedAnswers == map[] && !showResults
    }

    /** The invariant every transition keeps:
        - the current index names a question;
        - answers are recorded only for questions, and only options they offer;
        - every question before the current one is answered;
        - results are shown only for a started test, on its last question, with
          every question answered;
        - a test that is not started is pristine. */
    ghost predicate Valid()
      reads this
    {
      && 0 <= currentQuestion < |TestQuestions|
      && (forall i :: i in selectedAnswers ==>
            i < |TestQuestions| && selectedAnswers[i] < |TestQuestions[i].options|)
      && (forall i: nat :: i < currentQuestion ==> i in selectedAnswers)
      && (showResults ==>
            && testStarted
            && currentQuestion == |TestQuestions| - 1
            && forall i: nat :: i < |TestQuestions| ==> i in selectedAnswers)
      && (!testStarted ==> Pristine())
    }

    /** Which screen of the quiz view the state selects. */
    function CurrentPhase(): Phase
      reads this
    {
      if !testStarted then NotStarted
      else if showResults then Completed
      else InProgress(currentQuestion)
    }

    /** The page's initial state: the catalog view and an untouched quiz. */
    constructor ()
      ensures Valid()
      ensures currentView == Courses && CurrentPhase() == NotStarted && Pristine()
    {
      currentView := Courses;
      currentQuestion := 0;
      selectedAnswers := map[];
      showResults := false;
      testStarted := false;
    }

    /** Records option `answerIndex` for the current question, replacing any
        earlier choice for it. Options are offered only on the question screen,
        and only the indices of the current question's options. */
    method SelectAnswer(answerIndex: nat)
      requires Valid()
      requires currentView == Test && CurrentPhase() == InProgress(currentQuestion)
      requires answerIndex < |TestQuestions[currentQuestion].options|
      modifies this`selectedAnswers
      ensures Valid()
      ensures currentQuestion in selectedAnswers && selectedAnswers[currentQuestion] == answerIndex
      ensures selectedAnswers == old(selectedAnswers)[currentQuestion := answerIndex]
    {
      var newAnswers := selectedAnswers;
      newAnswers := newAnswers[currentQuestion := answerIndex];
      selectedAnswers := newAnswers;
    }

    /** Moves to the next question, or on the last question shows the results.
        The button is enabled only once the current question has an answer. */
    method Next()
      requires Valid()
      requires currentView == Test && CurrentPhase() == InProgress(currentQuestion)
      requires currentQuestion in selectedAnswers
      modifies this`currentQuestion, this`showResults
      ensures Valid()
      ensures old(currentQuestion) < |TestQuestions| - 1 ==>
        currentQuestion == old(currentQuestion) + 1 && CurrentPhase() == InProgress(currentQuestion)
      ensures old(currentQuestion) == |TestQuestions| - 1 ==>
        currentQuestion == old(currentQuestion) && CurrentPhase() == Completed
      ensures CurrentPhase() == Completed <==> old(currentQuestion) == |TestQuestions| - 1
    {
      if currentQuestion < |TestQuestions| - 1 {
        currentQuestion := currentQuestion + 1;
      } else {
        showResults := true;
      }
    }

    /** Moves back one question; on the first question nothing changes.
        Recorded answers are kept. */
    method Previous()
      requires Valid()
      requires currentView == Test && CurrentPhase() == InProgress(currentQuestion)
      modifies this`currentQuestion
      ensures Valid()
      ensures old(currentQuestion) > 0 ==> currentQuestion == old(currentQuestion) - 1
      ensures old(currentQuestion) == 0 ==> currentQuestion == 0
      ensures CurrentPhase() == InProgress(currentQuestion)
    {
      if currentQuestion > 0 {
        currentQuestion := currentQuestion - 1;
      }
    }

    /** Clears the quiz: first question, no answers, no results, not started.
        The view is left as it is. */
    method Reset()
      requires Valid()
      modifies this`currentQuestion, this`selectedAnswers, this`showResults, this`testStarted
      ensures Valid()
      ensures Pristine() && !testStarted && CurrentPhase() == NotStarted
    {
      currentQuestion := 0;
      selectedAnswers := map[];
      showResults := false;
      testStarted := false;
    }

    /** The start button of the quiz view's welcome screen. */
    method Start()
      requires Valid()
      requires currentView == Test && CurrentPhase() == NotStarted
      modifies this`testStarted
      ensures Valid()
      ensures CurrentPhase() == InProgress(0) && Pristine()
    {
      testStarted := true;
    }

    /** The header's catalog button: switches to the catalog and resets the quiz. */
    method ShowCatalog()
      requires Valid()
      modifies this
      ensures Valid()
      ensures currentView == Courses && Pristine() && CurrentPhase() == NotStarted
    {
      currentView := Courses;
      Reset();
    }

    /** The header's quiz button: switches the view and nothing else. */
    method ShowTest()
      requires Valid()
      modifies this`currentView
      ensures Valid()
      ensures currentView == Test
    {
      currentView := Test;
    }

    /** Counts the questions whose recorded answer is the correct one. */
    method CalculateScore() returns (correct: nat)
      ensures correct == Score(TestQuestions, selectedAnswers)
      ensures correct <= |TestQuestions|
    {
      correct := 0;
      var index := 0;
      while index < |TestQuestions|
        invariant index <= |TestQuestions|
        invariant correct == ScoreUpTo(TestQuestions, selectedAnswers, index)
      {
        var q := TestQuestions[index];
        if index in selectedAnswers && selectedAnswers[index] == q.correct {
          correct := correct + 1;
        }
        index := index + 1;
      }
    }
  }

  /** Taking the whole test with the correct option each time ends on the
      results screen with the full score and the green band. */
  method AllCorrectRun() returns (score: nat, color: ScoreColor, phase: Phase)
    ensures score == |TestQuestions| == 5
    ensures color == Green && phase == Completed
  {
    var page := new QuizPage();
    page.ShowTest();
    page.Start();
    var i := 0;
    while i < |TestQuestions|
      invariant 0 <= i <= |TestQuestions|
      invariant page.Valid() && page.currentView == Test
      invariant i < |TestQuestions| ==> page.CurrentPhase() == InProgress(i) && page.currentQuestion == i
      invariant i == |TestQuestions| ==> page.CurrentPhase() == Completed
      invariant forall j: nat :: j < i ==> IsCorrect(TestQuestions, page.selectedAnswers, j)
    {
      ghost var before := page.selectedAnswers;
      page.SelectAnswer(TestQuestions[i].correct);
      forall j: nat | j < i
        ensures IsCorrect(TestQuestions, page.selectedAnswers, j)
      {
        assert IsCorrect(TestQuestions, before, j);
      }
      page.Next();
      i := i + 1;
    }
    ScoreAllCorrect(TestQuestions, page.selectedAnswers);
    score := page.CalculateScore();
    color := GetScoreColor(score, |TestQuestions|);
    phase := page.CurrentPhase();
  }

  /** Leaving for the catalog in the middle of the test and coming back does not
      resume it: the quiz is on its welcome screen with nothing answered. */
  method CatalogRoundTrip() returns (phase: Phase, index: int, answered: nat)
    ensures phase == NotStarted && index == 0 && answered == 0
  {
    var page := new QuizPage();
    page.ShowTest();
    page.Start();
    page.SelectAnswer(0);
    page.Next();
    page.ShowCatalog();
    page.ShowTest();
    phase := page.CurrentPhase();
    index := page.currentQuestion;
    answered := |page.selectedAnswers|;
  }

  /** Restarting after the results returns the quiz to its welcome screen with
      no answers and the first question current. */
  method RestartAfterResults() returns (phase: Phase, index: int, answered: nat)
    ensures phase == NotStarted && index == 0 && answered == 0
  {
    var page := new QuizPage();
    page.ShowTest();
    page.Start();
    var i := 0;
    while i < |TestQuestions|
      invariant 0 <= i <= |TestQuestions|
      invariant page.Valid() && page.currentView == Test
      invariant i < |TestQuestions| ==> page.CurrentPhase() == InProgress(i) && page.currentQuestion == i
      invariant i == |TestQuestions| ==> page.CurrentPhase() == Completed
    {
      page.SelectAnswer(0);
      page.Next();
      i := i + 1;
    }
    page.Reset();
    phase := page.CurrentPhase();
    index := page.currentQuestion;
    answered := |page.selectedAnswers|;
  }
}
