# Quiz state machine of the learning platform's index page

The index page of this single-page learning front end shows either a course
catalog or a five-question multiple-choice test. The test is a small state
machine held in the page component's state: the current view, the current
question index, a sparse array of recorded answers (question index to chosen
option index), whether results are shown and whether the test has started.
Event handlers change that state: select an answer, next, previous, reset,
start, and the two header buttons that switch the view. The results screen
derives a score (the number of recorded answers equal to the question's correct
index), a colour band for it and a rounded percentage.

This project models that state machine in Dafny:

- `quiz_data.dfy` (module `QuizData`): the `Question` record and the static
  table `TestQuestions`, with its well-formedness facts.
- `scoring.dfy` (module `Scoring`): the score as a recursive count
  (`ScoreUpTo`, `Score`), the lemmas relating it to the set of correctly answered
  questions, the colour band `GetScoreColor` and the rounded percentage
  `RoundedPercent`.
- `quiz.dfy` (module `Quiz`): class `QuizPage`, whose fields are the page's five
  state variables and whose methods are the handlers. `Valid()` is the invariant
  every handler keeps:
  - the current index is a question index;
  - answers are recorded only for questions, and only options they offer;
  - every question before the current one is answered;
  - results are shown only for a started test, on its last question, with all
    questions answered;
  - a test that is not started is pristine (index 0, no answers, no results).

  `CalculateScore` is the page's counting loop, proved equal to `Score`. Three
  client methods step through whole scenarios against the handlers' contracts.

Each handler is one atomic transition on a snapshot of the state. A handler is
reachable only when the page renders its button, so the rendering and
`disabled` conditions are the handler's preconditions:
- select, next and previous appear only on the question screen: quiz view,
  started, no results;
- next is disabled until the current question has an answer;
- select is emitted only for the indices of the current question's options;
- start appears only on the welcome screen.

Previous is disabled at index 0, but the handler also guards against it itself,
so the model keeps that guard as a no-op rather than a precondition. Each
handler's `modifies` clause names the fields it assigns, so "nothing else
changes" is part of its contract.

The start button (src/pages/Index.tsx:274) only sets the started flag and does
not reset the index or the answers. The model proves that `Start` still begins
from the pristine state, because `Valid()` makes every not-started state
pristine.

## Model

| member | source | states |
|---|---|---|
| `QuizData.TestQuestionsWellFormed` | src/pages/Index.tsx:19-80 | the table has 5 questions numbered 1..5 in order, each with 4 options, and every correct index names one of its options |
| `Scoring.ScoreUpTo` | src/pages/Index.tsx:136-144 | the count of correct answers over the first n questions is at most n, so the score lies in [0, number of questions] |
| `Scoring.ScoreUpToIsCount` | src/pages/Index.tsx:136-144 | the order-of-questions count over a prefix equals the size of the set of indices in that prefix whose recorded answer is correct |
| `Scoring.ScoreIsCount` | src/pages/Index.tsx:136-144 | the score is the number of indices i with an answer recorded at i equal to question i's correct index |
| `Scoring.ScoreAtMostAnswered` | src/pages/Index.tsx:139 | unanswered questions never count: the score is at most the number of questions with a recorded answer |
| `Scoring.ScoreAllCorrect` | src/pages/Index.tsx:136-144 | if every question's recorded answer is its correct index, the score equals the number of questions |
| `Scoring.ScoreNoneCorrect` | src/pages/Index.tsx:136-144 | if no recorded answer is correct (including no answers at all), the score is 0 |
| `Scoring.ScoreAfterSelect` | src/pages/Index.tsx:116-120 | recording an option for one question changes the score by exactly that question's change of contribution, so by at most one, and choosing the correct option never lowers it |
| `Scoring.GetScoreColor` | src/pages/Index.tsx:146-152 | for a positive total, the band is green at 80% or more, blue from 60% to below 80%, yellow from 40% to below 60% and red below 40%, each band an if-and-only-if |
| `Scoring.ScoreColorMonotone` | src/pages/Index.tsx:146-152 | out of the same positive total, a higher score never gets a lower band |
| `Scoring.ScoreColorForFive` | src/pages/Index.tsx:146-152 | with 5 questions, 5 or 4 correct is green, 3 blue, 2 yellow, 1 or 0 red |
| `Scoring.RoundedPercent` | src/pages/Index.tsx:294 | the result is the integer nearest to 100*score/total with halves rounded up, and lies in [0, 100] when 0 <= score <= total |
| `Quiz.QuizPage.constructor` | src/pages/Index.tsx:110-114 | the page starts on the catalog view with the test not started, index 0, no answers and no results, and the invariant holds |
| `Quiz.QuizPage.SelectAnswer` | src/pages/Index.tsx:116-120 | the chosen option is recorded at the current index, replacing any earlier choice; every other recorded answer and every other field is unchanged; the invariant is kept |
| `Quiz.QuizPage.Next` | src/pages/Index.tsx:122-128 | below the last question the index grows by one; on the last question the index stays and results are shown; results are shown afterwards exactly when the index was the last; only the index and the results flag change; the invariant is kept |
| `Quiz.QuizPage.Previous` | src/pages/Index.tsx:130-134 | above 0 the index drops by one, at 0 nothing changes; recorded answers and all other fields are untouched; the invariant is kept |
| `Quiz.QuizPage.Reset` | src/pages/Index.tsx:154-159 | index 0, no answers, no results and not started, whatever the state before; the view is unchanged |
| `Quiz.QuizPage.Start` | src/pages/Index.tsx:274 | only the started flag changes; the test is then in progress at question 0 with no answers |
| `Quiz.QuizPage.ShowCatalog` | src/pages/Index.tsx:172 | the view becomes the catalog and the quiz is reset to its pristine, not-started state |
| `Quiz.QuizPage.ShowTest` | src/pages/Index.tsx:181 | the view becomes the quiz view and nothing else changes |
| `Quiz.QuizPage.CalculateScore` | src/pages/Index.tsx:136-144 | the counting loop returns exactly the score of the recorded answers, at most the number of questions |
| `Quiz.AllCorrectRun` | src/pages/Index.tsx:116-144 | starting the test and answering every question correctly ends on the results screen with score 5 and the green band |
| `Quiz.CatalogRoundTrip` | src/pages/Index.tsx:172 | switching to the catalog mid-test and back leaves the quiz not started, at index 0 with no answers |
| `Quiz.RestartAfterResults` | src/pages/Index.tsx:339 | restarting from the results screen leaves the quiz not started, at index 0 with no answers |

## Left out

- The course catalog (`courses` and its cards): static display data with no logic.
- All rendering, styling, icons and UI library components. The rendering
  conditions that decide which handlers are reachable become preconditions.
- Question, option and explanation texts: replaced by short labels, since no
  operation inspects them.
- React's state batching and re-rendering: each handler is one atomic transition.
- `parseInt` of the radio group's string value: selection is modelled by the
  option index directly.
- The progress bar value, `((currentQuestion + 1) / length) * 100`: display only.
- Floating point. Percentages are compared on exact rationals, so
  `(score / total) * 100 >= 80` becomes `score * 100 >= 80 * total` for a
  positive total. For a zero total the model follows the float rules: +Infinity
  for a positive score, otherwise -Infinity or NaN.
- GetScoreColor: a quotient that lies within rounding error of a threshold
  without equalling it could compare differently in doubles. For five questions the
  percentage `(score / 5) * 100` comes out in doubles as exactly 0, 20, 40, 60,
  80 or 100.
- RoundedPercent: requires a positive total. The page always passes the question
  count, 5, and a zero total would display NaN in the page.
- The per-question review on the results screen (which answer was chosen, the
  correct one, the explanation) is display only. Its correctness test is
  `Scoring.IsCorrect`, the same comparison the score counts.
