# Quiz progression of the "Test de Ansiedad Psicológica" app

The app shows a multiple-choice quiz on psychological anxiety, one question at a
time, and scores the answers. Its control logic lives in `main()` of `app.py`.
`main()` keeps three fields in the framework's session state:

- `indice` is the current question, counted from 0. It equals the number of questions once the quiz is finished.
- `puntuacion` is the number of right answers so far.
- `mostrando_feedback` is true while the feedback for the current question is on screen.

Three buttons change those fields:

- "Responder" grades the selected option.
- "Siguiente pregunta" moves on, and appears only while feedback is showing.
- "Reiniciar test" starts over, and appears only on the completion page.

The completion page grades the final percentage with an if/elif rule: 80 and above, at least 50, below 50.

The model has three modules:

- `Quiz` (quiz.dfy) holds the values. These are the question record, the three fields as a `State`, and one pure step function per button. It also has the tier rule and what the page shows.
- `Runs` (runs.dfy) covers sequences of button presses. It proves what holds after any number of presses and walks through whole quizzes. It also holds the re-scoring finding below, and a guarded variant of "Responder".
- `App` (session.dfy) holds `QuizSession`, a class whose fields the handlers update in place. Each method states its new fields directly. `Submit`, `Advance` and `Restart` also equal the step function of `Quiz` on the old state, and `SubmitOnce` equals the guarded step of `Runs`.

A button press that is not on the page does nothing. That covers "Responder" on the completion page, "Siguiente pregunta" without feedback, and "Reiniciar test" during the quiz. This makes every step total.

A second press of "Responder" scores the question again. The code does not test `mostrando_feedback` there. The model follows the code. So `puntuacion <= indice` does not hold, and the model does not claim it. What it does prove:

- the index stays in `[0, |questions|]`;
- feedback only shows on a question page;
- the score never exceeds the number of accepted submissions. The class keeps that number as a ghost field.

"Reiniciar test" is offered only on the completion page (app.py:67, 81), and the model follows that.

The completion page draws a progress bar with `int(porcentaje)` (app.py:71) before the tier and the restart button. The progress widget refuses an integer above 100. That is the framework's behaviour, not app.py's text. A score above the number of questions can reach that case through re-scoring. The page then stops after the score line: no tier is shown and the restart button is never drawn. The model has this as the `Stopped` screen, and in that state every button press changes nothing.

## Model

| member | source | states |
|---|---|---|
| Quiz.CorrectOption | app.py:51 | the right option's text is one of the question's options |
| Quiz.Start | app.py:32-40 | no session on an empty list; otherwise index 0, score 0, no feedback; the first state is always a question page and satisfies the invariant |
| Quiz.Grade | app.py:50-57 | no selection gives the "select an answer" warning; otherwise the answer is right exactly when its text equals the right option's text, and the message carries that text and the explanation |
| Quiz.GradeComparesText | app.py:51-52 | an option at another position with the right option's text is also marked right |
| Quiz.SubmitResponse | app.py:42-60 | "Responder" reports nothing on the completion page and grades the current question otherwise |
| Quiz.SubmitStep | app.py:49-60 | keeps the invariant; the index never moves; no selection changes nothing; an accepted press shows feedback; the score rises by exactly one exactly when the press is accepted and the text is right, and is otherwise unchanged |
| Quiz.AdvanceStep | app.py:62-65 | keeps the invariant; hides feedback; keeps the score; moves the index by one exactly when feedback was showing, and changes nothing otherwise; leaving the last question reaches the completion page |
| Quiz.RestartStep | app.py:67-84 | keeps the invariant; on a completion page drawn in full it returns to the initial state; during the quiz, or when the page stopped at the progress bar before the button, it changes nothing |
| Quiz.Step | app.py:42-84 | every button press keeps the index within the list and feedback on a question page; on a page stopped at the progress bar no press changes anything |
| Quiz.Percentage | app.py:70 | the percentage is not negative, and is at most 100 when the score is at most the total |
| Quiz.ProgressValue | app.py:70-71 | the progress value `int(porcentaje)` is not negative, is at most 100 when the score is at most the total, and exceeds 100 exactly when 100*score >= 101*n |
| Quiz.FinalTier | app.py:70-79 | Excellent exactly when at least four fifths are right, NeedsReview exactly when fewer than half are, Good in between |
| Quiz.PercentageThresholds | app.py:73-76 | percentage at least 80 iff 5*score >= 4*n; at least 50 iff 2*score >= n |
| Quiz.FinalTierMonotone | app.py:73-79 | a higher score never gets a lower tier |
| Quiz.TierBoundaries | app.py:73-79 | 80 and 100 are Excellent, 79.99 and 50 are Good, 49.99 and 0 are NeedsReview |
| Quiz.ScreenOf | app.py:42-79 | a question page exactly while the index is below the total, showing question index+1 of the total; a page stopped after the score line exactly when the progress value exceeds 100, i.e. 100*score >= 101*total; otherwise the summary with score, total and the tier of score out of total |
| Runs.Run | app.py:36-84 | after any sequence of presses the index is within the list and feedback only shows on a question page |
| Runs.RunScoreWithinAccepted | app.py:49-58 | after any sequence of presses the score is at most the starting score plus the accepted "Responder" presses |
| Runs.AnswerAllRun | app.py:42-65 | answering each remaining question once and moving on ends on the completion page, with one point per right option |
| Runs.OnePassSummary | app.py:42-79 | one pass over the whole quiz shows the number of right options out of the total, with their tier |
| Runs.PerfectRunIsExcellent | app.py:62-75 | all answers right gives full score and the Excellent tier |
| Runs.HalfRightOfFourIsGood | app.py:70-77 | 2 right out of 4 questions is shown as 2 of 4, tier Good |
| Runs.ResubmitRescores | app.py:49-58 | a right answer pressed again while feedback shows scores one more point |
| Runs.DoubleSubmitOverScores | app.py:49-81 | one question, right option submitted twice, then advance: 2 of 1, progress value 200, the page stops after the score line, and restart has no effect |
| Runs.StoppedIsFinal | app.py:67-84 | once the completion page stops at the progress bar, no sequence of presses changes the state |
| Runs.GuardedStep | app.py:49-65 | the guarded "Responder" is ignored while feedback shows and is the original step otherwise |
| Runs.GuardedRunScoreBounded | app.py:49-71 | with the guard, the score is at most the questions passed plus the one on screen, so never more than the total, and the completion page is never cut off at the progress bar |
| App.QuizSession.constructor | app.py:37-40 | the fields start at 0, 0, false on the given non-empty list |
| App.QuizSession.Submit | app.py:49-60 | the fields after "Responder": index kept, score plus one exactly for an accepted right answer, feedback on for an accepted press, the message graded on the current question; equal to Quiz.Step |
| App.QuizSession.SubmitOnce | app.py:49-58 | the guarded "Responder": no change while feedback shows; otherwise index kept, score plus one exactly for an accepted right answer, feedback on and the ghost count plus one for an accepted press; equal to Runs.GuardedStep |
| App.QuizSession.Advance | app.py:62-65 | the fields after "Siguiente pregunta": the index moves exactly when feedback was showing, the score is kept, feedback is off |
| App.QuizSession.Restart | app.py:67-84 | the fields after "Reiniciar test": the initial state on a completion page whose progress value is at most 100, unchanged otherwise; the question list is constant |
| App.Begin | app.py:30-40 | no session exactly when the list is empty; otherwise a fresh session in the initial state |
| App.DoubleSubmitWalkthrough | app.py:49-84 | through the class, a one-question quiz submitted right twice ends finished with 2 points out of 1, and the restart then fails |
| App.GuardedWalkthrough | app.py:49-84 | the same presses with the guarded submission end with 1 point out of 1, and the restart then succeeds |

## Left out

- `cargar_preguntas` (app.py:9-24) is not modelled. It is an HTTP fetch with JSON decoding and caching. The model takes the resulting question list as a parameter, which may be empty.
- Rendering is not modelled: titles, radio, messages, progress bar and balloons. The feedback message comes back as a `Response` value.
- Quiz.Percentage: computed as an exact real, not as a floating-point number, so float rounding is not modelled. `Quiz.ProgressValue` truncates that exact value.
- The progress widget's refusal of a value above 100 is the framework's behaviour. It is modelled only as its effect: the rest of the completion page is not drawn. The exception itself and its message are not modelled.
- The framework's page reruns and widget persistence are not modelled. Each button press is one atomic call.
- The session-state initialisation runs once per browser session (app.py:37). It is modelled as the constructor that `Begin` calls.
- The radio offers only the current question's options. The model allows any text as the selection, because the scoring compares text anyway.
- Question records are taken with `0 <= correcta < len(opciones)`. The code does no bounds check. Python would also accept a negative index from the end, and a missing key or a bad index would raise an exception; neither is modelled.

## Findings

| source | as written | input that shows it | evidently intended | confidence | as-written member | corrected member |
|---|---|---|---|---|---|---|
| app.py:49-54 | "Responder" scores without testing `mostrando_feedback`, and the button stays on the page while feedback shows | one question; submit the right option twice, then "Siguiente pregunta": the page shows "2 / 1", then stops at the progress bar (value 200), so neither the tier nor "Reiniciar test" appears and the session cannot be restarted | a question scores at most once, so the score never exceeds the number of questions | not executed | Runs.DoubleSubmitOverScores | Runs.GuardedRunScoreBounded |
