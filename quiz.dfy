/** The progression of the anxiety-psychology quiz as pure values: the question
    records, the three session-state fields, what each button press does to them,
    the final tier rule and what the page shows. */
module Quiz {

  datatype Option<T> = None | Some(value: T)

  /** One record of the question file: "pregunta", "opciones", "correcta", "explicacion". */
  datatype Question = Question(text: string, options: seq<string>, correct: int, explanation: string)

  /** The answer index points into the options, as the scoring code needs. */
  predicate WellFormed(q: Question) {
    0 <= q.correct < |q.options|
  }

  predicate AllWellFormed(qs: seq<Question>) {
    forall i :: 0 <= i < |qs| ==> WellFormed(qs[i])
  }

  /** The text of the right option: the submitted text is compared with it. */
  function CorrectOption(q: Question): (c: string)
    requires WellFormed(q)
    ensures c in q.options
  {
    q.options[q.correct]
  }

  /** The session-state fields "indice", "puntuacion" and "mostrando_feedback". */
  datatype State = State(index: nat, score: nat, showingFeedback: bool)

  /** A button press: "Responder" with the radio's selection, "Siguiente pregunta", "Reiniciar test". */
  datatype Action = Respond(choice: Option<string>) | Next | Reset

  /** What a press of "Responder" reports: nothing when the button is not on the page,
      the "select an answer" warning, or the consolidated feedback message. */
  datatype Response =
    | Unavailable
    | SelectionRequired
    | Answered(wasCorrect: bool, correctOption: string, explanation: string)

  datatype Tier = Excellent | Good | NeedsReview

  /** The question page is shown (otherwise the completion page is). */
  predicate InProgress(qs: seq<Question>, s: State) {
    s.index < |qs|
  }

  /** What every reachable state satisfies: the index never passes the end, and
      feedback is only ever showing on a question page. */
  predicate Inv(qs: seq<Question>, s: State) {
    AllWellFormed(qs) && s.index <= |qs| && (s.showingFeedback ==> InProgress(qs, s))
  }

  /** Entering the quiz: no session on an empty question list, otherwise the initial state. */
  function Start(qs: seq<Question>): (r: Option<State>)
    ensures r.None? <==> |qs| == 0
    ensures r.Some? ==> r.value.index == 0 && r.value.score == 0 && !r.value.showingFeedback
    ensures r.Some? ==> InProgress(qs, r.value)
    ensures r.Some? && AllWellFormed(qs) ==> Inv(qs, r.value)
  {
    if |qs| == 0 then None else Some(State(0, 0, false))
  }

  /** Grading one submission against one question. */
  function Grade(q: Question, choice: Option<string>): (r: Response)
    requires WellFormed(q)
    ensures r != Unavailable
    ensures r == SelectionRequired <==> choice.None?
    ensures r.Answered? ==> r.correctOption in q.options && r.correctOption == q.options[q.correct]
    ensures r.Answered? ==> r.explanation == q.explanation
    ensures r.Answered? ==> (r.wasCorrect <==> choice.value == q.options[q.correct])
  {
    match choice
    case None => SelectionRequired
    case Some(o) =>
      var c := CorrectOption(q);
      Answered(o == c, c, q.explanation)
  }

  /** Grading compares option text, not position: an option that repeats the text
      of the right one is also counted as right. */
  lemma GradeComparesText(q: Question, j: int)
    requires WellFormed(q) && 0 <= j < |q.options| && q.options[j] == q.options[q.correct]
    ensures Grade(q, Some(q.options[j])).wasCorrect
  {
  }

  /** The message a press of "Responder" produces in state s. */
  function SubmitResponse(qs: seq<Question>, s: State, choice: Option<string>): (r: Response)
    requires Inv(qs, s)
    ensures r == Unavailable <==> !InProgress(qs, s)
    ensures InProgress(qs, s) ==> r == Grade(qs[s.index], choice)
  {
    if s.index < |qs| then Grade(qs[s.index], choice) else Unavailable
  }

  /** The press was accepted: the button is on the page and an option is selected. */
  predicate Accepts(qs: seq<Question>, s: State, choice: Option<string>) {
    InProgress(qs, s) && choice.Some?
  }

  /** "Responder": when an option is selected, score one point if its text is the
      right one, and show feedback; the index never moves. The flag is not consulted,
      so a second press on the same question scores again. */
  function SubmitStep(qs: seq<Question>, s: State, choice: Option<string>): (r: State)
    requires Inv(qs, s)
    ensures Inv(qs, r)
    ensures r.index == s.index
    ensures choice.None? ==> r == s
    ensures !InProgress(qs, s) ==> r == s
    ensures Accepts(qs, s, choice) ==> r.showingFeedback
    ensures r.score == s.score + 1 <==> Accepts(qs, s, choice) && choice.value == CorrectOption(qs[s.index])
    ensures r.score == s.score || r.score == s.score + 1
  {
    if s.index < |qs| && choice.Some? then
      var point := if choice.value == CorrectOption(qs[s.index]) then 1 else 0;
      State(s.index, s.score + point, true)
    else
      s
  }

  /** "Siguiente pregunta": offered only while feedback is showing; moves one
      question on, hides the feedback and keeps the score. */
  function AdvanceStep(qs: seq<Question>, s: State): (r: State)
    requires Inv(qs, s)
    ensures Inv(qs, r)
    ensures !r.showingFeedback
    ensures r.score == s.score
    ensures r.index == if s.showingFeedback then s.index + 1 else s.index
    ensures !s.showingFeedback ==> r == s
    ensures s.showingFeedback && s.index + 1 == |qs| ==> !InProgress(qs, r)
  {
    if s.index < |qs| && s.showingFeedback then State(s.index + 1, s.score, false) else s
  }

  /** "Reiniciar test": its button is drawn at the end of the completion page, so
      a press returns to the initial state only when that page got that far. */
  function RestartStep(qs: seq<Question>, s: State): (r: State)
    requires Inv(qs, s)
    ensures Inv(qs, r)
    ensures !InProgress(qs, s) && !ProgressFails(qs, s) ==> r.index == 0 && r.score == 0 && !r.showingFeedback
    ensures !InProgress(qs, s) && !ProgressFails(qs, s) ==> Start(qs) == Some(r)
    ensures InProgress(qs, s) || ProgressFails(qs, s) ==> r == s
  {
    if s.index < |qs| || ProgressFails(qs, s) then s else State(0, 0, false)
  }

  /** One button press. */
  function Step(qs: seq<Question>, s: State, a: Action): (r: State)
    requires Inv(qs, s)
    ensures Inv(qs, r)
    ensures ProgressFails(qs, s) ==> r == s
  {
    match a
    case Respond(choice) => SubmitStep(qs, s, choice)
    case Next => AdvanceStep(qs, s)
    case Reset => RestartStep(qs, s)
  }

  /** The final percentage, computed exactly. */
  function Percentage(score: nat, n: nat): (p: real)
    requires n > 0
    ensures p >= 0.0
    ensures score <= n ==> p <= 100.0
  {
    (score as real / n as real) * 100.0
  }

  /** The progress-bar value `int(porcentaje)`: the percentage truncated toward zero.
      It exceeds 100 exactly when the score is at least 101 percent of the total. */
  function ProgressValue(score: nat, n: nat): (v: int)
    requires n > 0
    ensures v >= 0
    ensures score <= n ==> v <= 100
    ensures v > 100 <==> 100 * score >= 101 * n
  {
    QuotientAtLeast(score as real, n as real, 1.01);
    Percentage(score, n).Floor
  }

  /** The completion page stops before the tier and the restart button: with no
      questions the percentage divides by zero, and the progress bar refuses a value
      above 100. */
  predicate ProgressFails(qs: seq<Question>, s: State) {
    !InProgress(qs, s) && (|qs| == 0 || ProgressValue(s.score, |qs|) > 100)
  }

  /** The if/elif on the percentage: inclusive thresholds 80 and 50. */
  function TierFor(percentage: real): Tier {
    if percentage >= 80.0 then Excellent
    else if percentage >= 50.0 then Good
    else NeedsReview
  }

  /** The tier of a final score out of n, in integer terms: at least four fifths
      right is Excellent, fewer than half is NeedsReview, anything between is Good. */
  function FinalTier(score: nat, n: nat): (t: Tier)
    requires n > 0
    ensures t == Excellent <==> 5 * score >= 4 * n
    ensures t == NeedsReview <==> 2 * score < n
    ensures t == Good <==> 2 * score >= n && 5 * score < 4 * n
  {
    PercentageThresholds(score, n);
    TierFor(Percentage(score, n))
  }

  lemma PercentageThresholds(score: nat, n: nat)
    requires n > 0
    ensures Percentage(score, n) >= 80.0 <==> 5 * score >= 4 * n
    ensures Percentage(score, n) >= 50.0 <==> 2 * score >= n
  {
    QuotientAtLeast(score as real, n as real, 0.8);
    QuotientAtLeast(score as real, n as real, 0.5);
  }

  /** For m > 0, x / m is at least k exactly when x is at least k * m. */
  lemma QuotientAtLeast(x: real, m: real, k: real)
    requires m > 0.0
    ensures x / m >= k <==> x >= k * m
  {
    var q := x / m;
    assert q * m == x;
    assert q * m - k * m == (q - k) * m;
    if q >= k {
      assert (q - k) * m >= 0.0;
    } else {
      assert (k - q) * m > 0.0;
    }
  }

  /** Getting more answers right never lowers the tier. */
  function Rank(t: Tier): nat {
    match t
    case NeedsReview => 0
    case Good => 1
    case Excellent => 2
  }

  lemma FinalTierMonotone(lo: nat, hi: nat, n: nat)
    requires n > 0 && lo <= hi
    ensures Rank(FinalTier(lo, n)) <= Rank(FinalTier(hi, n))
  {
  }

  /** The boundary values of the tier rule. */
  lemma TierBoundaries()
    ensures TierFor(80.0) == Excellent && TierFor(100.0) == Excellent
    ensures TierFor(79.99) == Good && TierFor(50.0) == Good
    ensures TierFor(49.99) == NeedsReview && TierFor(0.0) == NeedsReview
  {
  }

  /** What the page shows: the current question with its position, the final
      summary, or a completion page cut off after the score line. */
  datatype Screen =
    | Asking(position: nat, total: nat, question: Question, showingFeedback: bool)
    | Finished(score: nat, total: nat, tier: Tier)
    | Stopped(score: nat, total: nat)

  function ScreenOf(qs: seq<Question>, s: State): (v: Screen)
    requires |qs| > 0
    ensures v.Asking? <==> InProgress(qs, s)
    ensures v.Stopped? <==> ProgressFails(qs, s)
    ensures v.Stopped? <==> !InProgress(qs, s) && 100 * s.score >= 101 * |qs|
    ensures v.Asking? ==> 1 <= v.position <= v.total == |qs| && v.question == qs[v.position - 1]
    ensures v.Asking? ==> v.position == s.index + 1 && v.showingFeedback == s.showingFeedback
    ensures !v.Asking? ==> v.score == s.score && v.total == |qs|
    ensures v.Finished? ==> v.tier == FinalTier(s.score, |qs|)
  {
    if s.index < |qs| then Asking(s.index + 1, |qs|, qs[s.index], s.showingFeedback)
    else if ProgressValue(s.score, |qs|) > 100 then Stopped(s.score, |qs|)
    else Finished(s.score, |qs|, FinalTier(s.score, |qs|))
  }
}
