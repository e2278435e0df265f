/** Sequences of button presses: what holds after any number of them, the
    end-to-end walks through a quiz, and the re-scoring of a repeated "Responder". */
module Runs {
  import opened Quiz

  /** The state after pressing the buttons in order. */
  function Run(qs: seq<Question>, s: State, acts: seq<Action>): (r: State)
    requires Inv(qs, s)
    ensures Inv(qs, r)
    decreases |acts|
  {
    if acts == [] then s else Run(qs, Step(qs, s, acts[0]), acts[1..])
  }

  /** How many presses of "Responder" along the run were accepted (on a question
      page, with an option selected). */
  function Accepted(qs: seq<Question>, s: State, acts: seq<Action>): (k: nat)
    requires Inv(qs, s)
    ensures k <= |acts|
    decreases |acts|
  {
    if acts == [] then 0
    else
      var here := if acts[0].Respond? && Accepts(qs, s, acts[0].choice) then 1 else 0;
      here + Accepted(qs, Step(qs, s, acts[0]), acts[1..])
  }

  /** Every point on the score comes from an accepted submission. */
  lemma {:induction false} RunScoreWithinAccepted(qs: seq<Question>, s: State, acts: seq<Action>)
    requires Inv(qs, s)
    ensures Run(qs, s, acts).score <= s.score + Accepted(qs, s, acts)
    decreases |acts|
  {
    if acts != [] {
      RunScoreWithinAccepted(qs, Step(qs, s, acts[0]), acts[1..]);
    }
  }

  /** Two presses per question: "Responder" with the given option, then "Siguiente pregunta". */
  function AnswerAll(choices: seq<string>): (acts: seq<Action>)
    ensures |acts| == 2 * |choices|
  {
    if choices == [] then [] else [Respond(Some(choices[0])), Next] + AnswerAll(choices[1..])
  }

  /** How many of the chosen options, given for questions i, i+1, ..., are right. */
  function Matches(qs: seq<Question>, i: nat, choices: seq<string>): (k: nat)
    requires AllWellFormed(qs) && i + |choices| <= |qs|
    ensures k <= |choices|
    decreases |choices|
  {
    if choices == [] then 0
    else (if choices[0] == CorrectOption(qs[i]) then 1 else 0) + Matches(qs, i + 1, choices[1..])
  }

  /** Answering each remaining question once and moving on reaches the completion
      page with one point per right option. */
  lemma {:induction false} AnswerAllRun(qs: seq<Question>, i: nat, k: nat, choices: seq<string>)
    requires AllWellFormed(qs) && i + |choices| == |qs|
    ensures Run(qs, State(i, k, false), AnswerAll(choices)) == State(|qs|, k + Matches(qs, i, choices), false)
    decreases |choices|
  {
    if choices != [] {
      var s := State(i, k, false);
      var acts := AnswerAll(choices);
      var point := if choices[0] == CorrectOption(qs[i]) then 1 else 0;
      var s1 := Step(qs, s, acts[0]);
      assert s1 == State(i, k + point, true);
      assert acts[1..][0] == Next;
      assert acts[1..][1..] == AnswerAll(choices[1..]);
      var s2 := Step(qs, s1, Next);
      assert s2 == State(i + 1, k + point, false);
      calc {
        Run(qs, s, acts);
        Run(qs, s1, acts[1..]);
        Run(qs, s2, AnswerAll(choices[1..]));
        { AnswerAllRun(qs, i + 1, k + point, choices[1..]); }
        State(|qs|, k + Matches(qs, i, choices), false);
      }
    }
  }

  /** The right option of every question from i on. */
  function CorrectChoices(qs: seq<Question>, i: nat): (cs: seq<string>)
    requires AllWellFormed(qs) && i <= |qs|
    ensures |cs| == |qs| - i
    decreases |qs| - i
  {
    if i == |qs| then [] else [CorrectOption(qs[i])] + CorrectChoices(qs, i + 1)
  }

  lemma {:induction false} CorrectChoicesAllMatch(qs: seq<Question>, i: nat)
    requires AllWellFormed(qs) && i <= |qs|
    ensures Matches(qs, i, CorrectChoices(qs, i)) == |qs| - i
    decreases |qs| - i
  {
    if i < |qs| {
      var cs := CorrectChoices(qs, i);
      assert cs[1..] == CorrectChoices(qs, i + 1);
      CorrectChoicesAllMatch(qs, i + 1);
    }
  }

  /** A single pass that answers every question once, from the start: the summary
      shows the number of right options out of the total, with its tier. */
  lemma OnePassSummary(qs: seq<Question>, choices: seq<string>)
    requires |qs| > 0 && AllWellFormed(qs) && |choices| == |qs|
    ensures ScreenOf(qs, Run(qs, State(0, 0, false), AnswerAll(choices)))
            == Finished(Matches(qs, 0, choices), |qs|, FinalTier(Matches(qs, 0, choices), |qs|))
  {
    AnswerAllRun(qs, 0, 0, choices);
  }

  /** Every question answered right: full score and the Excellent tier. */
  lemma PerfectRunIsExcellent(qs: seq<Question>)
    requires |qs| > 0 && AllWellFormed(qs)
    ensures ScreenOf(qs, Run(qs, State(0, 0, false), AnswerAll(CorrectChoices(qs, 0))))
            == Finished(|qs|, |qs|, Excellent)
  {
    CorrectChoicesAllMatch(qs, 0);
    OnePassSummary(qs, CorrectChoices(qs, 0));
  }

  /** Two right out of four is exactly 50 percent, which is Good. */
  lemma HalfRightOfFourIsGood(qs: seq<Question>, choices: seq<string>)
    requires |qs| == 4 && AllWellFormed(qs) && |choices| == 4 && Matches(qs, 0, choices) == 2
    ensures ScreenOf(qs, Run(qs, State(0, 0, false), AnswerAll(choices))) == Finished(2, 4, Good)
  {
    OnePassSummary(qs, choices);
  }

  /** As written, a press of "Responder" while the feedback is already showing is
      accepted and scores again when the option is right. */
  lemma ResubmitRescores(qs: seq<Question>, s: State)
    requires Inv(qs, s) && s.showingFeedback
    ensures SubmitStep(qs, s, Some(CorrectOption(qs[s.index]))).score == s.score + 1
  {
  }

  /** A one-question quiz answered right twice before moving on reaches 2 points
      out of 1: the completion page shows "2 / 1" and stops at the progress bar
      (value 200), so no tier is shown and "Reiniciar test" has no effect. */
  lemma DoubleSubmitOverScores()
    ensures var qs := [Question("q", ["a", "b"], 0, "e")];
            var r := Run(qs, State(0, 0, false), [Respond(Some("a")), Respond(Some("a")), Next]);
            r == State(1, 2, false) && r.score > |qs| && ProgressValue(r.score, |qs|) == 200
            && ScreenOf(qs, r) == Stopped(2, 1) && RestartStep(qs, r) == r
  {
  }

  /** Once the completion page stops at the progress bar, no press changes anything:
      the session stays there for good. */
  lemma {:induction false} StoppedIsFinal(qs: seq<Question>, s: State, acts: seq<Action>)
    requires Inv(qs, s) && ProgressFails(qs, s)
    ensures Run(qs, s, acts) == s
    decreases |acts|
  {
    if acts != [] {
      StoppedIsFinal(qs, Step(qs, s, acts[0]), acts[1..]);
    }
  }

  /** The evidently intended "Responder": ignored while the feedback is showing. */
  function GuardedStep(qs: seq<Question>, s: State, a: Action): (r: State)
    requires Inv(qs, s)
    ensures Inv(qs, r)
    ensures a.Respond? && s.showingFeedback ==> r == s
    ensures !(a.Respond? && s.showingFeedback) ==> r == Step(qs, s, a)
  {
    if a.Respond? && s.showingFeedback then s else Step(qs, s, a)
  }

  function GuardedRun(qs: seq<Question>, s: State, acts: seq<Action>): (r: State)
    requires Inv(qs, s)
    ensures Inv(qs, r)
    decreases |acts|
  {
    if acts == [] then s else GuardedRun(qs, GuardedStep(qs, s, acts[0]), acts[1..])
  }

  /** At most one point per question passed, plus one for the question whose
      feedback is showing. */
  predicate GuardedInv(qs: seq<Question>, s: State) {
    Inv(qs, s) && s.score <= s.index + (if s.showingFeedback then 1 else 0)
  }

  /** With the guard the score never exceeds the number of questions, so the final
      percentage is at most 100 and the completion page is always drawn in full. */
  lemma {:induction false} GuardedRunScoreBounded(qs: seq<Question>, s: State, acts: seq<Action>)
    requires GuardedInv(qs, s)
    ensures GuardedInv(qs, GuardedRun(qs, s, acts))
    ensures GuardedRun(qs, s, acts).score <= |qs|
    ensures |qs| > 0 ==> !ScreenOf(qs, GuardedRun(qs, s, acts)).Stopped?
    decreases |acts|
  {
    if acts != [] {
      var s1 := GuardedStep(qs, s, acts[0]);
      assert GuardedInv(qs, s1);
      GuardedRunScoreBounded(qs, s1, acts[1..]);
    }
  }
}
