/** The session state that main() keeps between page runs, as an object whose
    fields the button handlers update in place. */
module App {
  import opened Quiz
  import Runs

  class QuizSession {
    /** The loaded question list, never changed by the session. */
    const questions: seq<Question>
    /** "indice": the current question, 0-based; |questions| on the completion page. */
    var index: nat
    /** "puntuacion": right answers counted so far. */
    var score: nat
    /** "mostrando_feedback": feedback for the current question is on screen. */
    var showingFeedback: bool
    /** Accepted "Responder" presses since the quiz was (re)started. */
    ghost var accepted: nat

    function Snapshot(): State
      reads this
    {
      State(index, score, showingFeedback)
    }

    ghost predicate Valid()
      reads this
    {
      |questions| > 0 && Inv(questions, Snapshot()) && score <= accepted
    }

    /** The first run of main() on a non-empty list: index 0, score 0, no feedback. */
    constructor (qs: seq<Question>)
      requires |qs| > 0 && AllWellFormed(qs)
      ensures Valid() && questions == qs
      ensures index == 0 && score == 0 && !showingFeedback && accepted == 0
      ensures Start(qs) == Some(Snapshot())
    {
      questions := qs;
      index, score, showingFeedback := 0, 0, false;
      accepted := 0;
    }

    /** "Responder" with the radio's selection. */
    method Submit(choice: Option<string>) returns (r: Response)
      requires Valid()
      modifies this
      ensures Valid()
      ensures r == SubmitResponse(questions, old(Snapshot()), choice)
      ensures r.Answered? <==> old(index) < |questions| && choice.Some?
      ensures index == old(index)
      ensures score == old(score) + (if r.Answered? && r.wasCorrect then 1 else 0)
      ensures showingFeedback == (old(showingFeedback) || r.Answered?)
      ensures accepted == old(accepted) + (if r.Answered? then 1 else 0)
      ensures Snapshot() == Step(questions, old(Snapshot()), Respond(choice))
    {
      if index < |questions| {
        var q := questions[index];
        r := Grade(q, choice);
        if choice.Some? {
          if choice.value == CorrectOption(q) {
            score := score + 1;
          }
          showingFeedback := true;
          accepted := accepted + 1;
        }
      } else {
        r := Unavailable;
      }
    }

    /** "Responder" as evidently intended: a press while the feedback is already
        showing is ignored, so a question is never scored twice. */
    method SubmitOnce(choice: Option<string>) returns (r: Response)
      requires Valid()
      modifies this
      ensures Valid()
      ensures old(showingFeedback) ==> Snapshot() == old(Snapshot()) && r == Unavailable
      ensures !old(showingFeedback) ==> r == SubmitResponse(questions, old(Snapshot()), choice)
      ensures index == old(index)
      ensures score == old(score) + (if r.Answered? && r.wasCorrect then 1 else 0)
      ensures showingFeedback == (old(showingFeedback) || r.Answered?)
      ensures accepted == old(accepted) + (if r.Answered? then 1 else 0)
      ensures Snapshot() == Runs.GuardedStep(questions, old(Snapshot()), Respond(choice))
    {
      if showingFeedback {
        r := Unavailable;
      } else {
        r := Submit(choice);
      }
    }

    /** "Siguiente pregunta", on the page only while the feedback is showing. */
    method Advance() returns (moved: bool)
      requires Valid()
      modifies this
      ensures Valid()
      ensures moved == old(showingFeedback)
      ensures index == old(index) + (if moved then 1 else 0)
      ensures score == old(score) && !showingFeedback && accepted == old(accepted)
      ensures moved && old(index) + 1 == |questions| ==> !InProgress(questions, Snapshot())
      ensures Snapshot() == Step(questions, old(Snapshot()), Next)
    {
      moved := false;
      if index < |questions| && showingFeedback {
        index := index + 1;
        showingFeedback := false;
        moved := true;
      }
    }

    /** "Reiniciar test", drawn at the end of the completion page, so only when
        the progress bar before it accepted its value. */
    method Restart() returns (reset: bool)
      requires Valid()
      modifies this
      ensures Valid()
      ensures reset == (old(index) >= |questions| && !ProgressFails(questions, old(Snapshot())))
      ensures reset ==> index == 0 && score == 0 && !showingFeedback && accepted == 0
      ensures reset ==> Start(questions) == Some(Snapshot())
      ensures !reset ==> Snapshot() == old(Snapshot()) && accepted == old(accepted)
      ensures Snapshot() == Step(questions, old(Snapshot()), Reset)
    {
      reset := index >= |questions| && ProgressValue(score, |questions|) <= 100;
      if reset {
        index := 0;
        score := 0;
        showingFeedback := false;
        accepted := 0;
      }
    }
  }

  /** Entering main(): with no questions the warning is shown and no session exists. */
  method Begin(qs: seq<Question>) returns (session: Option<QuizSession>)
    requires AllWellFormed(qs)
    ensures session.None? <==> |qs| == 0
    ensures session.Some? ==> fresh(session.value) && session.value.Valid()
    ensures session.Some? ==> session.value.questions == qs && Start(qs) == Some(session.value.Snapshot())
  {
    if |qs| == 0 {
      session := None;
    } else {
      var s := new QuizSession(qs);
      session := Some(s);
    }
  }

  /** A one-question quiz whose right option is submitted twice before moving on:
      the session ends on the completion page with 2 points out of 1, and
      "Reiniciar test" cannot bring it back. */
  method DoubleSubmitWalkthrough() returns (finalScore: nat, total: nat, finished: bool, restarted: bool)
    ensures finalScore == 2 && total == 1 && finished && !restarted
  {
    var quiz := new QuizSession([Question("q", ["a", "b"], 0, "e")]);
    var r := quiz.Submit(Some("a"));
    r := quiz.Submit(Some("a"));
    var moved := quiz.Advance();
    finalScore, total, finished := quiz.score, |quiz.questions|, !InProgress(quiz.questions, quiz.Snapshot());
    restarted := quiz.Restart();
  }

  /** The same presses with the guarded submission score the question once, and
      the completion page then offers the restart. */
  method GuardedWalkthrough() returns (finalScore: nat, total: nat, finished: bool, restarted: bool)
    ensures finalScore == 1 && total == 1 && finished && restarted
  {
    var quiz := new QuizSession([Question("q", ["a", "b"], 0, "e")]);
    var r := quiz.SubmitOnce(Some("a"));
    r := quiz.SubmitOnce(Some("a"));
    var moved := quiz.Advance();
    finalScore, total, finished := quiz.score, |quiz.questions|, !InProgress(quiz.questions, quiz.Snapshot());
    restarted := quiz.Restart();
  }
}
