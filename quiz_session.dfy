/** The session object the page mutates on every run: the three session
    variables as fields, updated in place by the three intents. Each
    method's new state is the corresponding step of QuizMachine applied to
    the old one, so the lemmas of QuizProperties apply to it. */
module QuizSession {
  import opened QuizData
  import opened QuizMachine

  class Session {
    /** The question set the session plays through; it does not change
        during a play-through. */
    const quiz: seq<Question>
    var currentQ: nat
    var score: nat
    var answered: bool

    function State(): (s: SessionState)
      reads this
    {
      SessionState(currentQ, score, answered)
    }

    ghost predicate Valid()
      reads this
    {
      Inv(quiz, State())
    }

    /** Initialisation of a fresh session. */
    constructor (quiz: seq<Question>)
      ensures this.quiz == quiz
      ensures currentQ == 0 && score == 0 && !answered
      ensures State() == Initial() && Valid()
    {
      this.quiz := quiz;
      currentQ := 0;
      score := 0;
      answered := false;
    }

    /** The branch the page renders for the current state. */
    method Phase() returns (p: Phase)
      ensures p == PhaseOf(quiz, State())
      ensures p == NoData <==> |quiz| == 0
      ensures p == Completed <==> 0 < |quiz| <= currentQ
      ensures InProgress(p) <==> currentQ < |quiz|
      ensures p == Reviewing <==> currentQ < |quiz| && answered
    {
      p := PhaseOf(quiz, State());
    }

    /** The question shown on the question screen. */
    method Current() returns (q: Question)
      requires InProgress(PhaseOf(quiz, State()))
      ensures q == quiz[currentQ] && q == CurrentQuestion(quiz, State())
    {
      q := quiz[currentQ];
    }

    /** The confirm button, pressed with the radio group's value. */
    method SubmitAnswer(choice: Option<string>) returns (r: Response)
      requires Valid()
      modifies this
      ensures Valid()
      ensures Outcome(State(), r) == Submit(quiz, old(State()), choice)
      ensures currentQ == old(currentQ)
      ensures Rejected(r) ==> score == old(score) && answered == old(answered)
      ensures !Rejected(r) ==> !old(answered) && answered
      ensures score == old(score) + (if r == Correct then 1 else 0)
    {
      var p := Phase();
      if p != Answering {
        r := NotOffered;
        return;
      }
      var q := quiz[currentQ];
      if IsSelection(choice) {
        answered := true;
        if choice.value == q.answer {
          score := score + 1;
          r := Correct;
        } else {
          r := Incorrect(q.answer);
        }
      } else {
        r := NoSelection;
      }
    }

    /** The next-question button. */
    method Advance() returns (r: Response)
      requires Valid()
      modifies this
      ensures Valid()
      ensures Outcome(State(), r) == QuizMachine.Advance(quiz, old(State()))
      ensures r == Advanced <==> old(answered) && old(currentQ) < |quiz|
      ensures r == Advanced ==> currentQ == old(currentQ) + 1 && !answered
      ensures r != Advanced ==> currentQ == old(currentQ) && answered == old(answered)
      ensures score == old(score)
    {
      var p := Phase();
      if p != Reviewing {
        r := NotOffered;
        return;
      }
      currentQ := currentQ + 1;
      answered := false;
      r := Advanced;
    }

    /** The save-and-reset button on the completion screen, with the
        nickname field's value; `insertOk` is whether the insert into the
        score table succeeded or raised. */
    method SaveAndReset(entered: Option<string>, insertOk: bool) returns (r: Response)
      requires Valid()
      modifies this
      ensures Valid()
      ensures Outcome(State(), r) == QuizMachine.SaveAndReset(quiz, old(State()), entered, insertOk)
      ensures r != NotOffered ==> currentQ == 0 && score == 0 && !answered
      ensures r != NotOffered ==>
        r.record == ScoreRecord(Username(entered), old(score), |quiz|)
      ensures r != NotOffered ==> r.record.score <= r.record.totalQuestions
      ensures r == NotOffered ==> State() == old(State())
    {
      var p := Phase();
      if p != Completed {
        r := NotOffered;
        return;
      }
      var finalScore := score;
      var total := |quiz|;
      var record := MakeRecord(entered, finalScore, total);
      if insertOk {
        r := Saved(record);
      } else {
        r := SaveFailed(record);
      }
      currentQ := 0;
      score := 0;
      answered := false;
    }
  }

  /** A one-question play-through on the session object: answering with
      the correct option scores one, and after advancing the session is on
      the completion screen; saving then zeroes it even if the insert fails. */
  method OneQuestionScenario(q: Question) returns (saved: Response, final: SessionState)
    requires q.answer != "" && Offers(q, q.answer)
    ensures saved == SaveFailed(ScoreRecord("名無しさん", 1, 1))
    ensures final == SessionState(0, 0, false)
  {
    var session := new Session([q]);
    var r := session.SubmitAnswer(Some(q.answer));
    assert r == Correct && session.score == 1;
    r := session.Advance();
    assert r == Advanced && session.currentQ == 1;
    var p := session.Phase();
    assert p == Completed;
    saved := session.SaveAndReset(None, false);
    final := session.State();
  }
}
