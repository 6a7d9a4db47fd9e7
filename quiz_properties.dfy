/** What the session state machine guarantees: the reachable-state
    invariant, the guards on each intent, scoring at most once per
    question, the reset, and whole play-throughs. */
module QuizProperties {
  import opened QuizData
  import opened QuizMachine

  // ---------------------------------------------------------------------
  // The invariant

  lemma InitialSatisfiesInv(quiz: seq<Question>)
    ensures Inv(quiz, Initial())
    ensures PhaseOf(quiz, Initial()) == if |quiz| == 0 then NoData else Answering
  {
  }

  lemma StepPreservesInv(quiz: seq<Question>, s: SessionState, i: Intent)
    requires Inv(quiz, s)
    ensures Inv(quiz, Step(quiz, s, i).next)
  {
  }

  lemma {:induction false} RunPreservesInv(quiz: seq<Question>, s: SessionState, trace: seq<Intent>)
    requires Inv(quiz, s)
    ensures Inv(quiz, Run(quiz, s, trace))
    decreases |trace|
  {
    if trace != [] {
      StepPreservesInv(quiz, s, trace[0]);
      RunPreservesInv(quiz, Step(quiz, s, trace[0]).next, trace[1..]);
    }
  }

  /** Every state reachable from a fresh session keeps the index within
      the question set and the score within the questions taken. */
  lemma ReachableBounds(quiz: seq<Question>, trace: seq<Intent>)
    ensures var r := Run(quiz, Initial(), trace);
      r.currentQ <= |quiz| && r.score <= Progress(r) <= |quiz|
  {
    InitialSatisfiesInv(quiz);
    RunPreservesInv(quiz, Initial(), trace);
  }

  /** On the question screen the lookup of the current question is in
      bounds, and on the completion screen every question has been taken,
      there is at least one, and the score is at most their number. */
  lemma PhaseFacts(quiz: seq<Question>, s: SessionState)
    requires Inv(quiz, s)
    ensures InProgress(PhaseOf(quiz, s)) <==> 0 <= s.currentQ < |quiz|
    ensures PhaseOf(quiz, s) == Completed <==> 1 <= |quiz| <= s.currentQ
    ensures PhaseOf(quiz, s) == Completed ==>
      s.currentQ == |quiz| && !s.answered && s.score <= |quiz|
    ensures PhaseOf(quiz, s) == NoData <==> |quiz| == 0
  {
  }

  /** While the explanation is on screen the score may be one ahead of the
      index: the bound is the questions taken, not the index alone. */
  lemma ScoreCanLeadIndex(q: Question)
    requires q.answer != ""
    ensures var r := Submit([q], Initial(), Some(q.answer));
      r.response == Correct && r.next.score == 1 > r.next.currentQ == 0
  {
  }

  // ---------------------------------------------------------------------
  // Guards

  /** With no questions nothing the page offers changes the session. */
  lemma {:induction false} NoDataIsInert(quiz: seq<Question>, s: SessionState, trace: seq<Intent>)
    requires |quiz| == 0
    ensures Run(quiz, s, trace) == s
    decreases |trace|
  {
    if trace != [] {
      assert Step(quiz, s, trace[0]).next == s;
      NoDataIsInert(quiz, s, trace[1..]);
    }
  }

  /** A second submit before advancing is not offered and changes nothing,
      so an answered question cannot score again. */
  lemma SubmitTwiceIsNoOp(quiz: seq<Question>, s: SessionState, first: Option<string>, second: Option<string>)
    requires !Rejected(Submit(quiz, s, first).response)
    ensures var t := Submit(quiz, s, first).next;
      Submit(quiz, t, second) == Outcome(t, NotOffered)
  {
  }

  /** The next-question button is not offered before the current question
      is answered. */
  lemma CannotAdvanceUnanswered(quiz: seq<Question>, s: SessionState)
    requires PhaseOf(quiz, s) == Answering
    ensures Advance(quiz, s) == Outcome(s, NotOffered)
  {
  }

  /** A question whose answer is not among its options can never be
      answered correctly through the radio group. */
  lemma UnlistedAnswerNeverScores(quiz: seq<Question>, s: SessionState, c: string)
    requires InProgress(PhaseOf(quiz, s))
    requires Offers(quiz[s.currentQ], c)
    requires !Offers(quiz[s.currentQ], quiz[s.currentQ].answer)
    ensures Submit(quiz, s, Some(c)).response != Correct
    ensures Submit(quiz, s, Some(c)).next.score == s.score
  {
  }

  // ---------------------------------------------------------------------
  // Scoring within a play-through

  /** Without a reset the index and the score never decrease, the score
      grows by exactly the number of correct answers, and that number never
      exceeds the number of questions taken meanwhile. */
  lemma {:induction false} ScoreTracksCorrectAnswers(quiz: seq<Question>, s: SessionState, trace: seq<Intent>)
    requires NoReset(trace)
    ensures var r := Run(quiz, s, trace);
      && s.currentQ <= r.currentQ
      && Progress(s) <= Progress(r)
      && r.score == s.score + CorrectCount(quiz, s, trace)
      && CorrectCount(quiz, s, trace) <= Progress(r) - Progress(s)
    decreases |trace|
  {
    if trace != [] {
      var o := Step(quiz, s, trace[0]);
      assert NoReset(trace[1..]) by {
        forall k | 0 <= k < |trace[1..]| ensures !trace[1..][k].SaveScore? {
          assert trace[1..][k] == trace[k + 1];
        }
      }
      ScoreTracksCorrectAnswers(quiz, o.next, trace[1..]);
    }
  }

  /** Two page runs in a row. */
  lemma RunTwo(quiz: seq<Question>, s: SessionState, x: Intent, y: Intent)
    ensures Run(quiz, s, [x, y]) == Step(quiz, Step(quiz, s, x).next, y).next
  {
    var s1 := Step(quiz, s, x).next;
    assert [x, y][1..] == [y];
    assert Run(quiz, s, [x, y]) == Run(quiz, s1, [y]);
    assert [y][1..] == [];
    assert Run(quiz, s1, [y]) == Run(quiz, Step(quiz, s1, y).next, []);
  }

  // ---------------------------------------------------------------------
  // Reset

  /** Save-and-reset on the completion screen writes the final score and
      the number of questions under the chosen nickname, and zeroes the
      session whether or not the insert went through. From a state that
      satisfies the invariant the record never claims more points than
      questions. */
  lemma ResetRestoresInitial(quiz: seq<Question>, s: SessionState, entered: Option<string>, insertOk: bool)
    requires PhaseOf(quiz, s) == Completed
    ensures var o := SaveAndReset(quiz, s, entered, insertOk);
      && o.next == Initial()
      && (if insertOk then o.response.Saved? else o.response.SaveFailed?)
      && o.response.record.score == s.score
      && o.response.record.totalQuestions == |quiz| >= 1
      && o.response.record.username == (if entered.None? then "名無しさん" else entered.value)
      && (Inv(quiz, s) ==> o.response.record.score <= o.response.record.totalQuestions)
  {
    if Inv(quiz, s) {
      PhaseFacts(quiz, s);
    }
  }

  /** After a reset the question screen comes back, so a second reset is
      not offered and the session stays zeroed. */
  lemma ResetIsIdempotent(quiz: seq<Question>, s: SessionState, e1: Option<string>, ok1: bool, e2: Option<string>, ok2: bool)
    requires PhaseOf(quiz, s) == Completed
    ensures Run(quiz, s, [SaveScore(e1, ok1), SaveScore(e2, ok2)]) == Initial()
    ensures PhaseOf(quiz, Initial()) == Answering
  {
    RunTwo(quiz, s, SaveScore(e1, ok1), SaveScore(e2, ok2));
  }

  // ---------------------------------------------------------------------
  // Whole play-throughs

  lemma {:induction false} RunAppend(quiz: seq<Question>, s: SessionState, a: seq<Intent>, b: seq<Intent>)
    ensures Run(quiz, s, a + b) == Run(quiz, Run(quiz, s, a), b)
    decreases |a|
  {
    if a == [] {
      assert a + b == b;
    } else {
      assert (a + b)[0] == a[0];
      assert (a + b)[1..] == a[1..] + b;
      RunAppend(quiz, Step(quiz, s, a[0]).next, a[1..], b);
    }
  }

  /** The intents of answering each question in turn with the given
      option and moving on. */
  function PlayTrace(answers: seq<string>): (t: seq<Intent>)
    ensures |t| == 2 * |answers|
    ensures NoReset(t)
  {
    if answers == [] then []
    else [SubmitAnswer(Some(answers[0])), NextQuestion] + PlayTrace(answers[1..])
  }

  /** How many of the given answers match the questions' answers. */
  function MatchCount(questions: seq<Question>, answers: seq<string>): (n: nat)
    requires |answers| <= |questions|
    ensures n <= |answers|
  {
    if answers == [] then 0
    else (if answers[0] == questions[0].answer then 1 else 0) + MatchCount(questions[1..], answers[1..])
  }

  lemma {:induction false} PlayFrom(quiz: seq<Question>, k: nat, sc: nat, answers: seq<string>)
    requires k + |answers| <= |quiz|
    requires forall j :: 0 <= j < |answers| ==> answers[j] != "" && Offers(quiz[k + j], answers[j])
    ensures Run(quiz, SessionState(k, sc, false), PlayTrace(answers)) ==
      SessionState(k + |answers|, sc + MatchCount(quiz[k..k + |answers|], answers), false)
    decreases |answers|
  {
    var n := |answers|;
    if n > 0 {
      var s := SessionState(k, sc, false);
      var head := [SubmitAnswer(Some(answers[0])), NextQuestion];
      var point := if answers[0] == quiz[k].answer then 1 else 0;
      var mid := SessionState(k + 1, sc + point, false);
      RunTwo(quiz, s, head[0], head[1]);
      assert Run(quiz, s, head) == mid;
      RunAppend(quiz, s, head, PlayTrace(answers[1..]));
      assert forall j :: 0 <= j < |answers[1..]| ==> answers[1..][j] == answers[j + 1];
      PlayFrom(quiz, k + 1, sc + point, answers[1..]);
      assert quiz[k..k + n][1..] == quiz[k + 1..k + 1 + |answers[1..]|];
    }
  }

  /** Answering every question of a non-empty set and moving on reaches the
      completion screen with the number of matching answers as the score;
      with one question, one submit and one advance suffice. */
  lemma FullPlayThrough(quiz: seq<Question>, answers: seq<string>)
    requires |quiz| >= 1 && |answers| == |quiz|
    requires forall j :: 0 <= j < |answers| ==> answers[j] != "" && Offers(quiz[j], answers[j])
    ensures var r := Run(quiz, Initial(), PlayTrace(answers));
      && PhaseOf(quiz, r) == Completed
      && r.currentQ == |quiz|
      && r.score == MatchCount(quiz, answers) <= |quiz|
  {
    PlayFrom(quiz, 0, 0, answers);
    assert quiz[0..|answers|] == quiz;
  }

  /** A one-question quiz: the choice scores one point exactly when it is
      the answer, and the session is then complete. */
  lemma SingleQuestion(quiz: seq<Question>, c: string)
    requires |quiz| == 1 && c != "" && Offers(quiz[0], c)
    ensures Run(quiz, Initial(), [SubmitAnswer(Some(c)), NextQuestion]) ==
      SessionState(1, if c == quiz[0].answer then 1 else 0, false)
    ensures PhaseOf(quiz, Run(quiz, Initial(), [SubmitAnswer(Some(c)), NextQuestion])) == Completed
  {
    RunTwo(quiz, Initial(), SubmitAnswer(Some(c)), NextQuestion);
  }
}
