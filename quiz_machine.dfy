/** The quiz session as a state machine over values: the three session
    variables, the branch the page renders for them, and one step function
    per user intent. The class in QuizSession performs these steps in
    place; the lemmas in QuizProperties are stated over them. */
module QuizMachine {
  import opened QuizData

  /** The three session variables `current_q`, `score` and `answered`. */
  datatype SessionState = SessionState(currentQ: nat, score: nat, answered: bool)

  /** The variables as a fresh session initialises them. */
  function Initial(): (s: SessionState)
  {
    SessionState(0, 0, false)
  }

  /** The branch of the page: no data, the completion screen, or the
      question screen either waiting for an answer or showing the
      explanation. */
  datatype Phase = NoData | Completed | Answering | Reviewing

  function PhaseOf(quiz: seq<Question>, s: SessionState): (p: Phase)
  {
    if |quiz| == 0 then NoData
    else if s.currentQ >= |quiz| then Completed
    else if !s.answered then Answering
    else Reviewing
  }

  predicate InProgress(p: Phase)
  {
    p == Answering || p == Reviewing
  }

  /** The question the question screen shows. */
  function CurrentQuestion(quiz: seq<Question>, s: SessionState): (q: Question)
    requires InProgress(PhaseOf(quiz, s))
    ensures q in quiz
  {
    quiz[s.currentQ]
  }

  /** Questions taken or being taken: the index, plus one while the
      current question's explanation is on screen. */
  function Progress(s: SessionState): (n: nat)
  {
    s.currentQ + if s.answered then 1 else 0
  }

  /** The invariant of every state a session can reach: the index never
      passes the end, an answered question is a real question, and the
      score never exceeds the number of questions taken. */
  predicate Inv(quiz: seq<Question>, s: SessionState)
  {
    && s.currentQ <= |quiz|
    && (s.answered ==> s.currentQ < |quiz|)
    && s.score <= Progress(s)
  }

  /** What the page reports back for an intent. `NotOffered` stands for an
      intent whose button is not on the page in the current branch. */
  datatype Response =
    | NotOffered
    | NoSelection
    | Correct
    | Incorrect(expected: string)
    | Advanced
    | Saved(record: ScoreRecord)
    | SaveFailed(record: ScoreRecord)

  predicate Rejected(r: Response)
  {
    r == NotOffered || r == NoSelection
  }

  datatype Outcome = Outcome(next: SessionState, response: Response)

  /** Pressing the confirm button with the radio group's value `choice`. */
  function Submit(quiz: seq<Question>, s: SessionState, choice: Option<string>): (o: Outcome)
    ensures o.response == NotOffered <==> PhaseOf(quiz, s) != Answering
    ensures o.response == NoSelection <==> PhaseOf(quiz, s) == Answering && !IsSelection(choice)
    ensures o.response == Correct <==>
      PhaseOf(quiz, s) == Answering && IsSelection(choice) && choice.value == quiz[s.currentQ].answer
    ensures o.response.Incorrect? <==>
      PhaseOf(quiz, s) == Answering && IsSelection(choice) && choice.value != quiz[s.currentQ].answer
    ensures o.response.Incorrect? ==> o.response.expected == quiz[s.currentQ].answer
    ensures Rejected(o.response) ==> o.next == s
    ensures !Rejected(o.response) ==>
      o.next.answered && o.next.currentQ == s.currentQ &&
      o.next.score == s.score + (if o.response == Correct then 1 else 0)
  {
    if PhaseOf(quiz, s) != Answering then Outcome(s, NotOffered)
    else if !IsSelection(choice) then Outcome(s, NoSelection)
    else
      var q := quiz[s.currentQ];
      if choice.value == q.answer then Outcome(s.(answered := true, score := s.score + 1), Correct)
      else Outcome(s.(answered := true), Incorrect(q.answer))
  }

  /** Pressing the next-question button. */
  function Advance(quiz: seq<Question>, s: SessionState): (o: Outcome)
    ensures o.response == NotOffered <==> PhaseOf(quiz, s) != Reviewing
    ensures o.response == NotOffered || o.response == Advanced
    ensures o.response == NotOffered ==> o.next == s
    ensures o.response == Advanced ==>
      o.next.currentQ == s.currentQ + 1 && o.next.score == s.score && !o.next.answered
  {
    if PhaseOf(quiz, s) != Reviewing then Outcome(s, NotOffered)
    else Outcome(SessionState(s.currentQ + 1, s.score, false), Advanced)
  }

  /** Pressing the save-and-reset button on the completion screen, with the
      nickname field's value `entered`; `insertOk` says whether the insert
      into the score table went through or raised. */
  function SaveAndReset(quiz: seq<Question>, s: SessionState, entered: Option<string>, insertOk: bool): (o: Outcome)
    ensures o.response == NotOffered <==> PhaseOf(quiz, s) != Completed
    ensures o.response == NotOffered ==> o.next == s
    ensures o.response != NotOffered ==> o.next == Initial()
    ensures o.response.Saved? <==> PhaseOf(quiz, s) == Completed && insertOk
    ensures o.response.SaveFailed? <==> PhaseOf(quiz, s) == Completed && !insertOk
    ensures o.response.Saved? || o.response.SaveFailed? ==>
      o.response.record == ScoreRecord(Username(entered), s.score, |quiz|)
  {
    if PhaseOf(quiz, s) != Completed then Outcome(s, NotOffered)
    else
      var rec := MakeRecord(entered, s.score, |quiz|);
      Outcome(Initial(), if insertOk then Saved(rec) else SaveFailed(rec))
  }

  /** The three intents the page offers. */
  datatype Intent =
    | SubmitAnswer(choice: Option<string>)
    | NextQuestion
    | SaveScore(entered: Option<string>, insertOk: bool)

  function Step(quiz: seq<Question>, s: SessionState, i: Intent): (o: Outcome)
  {
    match i
    case SubmitAnswer(choice) => Submit(quiz, s, choice)
    case NextQuestion => Advance(quiz, s)
    case SaveScore(entered, insertOk) => SaveAndReset(quiz, s, entered, insertOk)
  }

  /** The session after a sequence of intents, one page run each. */
  function Run(quiz: seq<Question>, s: SessionState, trace: seq<Intent>): (r: SessionState)
    decreases |trace|
  {
    if trace == [] then s else Run(quiz, Step(quiz, s, trace[0]).next, trace[1..])
  }

  /** How many intents along the run were answered correctly. */
  function CorrectCount(quiz: seq<Question>, s: SessionState, trace: seq<Intent>): (n: nat)
    decreases |trace|
  {
    if trace == [] then 0
    else
      var o := Step(quiz, s, trace[0]);
      (if o.response == Correct then 1 else 0) + CorrectCount(quiz, o.next, trace[1..])
  }

  predicate NoReset(trace: seq<Intent>)
  {
    forall k :: 0 <= k < |trace| ==> !trace[k].SaveScore?
  }
}
