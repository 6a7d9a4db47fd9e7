/** The values the quiz works on: question records as they come from the
    question table, the optional widget values the user supplies, and the
    score record written on completion. */
module QuizData {

  datatype Option<+T> = None | Some(value: T)

  /** One row of the question table. The order of a question set is the
      order of `id`; nothing here relies on the ids themselves. */
  datatype Question = Question(
    id: int,
    question: string,
    options: seq<string>,
    answer: string,
    explanation: string)

  /** The record inserted into the score table by save-and-reset. */
  datatype ScoreRecord = ScoreRecord(username: string, score: nat, totalQuestions: nat)

  /** The prefilled value of the nickname field. */
  const DefaultUsername: string := "名無しさん"

  /** The radio group starts with nothing selected (`None`); a selected
      option is a string, and the guard `if choice:` treats both `None`
      and the empty string as "nothing chosen". */
  predicate IsSelection(choice: Option<string>)
  {
    choice.Some? && choice.value != ""
  }

  /** The radio group of a question returns one of its options. */
  predicate Offers(q: Question, option: string)
  {
    option in q.options
  }

  /** The nickname the user ends up with: the prefilled default when the
      field was never edited, otherwise exactly what was typed (even an
      empty string, which the source passes on unchanged). */
  function Username(entered: Option<string>): (name: string)
  {
    match entered
    case None => DefaultUsername
    case Some(typed) => typed
  }

  /** The payload built by save-and-reset from the final score and the
      size of the question set. */
  function MakeRecord(entered: Option<string>, finalScore: nat, total: nat): (rec: ScoreRecord)
  {
    ScoreRecord(Username(entered), finalScore, total)
  }
}
