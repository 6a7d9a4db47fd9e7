# J-Rock & Punk quiz: the session state machine

The quiz page (`streamlit_app.py`) keeps three session variables: `current_q`, the index of the current question; `score`; and `answered`, which says whether the current question's answer has been confirmed. On every run the page picks one of three branches by comparing `current_q` with the length of the fetched question set:
- the no-data warning;
- the completion screen, which has a save-and-reset button;
- the question screen, which has a confirm button while `answered` is false and otherwise the explanation and a next-question button.

A user intent updates the variables in place.

This project models that state machine in three modules, with the lemmas about it in a fourth:

- `QuizData` has the question record, the optional widget values (radio selection, nickname field) and the score record. It also holds the default nickname `名無しさん` (`Username`), the emptiness test of `if choice:` (`IsSelection`) and what the radio group can return (`Offers`).
- `QuizMachine` has the three variables as a value (`SessionState`) and the branch selection (`PhaseOf`). It has one step function per intent (`Submit`, `Advance`, `SaveAndReset`), the trace semantics `Run`, and the reachable-state invariant `Inv`. `Initial` is the state of lines 37-42. `Inv` says the index is at most the number of questions, an answered question is a real question, and the score is at most the number of questions taken.
- `QuizSession.Session` is the mutable session object. Its fields are the three variables and its methods are the three intents, with imperative bodies. Each method's new state is proved to equal the step function applied to the old state, and each method preserves `Inv`.
- `QuizProperties` holds the lemmas. They cover the invariant over every trace, the guards (no double submit, no advance before answering, nothing at all with an empty set), scoring, the reset, and complete play-throughs. For scoring they prove the score equals the number of correct answers and never exceeds the number of questions taken. For play-throughs they prove the final score equals the number of matching answers.

A button that the current branch does not render is modelled as the response `NotOffered`, which leaves the state unchanged. So every intent can be applied in every state, and the guards are proved rather than assumed.

On the question screen the score can be one ahead of the index: after a correct answer and before advancing, `score == current_q + 1` is possible (`ScoreCanLeadIndex`). The bound the code keeps is `score <= current_q + (answered ? 1 : 0) <= len(quiz_data)`. Nothing in the code checks that `q['answer']` is among `q['options']`; `UnlistedAnswerNeverScores` shows such a question never scores through the radio group.

`Response` is the message a run writes before it reruns. Except for `NoSelection` (line 109, no rerun follows), each such message is followed at once by `st.rerun()` (lines 86, 107), and the new run does not show it again. So the user never actually sees the right answer after a wrong guess, and a failed save goes effectively unreported; the `Incorrect` and `SaveFailed` values record what the code writes, not what stays on screen.

## Model

| member | source | states |
|---|---|---|
| QuizMachine.CurrentQuestion | streamlit_app.py:89-90 | the lookup `quiz_data[current_q]` is defined only on the question screen and yields a question of the set |
| QuizMachine.Submit | streamlit_app.py:98-109 | not offered unless on the question screen with `answered` false (the branch `PhaseOf` selects); an empty or absent choice (`IsSelection` false) is rejected with the state unchanged; otherwise `answered` becomes true, the index is kept, and the score rises by one exactly when the choice equals the answer; the wrong case carries the right answer as the message the run writes before it reruns |
| QuizMachine.Advance | streamlit_app.py:110-118 | offered only while the explanation is shown; then the index rises by one, `answered` is cleared and the score is kept; otherwise nothing changes |
| QuizMachine.SaveAndReset | streamlit_app.py:68-86 | offered only on the completion screen; builds the record {nickname or the default of `Username`, final score, number of questions} and zeroes the session to `Initial` whether the insert succeeded or raised |
| QuizProperties.InitialSatisfiesInv | streamlit_app.py:37-54 | a fresh session `(0, 0, false)` satisfies the invariant and opens on the question screen, or on the no-data branch when the set is empty |
| QuizProperties.StepPreservesInv | streamlit_app.py:68-118 | every intent preserves the invariant |
| QuizProperties.RunPreservesInv | streamlit_app.py:68-118 | every sequence of intents preserves the invariant |
| QuizProperties.ReachableBounds | streamlit_app.py:37-118 | in every state reachable from a fresh session, `current_q <= len` and `score <= current_q + answered <= len` |
| QuizProperties.PhaseFacts | streamlit_app.py:49-90 | for a state satisfying the invariant: the question screen runs exactly when the index is in bounds; the completion screen runs exactly when `1 <= len <= current_q`, and there the index equals the length, `answered` is false and the score is at most the total; the no-data branch runs exactly when the set is empty |
| QuizProperties.ScoreCanLeadIndex | streamlit_app.py:98-103 | right after a correct answer to the first question the score is 1 while the index is 0 |
| QuizProperties.NoDataIsInert | streamlit_app.py:49-51 | with an empty question set no sequence of intents changes the session |
| QuizProperties.SubmitTwiceIsNoOp | streamlit_app.py:98-110 | after an accepted submit a second submit is not offered and changes nothing |
| QuizProperties.CannotAdvanceUnanswered | streamlit_app.py:98-118 | before the current question is answered the next-question button is not offered and the state is unchanged |
| QuizProperties.UnlistedAnswerNeverScores | streamlit_app.py:96-103 | when a question's answer is not among its options, no option chosen from the radio group scores |
| QuizProperties.ScoreTracksCorrectAnswers | streamlit_app.py:98-118 | along any sequence of intents without a reset, index and questions-taken never decrease, the score grows by exactly the number of correct answers, and that number is at most the number of questions taken meanwhile |
| QuizProperties.ResetRestoresInitial | streamlit_app.py:68-85 | on the completion screen save-and-reset yields `Saved` or `SaveFailed` as the insert went (the message written before the rerun), records the final score and the total (at least 1) under the typed nickname or `名無しさん`, and yields `(0, 0, false)` in both cases; from a state satisfying the invariant the record's score is at most its total |
| QuizProperties.ResetIsIdempotent | streamlit_app.py:54-85 | two save-and-reset presses from the completion screen leave the zeroed state; the second is not offered because the question screen is back |
| QuizProperties.PlayFrom | streamlit_app.py:89-118 | answering the next k questions, each with a non-empty string among that question's options, and advancing after each moves the index by k and adds the number of matching answers to the score |
| QuizProperties.FullPlayThrough | streamlit_app.py:54-118 | answering every question of a non-empty set with one of its non-empty options reaches the completion screen with `current_q == len` and the score equal to the number of matching answers, at most `len` |
| QuizProperties.SingleQuestion | streamlit_app.py:54-118 | with one question, one submit of a non-empty option and one advance reach the completion screen, with score 1 exactly when the choice was the answer |
| QuizSession.Session.constructor | streamlit_app.py:37-42 | a new session has `current_q = 0`, `score = 0`, `answered = false` and satisfies the invariant |
| QuizSession.Session.Phase | streamlit_app.py:49-98 | returns the branch `PhaseOf` selects: no data exactly for an empty set, completion exactly when `0 < len <= current_q`, the question screen otherwise, reviewing exactly when `answered` |
| QuizSession.Session.Current | streamlit_app.py:89-90 | on the question screen returns `quiz_data[current_q]` |
| QuizSession.Session.SubmitAnswer | streamlit_app.py:98-109 | updates the fields as `QuizMachine.Submit` does: the index is kept, the score rises by one exactly on a correct answer, an accepted submit turns `answered` from false to true, a rejected one changes nothing; keeps the invariant |
| QuizSession.Session.Advance | streamlit_app.py:110-118 | updates the fields as `QuizMachine.Advance` does: advances exactly when answered and in bounds, the score is kept, otherwise nothing changes; keeps the invariant |
| QuizSession.Session.SaveAndReset | streamlit_app.py:68-86 | updates the fields as `QuizMachine.SaveAndReset` does: on the completion screen returns the record {nickname, old score, total}, whose score is at most its total, and zeroes all three fields; elsewhere changes nothing; keeps the invariant |
| QuizSession.OneQuestionScenario | streamlit_app.py:37-86 | on the session object, a one-question quiz whose answer is one of its options, answered correctly, advanced and saved under the default nickname with a failing insert reports the record (`名無しさん`, 1, 1) and ends zeroed |

## Left out

- Connecting to the database and reading its secrets (`streamlit_app.py:9-19`): this is external configuration and a foreign client library.
- Fetching the question set and its 600-second cache (`streamlit_app.py:22-34`): this is network I/O plus framework caching. The question set is a fixed parameter of the session. A failed fetch is the empty set, and `NoDataIsInert` covers that case.
- Refreshing the cache during a play-through: this is not modelled. The source reads the data again on every run, so the set's length could change mid-play, but the model keeps one set per session.
- The insert into the score table (`streamlit_app.py:73-77`): its outcome is the parameter `insertOk`. A missing client raises inside the same `try`, so it is the `insertOk = false` case.
- Rendering: titles, radio buttons, balloons, metrics, the explanation box and the sidebar are left out. `Response` is the message a run writes before it reruns.
- The rerun after a submit or a save (`streamlit_app.py:86,107`): it discards the message just written, so the right answer after a wrong guess and a failed insert are never shown to the user. The model keeps those messages in `Response` and does not model their disappearance.
- Widget state: the radio value and the nickname are parameters of the intents. The widgets' own memory across runs, including the radio's key per question `id`, is not modelled.
- `QuizMachine.Submit`: the radio value is not limited to the current question's options, since the step accepts any string. The play-through lemmas (`PlayFrom`, `FullPlayThrough`, `SingleQuestion`, `OneQuestionScenario`) require the chosen strings to be options (`Offers`), as the radio group guarantees (`streamlit_app.py:96`).
- The accuracy percentage and the progress bar (`streamlit_app.py:62,123-124`): these are floating-point values and are left out. Their integer bounds (`score <= total`, `current_q <= len`) are in `PhaseFacts` and `ReachableBounds`.
- `Question.id` ordering: the set is taken in the order it was fetched, and nothing in the state machine depends on the ids.
