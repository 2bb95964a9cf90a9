# Ancient Tales: the quiz session state machine

Ancient Tales is an illustrated quiz game. A player picks a character on the
menu and then moves through six more pages in order: the seacoast (two
questions about children's games), the ship intro (eight crew members shown
one at a time), the diving process (five steps), the pearl game (four timed
questions), the ship quiz (five questions) and the summary. The summary's
"Play Again" button returns to the menu. The game keeps nine session fields:
`page`, `character`, `score`, `hearts`, `start_time`, `crew_index`,
`diving_step`, `pearl_index` and `ship_question_index`. Each button press
reads and updates them.

This project models that state machine in four modules:

- `content.dfy` (module `Content`): the five constant tables, copied entry
  for entry, and the answer keys derived from them.
- `adventure.dfy` (module `Adventure`): the session as a value (`State`), one
  `Event` per button and the total transition function `Step`. A button that
  is not on the current page does nothing, because only the current page's
  buttons are drawn. `Step`'s contract states when a press changes the
  session, the scoring rule, that the page moves at most one step along the
  scene cycle, and that the invariant `Inv` of reachable sessions is kept.
- `sessions.dfy` (module `Sessions`): class `Session` holds the nine fields
  and has one method per button. The methods update the fields in place, as
  the program does. Each one is proved to leave the object exactly where
  `Step` takes its snapshot.
- `properties.dfy` (module `Properties`): lemmas about runs of presses. Every
  reachable session keeps the invariant. The score never drops without Play
  Again. There are walk lemmas for the crew, the diving steps and the two
  quizzes. No cursor moves back before Play Again. The full correct
  playthrough scores 2 + 4 + 5 = 11.

Inputs the program gets from the outside become parameters:

- the option selected on a radio is the `choice` string of a submit event;
- the clock is an integer number of seconds. It is carried by the `Next`
  event, because the last diving step's "Next" is the only button handler
  that reads it (for `start_time`); the reading at session creation (:51)
  is the argument of `Initial` and of the `Session` constructor;
- elapsed time for the pearl game's countdown is an integer argument of
  `Remaining`.

The model follows the code, including these behaviours:

- Leaving the ship intro does not reset `crew_index`. It stays at 7 until
  Play Again (`PhaseCursors`, `CrewWalk`).
- Play Again does not touch `start_time` (`PlayAgainResets`).
- Seacoast answers can be submitted again and again, and each correct
  submission scores again (`SeacoastResubmit`). There is no "at most once
  per question" rule there.
- `hearts` is never decremented. It is 4 in every reachable session
  (`Reachable`).

## Model

| member | source | states |
|---|---|---|
| Adventure.Step | ancient_tales.py:76-257 | A press changes the session exactly when its button is drawn on the current page, except a wrong seacoast answer, which changes nothing. The score becomes 0 on Play Again from the summary, rises by exactly 1 when the choice equals the designated answer of the question the button belongs to, and otherwise stays the same. The page stays or moves to its successor in the scene cycle. The reachable-session invariant is kept. |
| Adventure.Initial | ancient_tales.py:47-55 | The defaults of a new session satisfy the invariant, keep the clock reading of creation as `start_time`, and draw exactly the character buttons. |
| Adventure.RemainingTime | ancient_tales.py:189-190 | The pearl page's countdown at clock reading now is the time left until `start_time` + 120, and 0 once that moment has passed. It is never negative, and at most 120 when `start_time` is not in the future. |
| Adventure.Remaining | ancient_tales.py:189-190 | Remaining time is max(0, 120 - elapsed): never negative, at least 120 - elapsed, equal to one of the two, and at most 120 when elapsed is not negative. |
| Content.AnswerKey | ancient_tales.py:216-222 | The answer key of a question list has one entry per question, and entry i is question i's designated answer. |
| Content.Questions | ancient_tales.py:183-188 | The questions of the pearl table, without their pictures: one per pearl entry, in order. The pearl answer key is `AnswerKey` of them. |
| Content.TablesWellFormed | ancient_tales.py:103-222 | The tables have 2 seacoast questions, 8 crew members, 5 diving steps, 4 pearl questions and 5 ship questions. Every designated answer is one of the options on its radio. The pearl answer key is Sakaria, Danah, Yaqooti, Qimashi. The ship answer key is Captain / Chief, Motivator and singer, Skuni, Pearl diving trips, Communication / morale. |
| Properties.Matches | ancient_tales.py:200-206 | The number of choices that equal the answer at the same position is at most the number of questions. It equals that number exactly when every choice is right. |
| Properties.InitialInv | ancient_tales.py:47-55 | A fresh session is on the menu with no character, score 0, 4 hearts and all four cursors at 0, and it satisfies the invariant. |
| Properties.RunAppend | ancient_tales.py:60-257 | Pressing the buttons of a + b is pressing those of a, then those of b. |
| Properties.RunInv | ancient_tales.py:47-257 | Every press keeps the invariant: hearts at 4, a character chosen exactly off the menu, `crew_index < 8`, `diving_step < 5`, `pearl_index <= 4`, `ship_question_index <= 5`, and the cursors in step with the page. |
| Properties.Reachable | ancient_tales.py:50-257 | In every session reached from the defaults, hearts is 4 and the cursor bounds hold. |
| Properties.ScoreMonotone | ancient_tales.py:107-257 | Without Play Again, the score after any sequence of presses is at least the score before and at most the score before plus the number of presses. |
| Properties.StepCursorsMonotone | ancient_tales.py:146-234 | In a session satisfying the invariant, no press other than Play Again lowers `crew_index`, `diving_step`, `pearl_index` or `ship_question_index`. The resets to 0 when the diving steps, the pearl game and the ship quiz begin hit only cursors still at 0. |
| Properties.RunCursorsMonotone | ancient_tales.py:146-234 | Over any sequence of presses without Play Again from a session satisfying the invariant, each of the four cursors ends at least where it started. |
| Properties.ButtonPages | ancient_tales.py:78-249 | `ButtonShown` draws each button on its own page only: the character buttons on the menu, the seacoast submits and "Proceed to Ship" on the seacoast, "Next" on the crew and diving pages, "Submit Answer" while a quiz has questions left, "Proceed to Ship Quiz" and "Finish Adventure" once it has none, and "Play Again" on the summary. |
| Properties.NoDeadEnd | ancient_tales.py:76-257 | Every page draws some button whose press changes the session. |
| Properties.MenuSelection | ancient_tales.py:76-84 | A character button on the menu sets the character, moves to the seacoast and changes no other field. |
| Properties.SeacoastResubmit | ancient_tales.py:107-117 | n correct submissions of the same seacoast question add n points and change neither the page nor any cursor. |
| Properties.SubmitAdvances | ancient_tales.py:192-234 | A drawn "Submit Answer" in the pearl game or the ship quiz keeps the page and advances that quiz's cursor by exactly 1, right or wrong. The other quiz's cursor does not move. |
| Properties.ExhaustedSubmitIsNoOp | ancient_tales.py:192-210 | Once a quiz cursor reaches its table's end, "Submit Answer" changes nothing. |
| Properties.CrewWalk | ancient_tales.py:139-151 | From crew entry k, 8 - k presses of "Next" reach the diving process at step 0 with `crew_index` left at 7, and change nothing else. |
| Properties.DivingWalk | ancient_tales.py:164-177 | From diving step k, 5 - k presses of "Next" reach the pearl game with hearts 4, `pearl_index` 0 and `start_time` set to the clock of the last press. Nothing else changes. |
| Properties.PearlSubmitStep | ancient_tales.py:192-206 | A pearl submit earns a point exactly when the choice is the answer key's entry for the current question, and it always moves to the next question. Nothing else changes. |
| Properties.ShipSubmitStep | ancient_tales.py:224-234 | A ship-quiz submit earns a point exactly when the choice is the answer key's entry for the current question, and it always moves to the next question. Nothing else changes. |
| Properties.PearlWalk | ancient_tales.py:191-206 | Answering the remaining pearl questions leaves `pearl_index` at 4 and adds one point per choice that matches the answer key. Nothing else changes. |
| Properties.ShipWalk | ancient_tales.py:223-234 | Answering the remaining ship questions leaves `ship_question_index` at 5 and adds one point per choice that matches the answer key. Nothing else changes. |
| Properties.MixedPearlAnswers | ancient_tales.py:184-206 | Answering the first pearl question right ("Sakaria") and the second with any choice other than its answer adds exactly one point and leaves `pearl_index` at 2. |
| Properties.PerfectOpeningScore | ancient_tales.py:78-117 | Choosing a character, answering each seacoast question once correctly and proceeding reaches the ship intro with score 2 and all cursors at 0. |
| Properties.PerfectPearlsScore | ancient_tales.py:183-211 | From the first pearl question, answering every pearl question correctly and proceeding adds 4 points and reaches the ship quiz with `pearl_index` at 4. |
| Properties.PerfectQuizzesScore | ancient_tales.py:183-237 | From the first pearl question, answering every pearl and ship question correctly, with the two proceed buttons between, adds 4 + 5 points and reaches the summary with the quiz cursors at 4 and 5. |
| Properties.PerfectScore | ancient_tales.py:104-237 | The playthrough that answers every question once and correctly ends on the summary with score 2 + 4 + 5 = 11, the chosen character, hearts 4, cursors 7, 4, 4, 5 and `start_time` from the end of the diving steps. Play Again then gives the defaults with that `start_time`. |
| Properties.PlayAgainResets | ancient_tales.py:249-257 | Play Again on the summary restores every default except `start_time`, which it keeps. |
| Properties.TimerScenarios | ancient_tales.py:189-190 | With `start_time` 30 seconds in the past the remaining time is 90. With it 200 seconds in the past it is 0. |
| Sessions.Session.constructor | ancient_tales.py:47-55 | A new session holds the defaults, with `start_time` set to the creation clock, and satisfies the invariant. |
| Sessions.Session.PlayAs | ancient_tales.py:76-84 | The fields change exactly as `Step` prescribes for a character button. |
| Sessions.Session.SubmitKidAnswer | ancient_tales.py:103-114 | The loop over the seacoast questions scores only the pressed question's button, as `Step` prescribes. |
| Sessions.Session.ProceedToShip | ancient_tales.py:116-117 | The fields change exactly as `Step` prescribes for "Proceed to Ship". |
| Sessions.Session.Next | ancient_tales.py:146-177 | The fields change exactly as `Step` prescribes for "Next" on the crew or diving pages. |
| Sessions.Session.SubmitAnswer | ancient_tales.py:192-234 | The fields change exactly as `Step` prescribes for "Submit Answer" in the two quizzes. |
| Sessions.Session.ProceedToShipQuiz | ancient_tales.py:207-210 | The fields change exactly as `Step` prescribes for "Proceed to Ship Quiz". |
| Sessions.Session.FinishAdventure | ancient_tales.py:235-237 | The fields change exactly as `Step` prescribes for "Finish Adventure". |
| Sessions.Session.PlayAgain | ancient_tales.py:249-257 | The fields change as `Step` prescribes. From the summary they become the defaults with the old `start_time`. |
| Sessions.Session.Press | ancient_tales.py:60-257 | Handing any press to its button's method moves the object as `Step` moves its snapshot, and keeps the invariant. |

## Left out

- Image loading and drawing (`load_image`, `draw_text`, `draw_hearts`, `draw_score_time`, ancient_tales.py:11-42) are left out, and so is every `st.image` call. They use an imaging library and the file system. This includes the heart string of :33 and the summary text of :245.
- Streamlit plumbing is left out: page setup, columns, radios, buttons, success and error messages, and the rerun cycle. Each button press is one atomic event, and the value shown on a radio is an input string. The model does not capture what a stale screen does after a press. The page shown was drawn before the handler ran, so the next click can land on a different page or question than the one on screen: after a page change, two buttons with the same label ("Next", "Submit Answer") share one widget across pages, and after a quiz submit (:206, :234) the next "Submit Answer" is read against the next question's radio at its first option, and after a crew or diving "Next" (:148, :172) the next "Next" advances from the entry after the one on screen. The model covers the submit case only in that `choice` is an unconstrained input string.
- Floating-point time is left out. `time.time()` and the `int(...)` truncation at :189 become whole seconds. The clock reading at session creation (:51) is the constructor's argument.
- Out-of-range cursors are not modelled as errors. Indexing `crew[idx]` (:140) with a bad cursor would raise in the program on every run of the crew page; `steps[step]` (:167) is indexed only when the file underwater_background.png loads (:166). `RunInv` proves no reachable session has a bad cursor, so the model does not represent that failure.
- `character` is the datatype `Character` rather than the strings "nayhan" and "dhabia"; they name image files (:95, :125) and appear in the summary text (:245, left out above); no code compares them.
