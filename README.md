# SAFMEDS drill: a verified model of the session engine

SAFMEDS is a timed true/false flashcard drill. The learner picks a study set
(a list of term/definition pairs) and a session length of 60, 90 or 120
seconds. They then see one term with a definition, which is either the term's
own definition or one taken from an entry with a different term, and press
True or False. Each press counts one attempt. It scores a point when the
judgement agrees with the truth flag of the card stored in the session, and
then a new card is drawn. As written, the page is not redrawn after that
draw, so from the second press on the learner judges the card still on
screen while the press is scored against the new, unseen one (see
"## Findings").
Once the elapsed time reaches the session length, the session stops and shows
the percent correct. A Save button is then offered for a row with the date,
set, length, score, attempts and percent. As written, clicking it never saves
anything (see "## Findings").

The model follows the single script `safmeds_app.py`:

- `Options`, `Cards` (cards.dfy): study-set entries, the filter that gives
  the wrong definitions for a term, and the three random choices behind one
  card, passed in as a `Draw` value.
- `Scoring` (scoring.dfy): the offered session lengths, the guarded percent,
  the truncated time-left display, and the score-row record.
- `Session` (session.dfy): the session state as a value. Each block of the
  script that changes the state is a function on it (initial state, Start,
  next card, answer, expiry, score row). The invariant `Inv` is
  `0 <= score <= attempted`, the length is an offered one, an active session
  has a start time, and a true card shows its own definition. The lemmas
  cover sequences of answers.
- `Script` (pass.dfy): one run of the script from top to bottom (Start
  block, then game logic, then the Save button), as written and as corrected.
- `Engine` (engine.dfy): class `SessionState`. Its fields are the script's
  session-state entries, and its methods update them in place. Each method
  is proved equal to the matching function above.

The code behaves in some ways that are easy to miss, and the model keeps
them:
- No study set is validated.
- Start / Restart does not clear or redraw the card the session holds.
- A card is drawn lazily, only when there is none.
- A false card's text comes from an entry with a different term, and that
  text may equal the correct definition.
- Expiry is checked when a run of the script begins. An answer click in a
  run that finds the time used up is ignored.

## Model

| member | source | states |
|---|---|---|
| Cards.WrongDefs | safmeds_app.py:59 | every candidate wrong definition belongs to an entry of the set whose term differs from the drawn term; never more candidates than entries |
| Cards.WrongDefsComplete | safmeds_app.py:59 | every entry whose term differs contributes its definition to the candidates |
| Cards.WrongDefsNonEmpty | safmeds_app.py:59-60 | the candidate list is non-empty exactly when some entry has a different term, so the draw of a wrong definition fails exactly for sets whose entries all share the term |
| Cards.FalseDrawPossible | safmeds_app.py:53-60 | a false card can be drawn for entry i exactly when some entry carries a term other than entry i's |
| Cards.WrongDefsExample | safmeds_app.py:59 | for entries (A,x), (B,y), (C,x) the candidates for A are y then x |
| Scoring.Percent | safmeds_app.py:70 | percent is 0 when nothing was attempted; otherwise percent times attempted equals 100 times score; it lies in [0, 100] when 0 <= score <= attempted |
| Scoring.Trunc | safmeds_app.py:131 | `int()` of a float truncates toward zero |
| Scoring.TimeLeft | safmeds_app.py:131 | with 0 <= elapsed < duration the displayed seconds left lie in [0, duration] and are the whole part of duration - elapsed |
| Session.Initial | safmeds_app.py:24-34 | the first state is idle with zero counters, no start time, length 60, an empty set, no card, empty correct and shown definitions and a true flag, and satisfies the invariant |
| Session.Start | safmeds_app.py:43-49 | Start makes the session active, zeroes score and attempts, records the start time, installs the chosen length and set, keeps the invariant and leaves the card untouched |
| Session.NextCard | safmeds_app.py:52-65 | the new (term, correct definition) is an entry of the set; the truth flag is the drawn one; a true card shows its own definition; a false card shows the definition of an entry with a different term; only the card fields change |
| Session.Answer | safmeds_app.py:112-129 | attempts grow by exactly one; score grows by one when the judgement agrees with the truth flag and is unchanged otherwise; the invariant holds; a new card from the set is drawn; session, clock, length and set are unchanged |
| Session.Expire | safmeds_app.py:92-96 | the session stays active exactly when it was active and elapsed < duration; nothing but `active` changes; the invariant holds |
| Session.BuildRow | safmeds_app.py:68-78 | the row carries the date stamp, the selected set, the session length, score and attempts; its percent is the guarded score / attempted * 100 (`Percent`), 0 with no attempts and in [0, 100] for a reachable state |
| Session.AnswerAll | safmeds_app.py:112-129 | any sequence of answers keeps the invariant and the set |
| Session.AnswerAllCounts | safmeds_app.py:112-129 | after any sequence of answers, attempts grew by their number and score by the number that agreed with the card each one judged |
| Session.FalseItemMayShowCorrectText | safmeds_app.py:56-60 | with two terms sharing a definition, a false card can show text equal to its correct definition |
| Script.StartBlock | safmeds_app.py:43-49 | a Start click makes the session active, zeroes score and attempts, records the Start block's clock reading, installs the selected set and chosen length and leaves the card untouched; a run without a Start click leaves the state as it was; the invariant is kept |
| Script.GameLogic | safmeds_app.py:92-132 | an answer is applied only while elapsed < duration, and then adds exactly one attempt and a point exactly when the press agrees with the truth flag of the card the session holds (drawn lazily if there was none); otherwise the run is the expiry check alone; the completion percent is shown exactly when the session expires in this run and equals the guarded percent of the session's score and attempts; the time left shown is the truncated duration - elapsed and lies in [0, duration]; without an answer the card is kept, or drawn lazily when there was none; an answer replaces it with a card of the set picked by the next draw (a false one showing another term's definition); the page shows the card as it was before the answer was handled |
| Script.WrittenPass | safmeds_app.py:92-102 | as written, the run's state, completion percent, time left, shown card and Save offer are those of the game logic after the Start block, so Save is offered exactly when an active session's time is found used up; a row is saved exactly when Save is clicked in a run that offers it, only when the run began with an active session, and it is the row built from the state, date stamp and selected set |
| Script.SaveNeverRuns | safmeds_app.py:100-101 | as written, a click on an offered Save button never saves a row |
| Script.FixedPass | safmeds_app.py:92-132 | with the Save button drawn whenever a session is finished and the card put on the page after the answer buttons are handled, the session state, time left and percent shown are those of the script as written; Save is offered whenever the written script offers it; a card is shown in the same runs as written, and it is the card the state holds; a saved row is the one built from the finished session with the run's date stamp and selected set |
| Script.FixedSaveRecordsSession | safmeds_app.py:100-101 | corrected, clicking an offered Save button saves the finished session's score, attempts, length and guarded percent (in [0, 100]), and changes no state |
| Script.AnswerScoredAgainstUnseenCard | safmeds_app.py:107-129 | as written, with the set (A, x), (B, y): after a True click on A / x has scored and stored the false card B / x, the page still shows A / x, a true pairing of the set, and a True click on it scores nothing |
| Script.FixedAnswerScoredAgainstShownCard | safmeds_app.py:107-129 | corrected, the page after a running run shows the card the state holds, and the next True or False click adds one attempt and a point exactly when it agrees with that card's truth flag |
| Script.AnswerIgnoredOnceExpired | safmeds_app.py:92-129 | a True or False click in a run that finds the time used up only turns the session off |
| Script.SixtySecondSession | safmeds_app.py:43-131 | the run that starts a 60-second session shows 59 seconds left when the game logic reads the clock less than a second after the Start block, and 60 only when both readings coincide; a run 61 seconds later finds it complete |
| Engine.SessionState.constructor | safmeds_app.py:24-34 | the fields start as the initial state |
| Engine.SessionState.Start | safmeds_app.py:43-49 | Start / Restart updates the fields as Session.Start; the card fields are unchanged |
| Engine.SessionState.NextCard | safmeds_app.py:52-65 | the fields after the draw are Session.NextCard of the old ones; the card comes from the set |
| Engine.SessionState.DrawIfNone | safmeds_app.py:104-105 | a card is drawn only when there is none, otherwise nothing changes |
| Engine.SessionState.AnswerTrue | safmeds_app.py:112-119 | the True button adds one attempt, adds a point exactly when the card was true, reports that, and draws a new card |
| Engine.SessionState.AnswerFalse | safmeds_app.py:122-129 | the False button adds one attempt, adds a point exactly when the card was false, reports that, and draws a new card |
| Engine.SessionState.Tick | safmeds_app.py:92-96 | the expiry check turns the session off once elapsed >= duration and reports it; score, attempts and card are unchanged |
| Engine.SessionState.PlayStep | safmeds_app.py:92-132 | the game logic of one run updates the fields and returns the display values as Script.GameLogic |
| Engine.SessionState.RunPass | safmeds_app.py:43-132 | one run of the corrected script, with the Start block and the game logic reading the clock separately, updates the fields and returns the display values (the card on the page included) and saved row as Script.FixedPass |

## Findings

| source | as written | input that shows it | evidently intended | confidence | as-written member | corrected member |
|---|---|---|---|---|---|---|
| safmeds_app.py:100-101 | the "Save This Score" button is drawn and read only inside `if st.session_state.active:`, in the run that has just set `active` to False | any session: the run that finds the time used up sets `active = False` and draws the button; clicking it starts a new run, which finds `active` False, skips the whole block, and never calls `save_score` | a click on Save appends the finished session's row | high (follows from the script's control flow; not executed) | Script.SaveNeverRuns | Script.FixedSaveRecordsSession |
| safmeds_app.py:107-129 | the term and definition are put on the page before the answer buttons are handled, and nothing redraws the page after `next_card()` at lines 119 and 129 | set (A, x), (B, y); the page shows A / x; a True click scores and stores the false card B / x, but the page still shows A / x; a True click on that true pairing then scores nothing | the page shows the card the next click is scored against | medium (assumes the page a click's run draws stays on screen until the next click; not executed) | Script.AnswerScoredAgainstUnseenCard | Script.FixedAnswerScoredAgainstShownCard |

`Script.WrittenPass` is the run as written and `Script.FixedPass` the
corrected run, which fixes both rows. `Engine.SessionState.RunPass` follows the corrected run. The
engine itself (Start, cards, answers, expiry) is the same in both.

## Left out

- Loading the study sets from the Excel workbook (`load_data`, `st.cache_data`) is file I/O. The sets are given as a map from set name to a sequence of term/definition pairs (`Script.Sidebar`).
- Streamlit widgets and rendering are not modelled: sidebar, markdown, success/error/info messages, columns, `experimental_rerun`. A button click is a `Press` value, or a method call on `SessionState`, and at most one click happens per run. The displayed values (percent on completion, seconds left, the term and definition on the page) are returned; the score text line and the correct definition shown after a wrong answer are not.
- Appending to `scores.csv` (header on first write) and showing its last five rows are file I/O. Only the row that `save_score` builds is modelled (`Session.BuildRow`).
- The clock is not read. Each `datetime.now()` becomes a `real` parameter in seconds: `startNow` for the Start block (line 47) and `now` for the game logic (line 93). The formatted date stamp is a string parameter. `save_score` reads the clock only for that stamp.
- `random.choice` becomes a `Draw` parameter. When the script draws from an empty list, it stops with an exception and has no handling for it. This happens for an empty set, or for a false card when every entry shares the drawn term. The model states it as a precondition (`Cards.ValidDraw`, `Script.DrawsOk`), not as an error result.
- The percent's one-decimal text form is not modelled. Percent is a `real`, and floating-point rounding of the division is not modelled either.
- Session.BuildRow: the row's set name is the set currently selected in the sidebar, as in the code, which may differ from the set that was drilled. The model does not flag this.
