# Konku: what is remembered stays remembered

Konku is a note and flashcard application. Its promise is that nothing learned
disappears silently, and this project states that promise, part by part, about
a model of the server and of two small client helpers, and proves it.

| module | file | what it models |
|---|---|---|
| `Text`, `Sequences` | `Text.dfy`, `Sequences.dfy` | string order, decimal, splitting; sequences without repetition |
| `Calendar` | `Calendar.dfy` | the Gregorian calendar, dates as `YYYY-MM-DD` text, date columns |
| `Srs` | `Srs.dfy` | the ladder, one review, a replay of reviews, the capped due queue |
| `Choices` | `Choices.dfy` | the multiple-choice builder |
| `Store` | `Store.dfy` | the tables and every transaction as a function on them |
| `DatabaseTransactions` | `Database.dfy` | the same transactions as methods that change tables step by step |
| `ReplayInvariant` | `Replay.dfy` | schedules against the review log |
| `RunInvariant` | `Runs.dfy` | what holds of sets, runs, snapshots and answers in every state |
| `Protocol` | `Protocol.dfy` | requests in flight, interleaved transaction by transaction |
| `LoggedDays` | `LoggedDays.dfy` | the logged intervals, in days of the calendar |
| `Answering` | `Answering.dfy` | what an answer is told and what it logs |
| `Draws` | `Draws.dfy` | what a start asks, on the rows |
| `LateAnswers` | `LateAnswers.dfy` | answers still on their way when a run is finished |
| `Races` | `Races.dfy` | ratings and starts that read, let others commit, and then write |
| `Interleaving` | `Interleaving.dfy` | ratings and starts in flight beside all other requests, over whole runs |
| `StaleRatings`, `LostLapse` | `StaleRatings.dfy`, `LostLapse.dfy` | when schedules still replay the log after such runs |
| `TrashSweep` | `Trash.dfy` | the sweep of the trash over all accounts |
| `Queue`, `Agreement` | `Queue.dfy`, `Agreement.dfy` | the due query, fairness under the daily cap, agreement with `srs.Due` |
| `RateLimiting` | `RateLimiter.dfy` | the fixed-window limiter and its sweep |
| `Paging` | `Paging.dfy` | list query, server clamps and client walk, end to end |
| `Naming`, `Archive`, `Export` | `Naming.dfy`, `Archive.dfy`, `Export.dfy` | slugs, unique file names, the paths of an archive, and writing it |
| `FrontmatterBlock` | `Frontmatter.dfy` | the YAML block of an exported note or card, printed and read back |
| `ExportedText` | `ExportedText.dfy` | the fields and the text of an exported file, said of the note or card itself |
| `Caret` | `Caret.dfy` | the caret after a save rewrites the buffer |
| `Negotiation` | `Locale.dfy` | the language chosen from a header, and from the browser's list |

How to read it. `Store` gives each transaction as a function from tables to
tables; `DatabaseTransactions.Database` does the same work the way the SQL and
the Go code do it, row by row and statement by statement, and every method is
proved equal to its function. The theorems are then about `Store` and about
`Protocol`, where a request is a small program counter with the values it has
read, and any other transaction may commit between two of its steps.
`Interleaving` adds ratings and starts that read in one step and write in
another.

`dafny verify dfyconfig.toml` checks the whole project.

Clocks, random draws, shuffles and fresh ids are arguments, so every statement
holds for all of them. A transaction that fails leaves the tables as they were.
The tables of Unicode, `strconv.ParseFloat` and JavaScript's `toLowerCase` are
parameters with the few facts that are used.

## What the proofs found

Where the code and its own comments or documentation part ways, the model
follows the code.

- **The limiter's bound is 2 * limit - 1, not 2 * limit.** No closed interval
  one window long admits more (`RateLimiting.AtMostTwiceLessOne`), and that
  many are reached for every limit (`RateLimiting.BoundIsReached`).
- **A double finish can answer with a stale row.** The comment at
  `internal/api/reviewsets.go:1117-1119` says the stored run is handed back;
  what is handed back is the run as it was read before the update. Exactly when
  the two differ is `Protocol.FinishReplyIsStored`; a run of four steps that
  shows it is `Protocol.DoubleFinishIsStale`.
- **An answer already in flight can land after the score.** The score stays the
  right answers on record, whatever happens next, if and only if no right answer
  to an unanswered question is on its way at the finish
  (`LateAnswers.ScoreStaysExactIff`); otherwise it can fall short by exactly the
  cards of those answers and never by more (`LateAnswers.ShortfallBound`,
  `LateAnswers.ShortfallReached`). `LateAnswers.LateAnswerLands` is a run of six
  steps that shows it.
- **Two ratings from one reading lose one.** `handleRate` reads the schedule
  without locking it. For one overtaken rating, the schedule stays the replay of
  its log if and only if nobody rated the card between the read and the write, or
  the card was mastered and only remembered again (`Races.RacingRateIff`,
  `Races.LostRating`). For any number of ratings in flight, over any run from the
  empty tables, the schedules are the replay at the end if and only if every
  rating of a card found the rung it had read and the last one had read all the
  lapses before it (`StaleRatings.ReplayIff`). "Every rating found the rung and
  the lapses it had read" is sufficient but not necessary: a wrong interval stays
  in the log for good, but a missing lapse of a mastered card can come back
  (`LostLapse.AgreementComesBack`). As long as no rating remembers a card it had
  read as mastered, it is necessary too (`StaleRatings.FoundIff`).
- **Two overlapping starts: the second is refused**, and changes nothing, where
  one after the other it resumes the first (`Races.SecondStartRefused`). "It should
  return them to where they were rather than fail" holds if and only if that run
  was open already when the start looked (`Races.StartResumesIff`). The
  refusal is the unique index's, and `handleStartRun` answers it as an internal
  error (`internal/api/reviewsets.go:856-859`).
- **Paging stops being exact beyond 2^30 + 1 rows**, because the server clamps
  the offset: `Paging.WalkYieldsEveryRowOnce` is an if-and-only-if.
- **A control character makes a note's frontmatter unreadable.** `quoteYAML`
  escapes the quote and the backslash only; section 7.3.1 of YAML 1.2.2 does
  not allow other control characters than tab inside double quotes.
  `FrontmatterBlock.NoteReadsBack` is an if-and-only-if, and
  `FrontmatterBlock.BellBreaksTheBlock` a title that shows it.
- **Two contents of a note can give one file**, exactly when one is the other
  with the title written above it as a heading, or they differ in their last
  line breaks only (`ExportedText.SameFileIff`).
- **A card's sides can run together.** They can be told apart in its file if and
  only if the front holds no `## Belakang` heading of its own, at its very end
  included (`ExportedText.CardKeepsSides`).
- **A weight of NaN is accepted in Accept-Language** and makes the parser
  forget everything before it: `Negotiation.NanForgets` gives the exact answer,
  `Negotiation.NanPicksTheRefused` a header that gets the language it refused.
  The winner then outweighs all that was asked for if and only if some entry
  after the last NaN is as heavy as everything before it
  (`Negotiation.WinnerOutweighsIff`); without a NaN it always does
  (`Negotiation.WinnerOutweighs`).
- **The sweep of the trash stops at the first account that fails**, although
  the comment there says one failure must not stop it
  (`internal/store/purge.go:72-73`): `TrashSweep.PurgeTrash`. If that account
  failed at its commit, the counts include rows that are still there.
- **Text order is date order only up to 9999-12-31**
  (`Calendar.OrderBreaksAfter9999`). A forward step of up to a year keeps the
  order if and only if its result is representable
  (`Calendar.ShortStepKeepsOrderIff`; for steps of any length
  `Calendar.OrderKeptIff`), and two-step addition equals one-step addition
  exactly while the date in between is.
- **`Master` breaks "mastered means top rung"** for every card with a shorter
  streak (`Srs.MasterBelowTop`). No handler calls it.

## Model

| member | source | states |
|---|---|---|
| `Calendar.TomorrowIsOneLater` | internal/srs/srs.go:51-59 | day numbers follow the calendar's own next-day rule, across months, leap years and centuries |
| `Calendar.DayNumberOrder` | internal/srs/srs.go:36-41 | day numbers sort exactly as calendar dates do and identify them |
| `Calendar.CivilOfDayNumber` | internal/srs/srs.go:51-59 | the date computed back from a day number is the date it came from |
| `Calendar.ParseFormat` | internal/store/date.go:22-47 | a printed date reads back as itself exactly when its year has four digits |
| `Calendar.FormatParse` | internal/store/date.go:14-18 | text that is a date prints back unchanged |
| `Calendar.DateText` | internal/store/date.go:18-20 | a printed date is the year in four digits, the month and the day in two, dashes between |
| `Calendar.DateOrder` | internal/srs/srs.go:36-62 | for dates, text order is calendar order, strictly and not strictly |
| `Calendar.OrderBreaksAfter9999` | internal/srs/srs.go:36-41 | the day after 9999-12-31 sorts before it, so the claim of the comment stops there |
| `Calendar.OrderKeptIff` | internal/srs/srs.go:36-62 | for every date and every number of days, text order agrees with the direction of the step exactly when it goes back, stays in range, or lands in a year whose first four digits are not below the year it left |
| `Calendar.ShortStepKeepsOrderIff` | internal/srs/srs.go:13-16 | a forward step of up to a year, as every rung of the ladder is, keeps the text order if and only if its result is in years 0000 to 9999 |
| `Calendar.AddOneDayIsTomorrow` | internal/srs/srs.go:51-59 | adding one day is the calendar's next day |
| `Calendar.AddDaysDate` | internal/srs/srs.go:51-59 | the result is a date, and the right one, exactly while it stays in years 0000 to 9999 |
| `Calendar.AddDaysMonotone` | internal/srs/srs.go:51-59 | strictly increasing in the number of days, compared as text |
| `Calendar.AddDaysCompose` | internal/srs/srs.go:51-59 | adding in two steps is adding once, exactly when the date in between is representable or nothing is added to it |
| `Calendar.TimeRoundTrips` | internal/store/date.go:22-47 | text to column to text and column to text to column lose nothing; what fails is exactly what is no date |
| `Calendar.ColumnRoundTrips` | internal/store/date.go:31-56 | the same for nullable columns, NULL being the empty date and nothing else |
| `Srs.ReplayClosedForm` | internal/srs/srs.go:73-111 | folding `Next` over any review history depends only on the current streak, the number of lapses and the last day; mastered is exactly seven in a row |
| `Srs.MasterBelowTop` | internal/srs/srs.go:113-119 | `Master` leaves a card off the top rung, and a later `ingat` puts it back to learning, exactly when its streak is short of the top |
| `Srs.Due` | internal/srs/srs.go:121-150 | the loop, the stable sort and the cut compute the capped queue |
| `Srs.DueIsSmallest` | internal/srs/srs.go:121-150 | the queue is sorted, holds only eligible schedules, as many as the cap allows, and nothing left out comes before anything in it |
| `Srs.DueIgnoresOrder` | internal/srs/srs.go:138-144 | with one schedule per card the queue is the same for every order of the input |
| `Choices.Shuffle` | internal/store/reviewsets.go:317-319 | the in-place shuffle permutes, whatever the picks |
| `Choices.Sample` | internal/store/reviewsets.go:296-312 | one wrapped pass from any offset: distinct options, the answer first, and when fewer than four, the whole pool was seen |
| `Choices.Place` | internal/store/reviewsets.go:313-328 | after any shuffle the recorded index is the answer's, and the fallthrough is dead |
| `Choices.MakeChoice` | internal/store/reviewsets.go:291-329 | succeeds exactly when the pool holds three other distinct values; then four distinct options, the answer at the index and nowhere else |
| `Choices.RightIndexIsRightText` | internal/store/reviewsets.go:209-215 | picking the right index is picking the right text |
| `Choices.WideningLosesNothing` | internal/store/reviewsets.go:247-270 | "fewer than four, then widen" and the cap of 300 lose no question |
| `Choices.BuildChoices` | internal/store/reviewsets.go:224-283 | a drawn card is asked as a choice exactly when it has an answer and the account holds three others |
| `DatabaseTransactions.Database.CreateCard` | internal/store/cards.go:43-72 | a new live card with a schedule, its links and no other change, or nothing at all |
| `DatabaseTransactions.Database.UpdateCard` | internal/store/cards.go:80-109 | the text and links move, the schedule does not; a deleted card is missing |
| `DatabaseTransactions.Database.SoftDeleteCards` | internal/store/gen/cards.sql.go:504-507 | live rows of the selection get the time, deleted rows keep theirs |
| `DatabaseTransactions.Database.RestoreCards` | internal/store/gen/cards.sql.go:483-486 | rows of the selection are live again, nothing else changes |
| `DatabaseTransactions.Database.WriteRating` | internal/api/review.go:166-197 | from any row read before: the schedule row and one log row, whose intervals are the days of `LoggedDays`, are written together or not at all |
| `DatabaseTransactions.Database.Rate` | internal/api/review.go:158-198 | reading and writing with nothing in between; a log row is added exactly when the rating succeeds |
| `DatabaseTransactions.Database.GetOpenRun` | internal/store/gen/reviewsets.sql.go:364-367 | finds an open run of the set exactly when there is one |
| `DatabaseTransactions.Database.DrawAny` | internal/store/gen/reviewsets.sql.go:268-300 | distinct rows of the scope, as many as wanted or all there are |
| `DatabaseTransactions.Database.DrawQuestions` | internal/store/reviewsets.go:164-207 | a fixed set draws its live pinned cards in order, a random one distinct live cards of its scope, as `Draws.FixedDraw` and `Draws.RandomDraw` say on the rows |
| `DatabaseTransactions.Database.ChooseQuestions` | internal/store/reviewsets.go:224-283 | the choices built from the two pool queries are those the account's answers allow |
| `Draws.RandomDraw` | internal/store/gen/reviewsets.sql.go:268-285 | every card drawn is live, in one of the domains if any are chosen and with one of the categories if any are; as many as asked for, or all of those when there are no more |
| `Draws.FixedDraw` | internal/store/reviewsets.go:164-207 | all pinned cards that are live and no other, each before the ones pinned after it |
| `Draws.PoolIsBacks` | internal/store/gen/reviewsets.sql.go:599-618 | the wrong options come from the non-empty backs of exactly the live cards in the scope |
| `Draws.StartAsks` | internal/store/reviewsets.go:65-150 | one question per card drawn in that order, each live and, for a random set, inside both groups of its scope |
| `Draws.SavedSetAsks` | internal/api/reviewsets.go:209-266 | a save goes through exactly when the pinned cards exist, differ and a random set asks for something; the next start draws by just what was saved, and not at all when it was archived |
| `Draws.DeletedSetIsGone` | internal/api/reviewsets.go:428-457 | a set goes exactly when it is there and was never run, and no other does |
| `DatabaseTransactions.Database.StartRun` | internal/store/reviewsets.go:65-150 | with nothing in between: resumes the open run, or inserts the run and its whole snapshot, or nothing |
| `DatabaseTransactions.Database.WriteStart` | internal/store/reviewsets.go:117-141 | the inserts under the constraints: refused without a trace when the set is gone or a run of it is open |
| `DatabaseTransactions.Database.InsertRun` | internal/store/reviewsets.go:117-141 | the run row, then one question row per drawn card in position order |
| `DatabaseTransactions.Database.InsertSetAnswer` | internal/store/gen/reviewsets.sql.go:521-529 | refused for a vanished run, ignored when already answered, else one log |
| `DatabaseTransactions.Database.FinishRun` | internal/store/gen/reviewsets.sql.go:329-338 | both counts recomputed from the rows, once |
| `DatabaseTransactions.Database.DeleteRun` | internal/store/gen/reviewsets.sql.go:247-259 | run and snapshot go, its logs stay with no run |
| `DatabaseTransactions.Database.PurgeDeletedCards` | internal/store/gen/purge.sql.go:57-68 | exactly the old, deleted, never logged and never drawn cards go, with their schedules and pins |
| `DatabaseTransactions.PurgedExactly` | internal/store/gen/purge.sql.go:57-93 | a card goes if and only if it was deleted before the cutoff and no log and no question names it; its schedule and pins go with it, and nothing else |
| `ReplayInvariant.ReplayPreserved` | internal/api/review.go:158-198 | after every transaction each card's row equals `Next` folded over its due logs from the day it was captured, and each log names the intervals the card really had |
| `ReplayInvariant.RateReplays` | internal/api/review.go:135-198 | a rating moves the row and the log so that they still agree |
| `ReplayInvariant.InsertAnswerReplays` | internal/api/reviewsets.go:972-976 | answering inside a set disturbs no schedule |
| `ReplayInvariant.PurgeReplays` | internal/store/gen/purge.sql.go:57-68 | purging disturbs no remaining schedule |
| `ReplayInvariant.RowClosedForm` | internal/srs/srs.go:83-111 | in every such state lapses count the forgotten due reviews, mastered is seven in a row, and stage and next date follow from the streak and the last day |
| `ReplayInvariant.IntervalsChain` | internal/api/review.go:190-196 | each due log's interval after is the next one's interval before |
| `LoggedDays.LoggedAfterIsDays` | internal/api/review.go:190-225 | whatever row was read, the interval after in the log is the days from today to the new next date, and zero exactly when there is none |
| `LoggedDays.IntervalIsDays` | internal/api/review.go:218-225 | in every state the interval a schedule stands on is the days from the last due review, or from the capture, to its next date |
| `LoggedDays.LoggedBeforeIsDays` | internal/api/review.go:190-198 | and a rating logs that as the interval before |
| `LoggedDays.StreakSetsInterval` | internal/srs/srs.go:13-16 | 1 day, then 3, 7, 14, 30, 90 and 180 after as many due reviews in a row, none after seven |
| `LoggedDays.RealDaysStay` | internal/api/review.go:153-155 | captures and due reviews stay on real dates through every transaction |
| `LoggedDays.CreatedDueTomorrow` | internal/store/cards.go:43-72 | a new card is on the lowest rung and due the next day, and is refused exactly when that day cannot be stored |
| `ReplayInvariant.OnlyRatingsMoveSchedules` | internal/store/cards.go:74-79 | no transaction but a rating of that very card moves its schedule row |
| `ReplayInvariant.RestoreUndoesDelete` | internal/store/cards.go:111-149 | restoring what was deleted gives back the very same tables, exactly when none of it was in the trash before |
| `RunInvariant.RunsPreserved` | internal/store/gen/reviewsets.sql.go:329-338 | every transaction keeps: one open run a set, sound snapshots and scores, questions and logs naming cards, one answer per run and question |
| `RunInvariant.CorrectAtMostAsked` | migrations/00002_domains_and_exams.sql:184-185 | a run never holds more right answers than questions |
| `RunInvariant.CountIsCards` | internal/store/gen/reviewsets.sql.go:334-335 | the counted rows are that many different cards |
| `RunInvariant.FinishNeverRefused` | internal/store/gen/reviewsets.sql.go:329-338 | the CHECK on the counts never fires, and finishing succeeds exactly for an open run |
| `RunInvariant.PurgeKeepsRuns` | internal/store/gen/purge.sql.go:75-93 | a purge leaves no log and no question pointing at nothing, though no foreign key says so |
| `RunInvariant.StartRunKeepsRuns` | migrations/00002_domains_and_exams.sql:187-189 | starting keeps at most one open run and a sound snapshot |
| `Protocol.StepIsLater` | internal/store/gen/reviewsets.sql.go:257-259 | no transaction removes a log, revives a run, or changes a snapshot or a score |
| `Protocol.StepPreserves` | internal/api/reviewsets.go:977-1075 | every step of every request and every transaction between keeps the whole invariant |
| `Protocol.EveryRun` | internal/api/reviewsets.go:977-1130 | over every interleaving the invariant holds and the end comes after the beginning |
| `Protocol.EveryReachableState` | internal/store/reviewsets.go:50-64 | from the empty tables, where ratings and starts are not overtaken: one open run a set, 0 <= correct <= total = questions and at least one, cards for all logs and questions, one answer per run and card, every schedule its replay |
| `Protocol.AskedExactly` | internal/store/reviewsets.go:217-223 | a drawn card is asked as a choice exactly when the set asks choices, the back is not empty and three other live distinct backs exist |
| `Protocol.GradedByTextAtDraw` | internal/api/reviewsets.go:1003-1030 | whatever happens while the run lasts, an option is `ingat` exactly when its text was the card's back at the draw |
| `Protocol.LoggedByTextAtDraw` | internal/api/reviewsets.go:1025-1069 | from the option picked to the log row, over every interleaving: no row, or one row for that card of that run, `ingat` exactly when the text picked was the back at the draw |
| `Answering.TurnedAwayIff` | internal/api/reviewsets.go:977-1037 | not found, finished, or a body that does not answer the question asked: each refusal exactly when its reason holds |
| `Answering.AnsweredAsMeant` | internal/api/reviewsets.go:1003-1075 | over every interleaving: the word sent for plain recall, the text of the option for a choice, decide what is told, with the card's back and the right option, and the one row that is logged, exactly while the run is there and the card unanswered |
| `Answering.AnswerLogsItsInterval` | internal/api/reviewsets.go:1040-1069 | both intervals of that row are the days the card's schedule stood on when it was read, none for a card in the trash |
| `Answering.FinishTurnedAwayIff` | internal/api/reviewsets.go:1104-1112 | a finish is refused exactly when its run is not there, else goes by the run as read |
| `Protocol.SnapshotKept` | internal/store/reviewsets.go:50-59 | over every interleaving, a run that is still there has the same questions, order, options and answer key |
| `Protocol.FinishReplyIsStored` | internal/api/reviewsets.go:1104-1130 | the reply is the stored run exactly when the run still exists and was open until this commit or had been read as finished |
| `Protocol.DoubleFinishIsStale` | internal/api/reviewsets.go:1117-1123 | two finishes that both read the run open: the second answers with an unfinished, unscored run |
| `LateAnswers.ScoreMissesLateAnswers` | internal/api/reviewsets.go:1060-1075 | a finished score never moves and falls short of the logged right answers by exactly those that land after it |
| `LateAnswers.NothingNewCanLand` | internal/api/reviewsets.go:984-987 | once a run is finished, no step puts a right answer to it on its way that was not on its way before |
| `LateAnswers.ShortfallBound` | internal/store/gen/reviewsets.sql.go:329-338 | from the commit of a finish the score falls short by at most the cards of the right answers on their way |
| `LateAnswers.ShortfallReached` | internal/store/gen/reviewsets.sql.go:329-338 | and some way to go on makes it fall short by all of them |
| `LateAnswers.ScoreStaysExactIff` | internal/store/gen/reviewsets.sql.go:346-350 | the score stays the right answers on record, for every way to go on, if and only if no right answer to an unanswered question is on its way at the finish |
| `LateAnswers.NotMoreThanPending` | internal/api/reviewsets.go:977-1075 | the cards that can be missed are at most the answer requests pending on the run |
| `LateAnswers.LateAnswerLands` | internal/api/reviewsets.go:977-1130 | read, graded, timed, finished, inserted: the score is one short of the record |
| `Races.WriteKeepsReplayIff` | internal/api/review.go:158-198 | a rating computed from a row read earlier keeps schedules and log in agreement if and only if the row has kept its rung and its lapses |
| `Races.RungKeptIff` | internal/srs/srs.go:83-111 | over any transactions in between, the rung is kept exactly when the card was not rated, or was mastered and only remembered again |
| `Races.RacingRateIff` | internal/api/review.go:158-198 | so a rating that others overtake keeps the replay if and only if one of those two held |
| `Races.LostRating` | internal/api/review.go:179-197 | two ratings from one reading: both logged, the first without effect, the replay kept exactly when the first remembered a mastered card |
| `Races.LateStart` | internal/store/reviewsets.go:84-141 | a start planned on older tables goes through exactly when the set is there and no run of it is open, else nothing changes; then the invariant holds exactly when every drawn card is still there |
| `Races.OverlappingStartIsSafe` | internal/store/gen/purge.sql.go:57-68 | with a trash window no deletion meanwhile is older than, that always is so |
| `Races.StartResumesIff` | internal/store/reviewsets.go:61-98 | a start while a run of the set is open changes nothing, and hands that run back if and only if it was open already when the start looked; if none was, it is refused |
| `Races.AcrossNothing` | internal/store/reviewsets.go:65-150 | looking and writing at one moment is the start in one step that `Database.StartRun` computes |
| `Races.SecondStartRefused` | internal/api/reviewsets.go:846-859 | of two starts that both saw no open run the second is refused and changes nothing, where one after the other it resumes the first |
| `Interleaving.GoKeeps` | internal/api/review.go:158-198 | a reading, an overtaken write, a start's look or its insert, and every step of the protocol keep runs, snapshots, scores, answers, rungs and dates sound, with all readings and draws still in flight |
| `Interleaving.EverySite` | internal/api/review.go:158-198 | over every interleaving of all of these that holds at the end, and the end comes after the beginning |
| `Interleaving.EveryReachableSite` | internal/store/reviewsets.go:50-64 | from the empty tables, with ratings and starts overtaken at will: one open run a set, 0 <= correct <= total = questions and at least one, cards for all logs and questions, one answer per run and card, every row on its rung with a date that can be printed |
| `StaleRatings.FaithfulIff` | internal/api/review.go:158-198 | whatever interleaves, a card's row is the replay of its log at the end if and only if each rating found the rung it had read and the last one had read all lapses before it |
| `StaleRatings.ReplayIff` | internal/srs/srs.go:83-111 | from the empty tables, all schedules are the replay of the log if and only if that holds of every card |
| `StaleRatings.FoundIff` | internal/api/review.go:166-197 | where no rating remembers a card it had read as mastered, that is if and only if every rating found the rung and the lapses it had read |
| `LostLapse.AgreementComesBack` | internal/srs/srs.go:83-111 | without that condition it is not: a reachable state, a rating that breaks the agreement and one that brings it back, neither finding what it had read |
| `Queue.ShownIff` | internal/store/gen/cards.sql.go:429-440 | a due card is listed exactly when fewer than `limit` come before it |
| `Queue.DueOnRows` | internal/store/gen/cards.sql.go:429-440 | live cards being learned whose date has come, the oldest first and the lower id on ties; one is missing only from a full list of none younger |
| `Queue.RatedIsLater` | internal/api/review.go:158-198 | a card rated today is no longer due today, and no other row moves |
| `Queue.QuietKeepsOrder` | internal/store/cards.go:43-109 | new, edited, deleted and re-scheduled cards never get in front of a waiting due card |
| `Queue.RoundAdvances` | internal/srs/srs.go:18-20 | a round that does not show a card takes exactly `limit` others out of its way |
| `Queue.NoStarvation` | internal/srs/srs.go:121-150 | with k cards ahead, a due card is shown by round k / limit + 1, over every sequence of rounds and quiet transactions |
| `Agreement.DueIsDueList` | internal/srs/srs.go:121-150 | what `Due` computes from the schedules is what `ListDueCards` may return |
| `Agreement.DueAgreesWithRows` | internal/store/gen/cards.sql.go:63-71 | the two queues are the same list and the count is `CountDueCards` |
| `Agreement.DatesStayStored` | internal/store/date.go:10-18 | stored dates stay representable as text through every transaction |
| `TrashSweep.PurgeTrash` | internal/store/purge.go:44-79 | the loop purges the accounts before the first whose transaction fails, so all if and only if none fails; the counts are their rows, and those of an account whose commit failed |
| `TrashSweep.PurgedRows` | internal/store/gen/purge.sql.go:57-101 | of an account exactly the notes deleted before the cutoff go, and those cards |
| `RateLimiting.RateLimiter.Check` | internal/api/ratelimit.go:72-98 | the whole map, the time of the last sweep and the answer after one call, for the runs the rows below are about |
| `RateLimiting.RefusedOnlyWhenUsedUp` | internal/api/ratelimit.go:88-97 | a call is refused only when its key got through at least `limit` times within the last window |
| `RateLimiting.RefusalLeavesNoTrace` | internal/api/ratelimit.go:93-95 | taking a refused call out of any run changes no other answer |
| `RateLimiting.RateLimiter.DropExpired` | internal/api/ratelimit.go:78-85 | the sweep's loop keeps exactly the windows not yet over |
| `RateLimiting.SweepIsInvisible` | internal/api/ratelimit.go:59-71 | every call of every run is answered as by a limiter that never sweeps |
| `RateLimiting.MemoryBounded` | internal/api/ratelimit.go:59-71 | after each call only windows opened within the last two window lengths are held |
| `RateLimiting.AtMostTwiceLessOne` | internal/api/ratelimit.go:72-98 | in any closed interval one window long one key gets through at most 2 * limit - 1 times |
| `RateLimiting.BoundIsReached` | internal/api/ratelimit.go:72-98 | and that many do get through, for every limit and window |
| `Paging.ListingUnique` | internal/store/gen/notes.sql.go:207-208 | the order with its tie-break leaves at most one listing |
| `Paging.ListingExists` | internal/store/gen/notes.sql.go:207-208 | with ids that name their rows there is one for every filter |
| `Paging.ServeIs` | internal/api/list.go:45-91 | the page asked for, its limit clamped to 1 to 200 and 50 when absent, its offset to 0 to 2^30, and the full total at every offset, also past the end |
| `Paging.WalkCompletes` | web/src/api/paging.ts:20-36 | the walk ends and its pages put together are the list, whatever limit each request is clamped to |
| `Paging.WalkYieldsEveryRowOnce` | internal/api/list.go:50-55 | that holds for all requests if and only if the list has at most 2^30 + 1 rows |
| `Paging.WalkRepeatsARow` | internal/api/list.go:50-55 | beyond that, asking one row at a time shows the row at the clamp twice |
| `Paging.ListedIff` | internal/store/gen/notes.sql.go:178-207 | a note is listed exactly when it is on this side of the trash, in one of the domains if any are chosen, with one of the categories if any are, and matches the search |
| `Paging.NewestFirst` | internal/store/gen/notes.sql.go:208 | the note saved later comes first, and of two saved at one time the one with the higher id |
| `Paging.SavedLastIsFirst` | internal/store/gen/notes.sql.go:208 | what was saved after everything else heads the first page |
| `Paging.TrashedMoves` | internal/store/gen/notes.sql.go:307-311 | a note moved to the trash leaves its list and is on the trash list of the same filters; nothing else moves |
| `Paging.NotesWalk` | internal/store/gen/notes.sql.go:161-208 | walking the notes shows every matching note once, the newest first |
| `Naming.MakeSlug` | internal/export/markdown.go:176-195 | the loop with its dash flag and early break computes the slug the next four rows are about |
| `Naming.SlugIsClean` | internal/export/markdown.go:171-200 | lower-case letters and digits with single dashes between, none at the ends, no separator, at most 63 bytes |
| `Naming.SlugIdempotent` | internal/export/markdown.go:176-195 | a slug is its own slug, through the cap and the final trim |
| `Naming.WordsSurvive` | internal/export/markdown.go:171-175 | letters and digits survive in order, all of them below the cap |
| `Naming.SlugIsRuns` | internal/export/markdown.go:171-195 | below the cap a slug is the title's runs of letters and digits in lower case, a dash wherever anything stood between two of them |
| `Naming.SlugEmpty` | internal/export/markdown.go:156-161 | the id stands in exactly when the title has no letter and no digit |
| `Naming.NameAtInjective` | internal/export/markdown.go:163-166 | different suffixes give different names |
| `Naming.NamedAfterTitle` | internal/export/markdown.go:155-169 | a file is named by its slug, by `tanpa-judul-` and eight characters of the id when that is empty, with a number from 2 on only when the plain name is taken |
| `Naming.Namer.Pick` | internal/export/markdown.go:155-169 | the first free candidate of the folder, found within one more try than there are names, and then taken |
| `Export.IndexTags` | internal/export/export.go:198-209 | the lookup loop gives every item its labels in link order, links to nothing skipped |
| `Export.TagsInLinkOrder` | internal/export/export.go:198-209 | each link stands for its category's label in its place, or for nothing |
| `Export.LabelOfId` | internal/export/export.go:183-197 | an id stands for its own label |
| `Export.WriteNotes` | internal/export/export.go:215-228 | every note in order, under the next free name of its folder, with its own text and tags |
| `Export.WriteCards` | internal/export/export.go:230-239 | the same for cards, after the notes |
| `Export.Write` | internal/export/export.go:183-275 | readme, notes, cards and tables go out in that order with their contents; an error exactly when a table cannot be encoded, and then everything before that table is out already |
| `Export.NoteIsInside` | internal/export/export.go:1-21 | every note has a file of its own that nothing overwrites, in its folder, and reading it gives title, domain and tags back and then its text, exactly when those are readable |
| `Export.CardIsInside` | internal/export/export.go:1-21 | the same for every card, whatever its two sides hold |
| `Archive.ArchiveIsDetermined` | internal/export/markdown.go:155-169 | titles and ids fix every path: first free names, taken in order, leave one possible archive |
| `Archive.ArchiveIsComplete` | internal/export/export.go:211-269 | one entry per note, one per card and 18 fixed files, all paths different, each note and card directly in its folder |
| `FrontmatterBlock.QuoteYaml` | internal/export/markdown.go:122-141 | the loop prints the scalar that `BlockReadsBack` reads back |
| `FrontmatterBlock.Frontmatter.Add` | internal/export/markdown.go:92-97 | one more entry, shown unless empty |
| `FrontmatterBlock.Frontmatter.AddList` | internal/export/markdown.go:99-108 | one more list, shown unless empty |
| `FrontmatterBlock.LineIsOneLine` | internal/export/markdown.go:131-134 | no value ever ends its line |
| `FrontmatterBlock.BlockReadsBack` | internal/export/markdown.go:82-141 | a printed block reads back as the non-empty entries put in, each line break a space, and the text after it is untouched, if and only if no value holds a control character other than tab, LF and CR |
| `FrontmatterBlock.NoteMarkdown` | internal/export/markdown.go:22-51 | the block of exactly the note's entries, then its text, as `ExportedText.NoteReads` reads both |
| `FrontmatterBlock.CardMarkdown` | internal/export/markdown.go:59-80 | the block of exactly the card's entries, then its two headed sides |
| `FrontmatterBlock.NoteReadsBack` | internal/export/markdown.go:22-51 | the same for a whole note: the condition is on its title, its domain's label and its tags |
| `FrontmatterBlock.CardReadsBack` | internal/export/markdown.go:59-80 | the same for a whole card: the condition is on its type, its domain's label and its tags, not on its sides |
| `ExportedText.NoteReads` | internal/export/markdown.go:22-51 | reading a note's file gives title, domain, tags and the three dates under their keys, nothing for what it has not, and then its heading and all its content down to the last line breaks |
| `ExportedText.NoteKeepsContent` | internal/export/markdown.go:38-49 | the text is the content without its last line breaks and one more break, under the title exactly when it opens with no heading of its own |
| `ExportedText.SameFileIff` | internal/export/markdown.go:38-49 | two contents give the same file exactly when they differ in their last line breaks only, or one is the other under the title as a heading |
| `ExportedText.CardReads` | internal/export/markdown.go:59-80 | the same for a card's fields, its two sides under their headings |
| `ExportedText.CardKeepsSides` | internal/export/markdown.go:74-78 | both sides read back if and only if the front does not hold the second heading |
| `FrontmatterBlock.BellBreaksTheBlock` | internal/export/markdown.go:117-141 | a title with a bell character, printed and then unreadable |
| `FrontmatterBlock.BodyOpensWithHeading` | internal/export/markdown.go:38-47 | the text under the block always opens with a heading, its own or the title |
| `Caret.RemapCaret` | web/src/lib/caret.ts:14-26 | the loop over the lines computes the offset the rows below are about, past the end and past the last line included |
| `Caret.LocateUnique` | web/src/lib/caret.ts:15-17 | a line and column inside the text give one offset, and that offset gives them back |
| `Caret.RemapStaysInside` | web/src/lib/caret.ts:14-26 | the caret stays inside the new text, for every offset |
| `Caret.RemapMonotone` | web/src/lib/caret.ts:14-26 | moving right never moves the remapped caret left |
| `Caret.RemapUnchanged` | web/src/lib/caret.ts:14-26 | unchanged text leaves the caret where it is |
| `Caret.RemapExact` | web/src/lib/caret.ts:10-13 | when lines are only appended to, line and column are kept and remapping back undoes it |
| `Negotiation.ReadRange` | internal/api/locale.go:92-115 | the loop over an entry's parameters finds the first usable weight, as `PartReads` undoes it |
| `Negotiation.AcceptLanguage` | internal/api/locale.go:58-84 | the loop with its running best computes the choice that `EarliestOfMaximalWeight` and `NanForgets` characterise |
| `Negotiation.EarliestOfMaximalWeight` | internal/api/locale.go:58-84 | with ordinary weights, the earliest supported language of maximal positive weight, else Indonesian |
| `Negotiation.NanForgets` | internal/api/locale.go:104-109 | with a NaN weight, exactly what comes after the last one decides, weight zero included |
| `Negotiation.WinnerOutweighs` | internal/api/locale.go:58-84 | with ordinary weights the winner is at least as heavy as everything asked for |
| `Negotiation.WinnerOutweighsIff` | internal/api/locale.go:104-109 | with a NaN it is if and only if some entry after the last NaN is as heavy as everything before it |
| `Negotiation.NanPicksTheRefused` | internal/api/locale.go:86-91 | a header that refuses English and gets it |
| `Negotiation.PartReads` | internal/api/locale.go:92-115 | a printed entry reads back as its tag and the weight meant |
| `Negotiation.FirstGivenWeight` | internal/api/locale.go:100-115 | an entry weighs what its first `q` parameter gives that is a number from 0 to 1 or NaN, whatever stands around it, and 1 when none does |
| `Negotiation.SupportedIff` | internal/api/locale.go:66-80 | English is the subtag `en` in any case, whatever follows it, Indonesian `id`, and nothing else counts |
| `Negotiation.FindBrowserLocale` | web/src/i18n/boot.ts:93-104 | the loop finds the first tag with a catalog, the list or else the single language |
| `Negotiation.BothAgree` | web/src/i18n/boot.ts:73-92 | the server reading the header printed from a tag list with positive weights that never rise, and the browser reading the list, answer alike |

## Left out

- Queue.NoStarvation: rounds assume no restored card, no deletion or separate rating of the waiting card, a day that never goes back, and a day 180 days short of the end of year 9999; a restored card keeps its old date and may come back in front.
- Negotiation.BothAgree: tags are ASCII letters, digits and dashes as in section 2.1 of RFC 5646; for other tags the two lower-casing functions may differ, as for a dotted capital I.
- DatabaseTransactions.Database.StartRun: nothing commits between its look and its inserts; overlapping starts are in `Races` and `Interleaving`. The new run's id is one never issued before, as a random uuid is taken to be, and set rows satisfy the constraints on pinned cards.
- DatabaseTransactions.Database.Rate: nothing commits between its read and its write; ratings that others overtake are in `Races`, `Interleaving` and `StaleRatings`, with today always a real date.
- FrontmatterBlock.BlockReadsBack: the reader knows the two escapes and the spacing that are ever printed, not all of YAML; repeated keys are not an error to it.
- Protocol.EveryReachableState: a rating or a start is one atomic step here; split into reading and writing they are in `Interleaving.EveryReachableSite` and `StaleRatings.ReplayIff`.
- Interleaving.EverySite: no purge takes a card that a start has drawn and not yet inserted, as the trash window is 30 days and a request is not (what happens otherwise is `Races.LateStart`); the reads of one start are one step.
- Export.Write: the zip container is a sequence of files, write errors are not modelled, and the readme and the JSON of a table are given.
- Naming.SlugIsClean: titles are sequences of whole characters; invalid UTF-8 is not modelled.
- Caret.RemapCaret: text is a sequence of code units, and a split surrogate pair is not treated specially.
- One account: row-level security and other users' rows would only add frame conditions. Account deletion, which removes everything, and `seed-demo`, which writes schedules and logs directly, are not transactions of the model.
- Integer widths: stages, lapses, intervals and counts are unbounded; the columns are 32-bit.
- Uuids are compared as text, which is their byte order.
- A due log carries the local day of the review; `reviewed_at` and its time zone are not modelled.
- Run times: `started_at`, and the CHECK that a run does not finish before it starts.
- The HTTP layer: routing, sessions, JSON decoding, error texts, metrics, mail.
- Domains, categories and notes as tables of their own, beyond what draws, choices and the notes list read from them; note creation, editing and trash repeat the card life cycle.
- Quota checks are check-then-write by design, so the cap is no invariant.
- `ILIKE` on titles is an arbitrary predicate, and a query parameter is given as the number it parses to.
- The stored locale choice in `withAccountLocale`, the cached one in `bootLocale` and `rememberLocale`: single lookups in front of the negotiation.
