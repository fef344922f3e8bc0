/** The intervals in the log are days: what a log row says the interval became
    is how far the schedule moved, and what it says it was is how far the next
    date lay from the review before. */
module LoggedDays {
  import opened Text
  import opened Calendar
  import opened Srs
  import opened Store
  import opened ReplayInvariant
  import Queue
  import Races

  /** A row on `day` whose next date is `n` days off, zero when it has none. */
  predicate DaysOff(row: ScheduleRow, day: int, n: nat) {
    && (n > 0 <==> row.state == Learning)
    && (row.nextReview == if n == 0 then None else Some(day + n))
  }

  /** Whatever row a rating was computed from, its log row says by how many days
      it moved the schedule. */
  lemma LoggedAfterIsDays(t: Tables, id: string, read: ScheduleRow, rating: Rating, today: string)
    requires Parse(today).Some? && RateWrite(t, id, read, rating, today).1 == Done
    ensures var u := RateWrite(t, id, read, rating, today).0;
            && id in u.schedules && |u.logs| == |t.logs| + 1
            && DaysOff(u.schedules[id], DayOf(today), u.logs[|t.logs|].after)
  {
    hide Parse, AddDays, ToTimePtr, FromTimePtr, DayOf, InRange;
    Queue.EmptyDate();
    var next := Next(ToSchedule(id, read), rating, today);
    var rung := if rating == Lupa then 0 else read.stage + 1;
    if rung < |LADDER| {
      Queue.StoredDay(today, LADDER[rung]);
      AddedNotEmpty(today, LADDER[rung]);
    }
  }

  lemma AddedNotEmpty(today: string, n: int)
    requires Parse(today).Some?
    ensures AddDays(today, n) != ""
  {
    AddDaysIs(today, n);
    FromTimeParse(DayOf(today) + n);
  }

  /** A new card is first due the day after it was captured, whenever that day
      can be stored. */
  lemma CreatedDueTomorrow(t: Tables, id: string, card: Card, today: string)
    requires Parse(today).Some? && id !in t.cards && id !in t.schedules
    ensures var (u, out) := CreateCard(t, id, card, today);
            && (out == Done <==> InRange(DayOf(today) + 1))
            && (out == Done ==>
                  && id in u.schedules && DaysOff(u.schedules[id], DayOf(today), 1)
                  && u.schedules[id].stage == 0 && u.schedules[id].lapses == 0)
  {
    hide Parse, AddDays, ToTimePtr, DayOf, InRange;
    Queue.StoredDay(today, 1);
  }

  // ----- real days ----------------------------------------------------------

  /** Cards were captured, and due reviews held, on real dates. */
  predicate RealDays(t: Tables) {
    && (forall id :: id in t.cards ==> Parse(t.cards[id].captured).Some?)
    && (forall i :: 0 <= i < |t.logs| && t.logs[i].source == DueQueue ==> Parse(t.logs[i].day).Some?)
  }

  lemma RealDaysStay(t: Tables, tx: Tx)
    requires RealDays(t) && Races.Dated(tx)
    ensures RealDays(Apply(t, tx).0)
  {
    hide Parse, NewSchedule, ToTimePtr, Rate, StartRun, FinishRun, Answered, Without, Purgeable, Detach;
    match tx {
      case TxRate(id, rating, today) => RateKeepsRealDays(t, id, rating, today);
      case TxStartRun(_, _, _, _, _) => SetsAndRunsKeepCards(t, tx);
      case TxFinishRun(_, _) => SetsAndRunsKeepCards(t, tx);
      case TxDiscardRun(run) => assert DiscardRun(t, run).0.cards == t.cards;
      case _ =>
    }
  }

  lemma RateKeepsRealDays(t: Tables, id: string, rating: Rating, today: string)
    requires RealDays(t) && Parse(today).Some?
    ensures RealDays(Rate(t, id, rating, today).0)
  {
    hide Parse, Next, IntervalDays, ToTimePtr, FromTimePtr;
  }

  lemma {:induction false} HistoryDays(logs: seq<Log>, id: string)
    requires forall i :: 0 <= i < |logs| && logs[i].source == DueQueue ==> Parse(logs[i].day).Some?
    ensures var h := History(logs, id); h != [] ==> Parse(h[|h| - 1].day).Some?
  {
    hide Parse;
    if logs != [] { HistoryDays(logs[..|logs| - 1], id); }
  }

  // ----- the interval before ------------------------------------------------

  /** The day of the card's last due review, the day it was captured before the first. */
  function LastReview(t: Tables, id: string): string
    requires id in t.cards
  {
    LastDay(t.cards[id].captured, Reviews(History(t.logs, id)))
  }

  lemma LastReviewIsReal(t: Tables, id: string)
    requires RealDays(t) && id in t.cards
    ensures Parse(LastReview(t, id)).Some?
  {
    HistoryDays(t.logs, id);
    hide Parse, History;
  }

  /** In every state the interval a schedule stands on is the days from the
      last due review to its next date. */
  lemma IntervalIsDays(t: Tables, id: string)
    requires ReplayInv(t) && RealDays(t) && id in t.cards
    ensures Parse(LastReview(t, id)).Some?
    ensures var n, streak := IntervalDays(ToSchedule(id, t.schedules[id])), Streak(Reviews(History(t.logs, id)));
            DaysOff(t.schedules[id], DayOf(LastReview(t, id)), n) && n == if streak > TOP then 0 else LADDER[streak]
  {
    LastReviewIsReal(t, id);
    assert id in t.schedules by { hide Replays; }
    RowClosedForm(t, id);
    var streak := Streak(Reviews(History(t.logs, id)));
    hide *;
    RungIsDays(id, t.schedules[id], LastReview(t, id), streak);
  }

  lemma RungIsDays(id: string, row: ScheduleRow, day: string, streak: nat)
    requires Parse(day).Some? && (row.state == Mastered <==> streak > TOP)
    requires row.stage == if streak > TOP then TOP else streak
    requires FromTimePtr(row.nextReview) == if streak > TOP then "" else AddDays(day, LADDER[streak])
    ensures var n := IntervalDays(ToSchedule(id, row));
            DaysOff(row, DayOf(day), n) && n == if streak > TOP then 0 else LADDER[streak]
  {
    hide Parse, AddDays, DayOf, FromTimePtr;
    NextIsDate(row.nextReview, day, if streak > TOP then 0 else LADDER[streak]);
    if streak <= TOP { AddedNotEmpty(day, LADDER[streak]); }
  }

  lemma NextIsDate(next: Option<int>, day: string, n: nat)
    requires Parse(day).Some? && FromTimePtr(next) == if n == 0 then "" else AddDays(day, n)
    ensures next == if n == 0 then None else Some(DayOf(day) + n)
  {
    hide Parse, DayOf, FromTime;
    if next.Some? { FromTimeParse(next.value); }
    if n > 0 {
      AddDaysIs(day, n);
      FromTimeParse(DayOf(day) + n);
      FromTimeInjective(next.value, DayOf(day) + n);
    }
  }

  /** The rungs: 1 day, and after one to six due reviews in a row remembered
      3, 7, 14, 30, 90 and 180; after seven the card is off the ladder. */
  lemma StreakSetsInterval(t: Tables, id: string)
    requires ReplayInv(t) && RealDays(t) && id in t.cards
    ensures id in t.schedules
    ensures IntervalDays(ToSchedule(id, t.schedules[id]))
         == match Streak(Reviews(History(t.logs, id)))
            case 0 => 1
            case 1 => 3
            case 2 => 7
            case 3 => 14
            case 4 => 30
            case 5 => 90
            case 6 => 180
            case _ => 0
  {
    IntervalIsDays(t, id);
    hide ReplayInv, RealDays, IntervalDays, History, Streak, DaysOff;
  }

  /** A rating that nothing overtakes logs that interval as the one before. */
  lemma LoggedBeforeIsDays(t: Tables, id: string, rating: Rating, today: string)
    requires ReplayInv(t) && RealDays(t) && Rate(t, id, rating, today).1 == Done
    ensures var u := Rate(t, id, rating, today).0;
            && id in t.cards && |u.logs| == |t.logs| + 1 && Parse(LastReview(t, id)).Some?
            && DaysOff(t.schedules[id], DayOf(LastReview(t, id)), u.logs[|t.logs|].before)
  {
    IntervalIsDays(t, id);
    hide ReplayInv, RealDays, LastReview, DaysOff, Parse, DayOf, Next, IntervalDays, ToTimePtr, FromTimePtr;
  }
}
