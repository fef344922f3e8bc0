/** The schedule of a card is always the replay of its log: no transaction
    moves one without the other, and none but a rating moves either. */
module ReplayInvariant {
  import opened Text
  import opened Sequences
  import opened Calendar
  import opened Srs
  import opened Store

  /** A card's due-queue log rows, in order. */
  function History(logs: seq<Log>, id: string): seq<Log> {
    if logs == [] then []
    else
      var l := logs[|logs| - 1];
      History(logs[..|logs| - 1], id) + (if l.source == DueQueue && l.card == id then [l] else [])
  }

  function Reviews(h: seq<Log>): (r: seq<Review>)
    ensures |r| == |h|
  {
    seq(|h|, i requires 0 <= i < |h| => Review(h[i].rating, h[i].day))
  }

  function ReplayLogs(id: string, captured: string, h: seq<Log>): Schedule {
    Replay(id, captured, Reviews(h))
  }

  /** Each row logged the interval the card really had before and after. */
  predicate Honest(id: string, captured: string, h: seq<Log>) {
    forall i :: 0 <= i < |h| ==>
      && h[i].before == IntervalDays(ReplayLogs(id, captured, h[..i]))
      && h[i].after == IntervalDays(ReplayLogs(id, captured, h[..i + 1]))
  }

  predicate Replays(id: string, captured: string, row: ScheduleRow, logs: seq<Log>) {
    var h := History(logs, id);
    ToSchedule(id, row) == ReplayLogs(id, captured, h) && Honest(id, captured, h)
  }

  predicate LogsSound(t: Tables) {
    forall i :: 0 <= i < |t.logs| ==>
      t.logs[i].card in t.cards && (t.logs[i].run.Some? ==> t.logs[i].source == SetRun)
  }

  predicate ReplayInv(t: Tables) {
    && t.schedules.Keys == t.cards.Keys
    && LogsSound(t)
    && forall id :: id in t.cards ==> Replays(id, t.cards[id].captured, t.schedules[id], t.logs)
  }

  // ----- histories ----------------------------------------------------------

  lemma HistoryAppend(logs: seq<Log>, l: Log, id: string)
    ensures History(logs + [l], id) == History(logs, id) + (if l.source == DueQueue && l.card == id then [l] else [])
  {
    assert (logs + [l])[..|logs|] == logs;
  }

  lemma {:induction false} HistoryDetached(logs: seq<Log>, run: string, id: string)
    requires forall i :: 0 <= i < |logs| ==> logs[i].run.Some? ==> logs[i].source == SetRun
    ensures History(Detach(logs, run), id) == History(logs, id)
  {
    if logs != [] {
      var init, l := logs[..|logs| - 1], logs[|logs| - 1];
      var d := Detach(logs, run);
      assert d[..|logs| - 1] == Detach(init, run);
      assert d[|logs| - 1] == l || (l.source == SetRun && d[|logs| - 1].source == SetRun);
      hide Detach;
      HistoryDetached(init, run, id);
    }
  }

  lemma {:induction false} NoHistory(logs: seq<Log>, id: string)
    requires forall i :: 0 <= i < |logs| ==> logs[i].card != id
    ensures History(logs, id) == []
  {
    if logs != [] { NoHistory(logs[..|logs| - 1], id); }
  }

  lemma ReplayOneMore(id: string, captured: string, h: seq<Log>, l: Log)
    ensures ReplayLogs(id, captured, h + [l]) == Next(ReplayLogs(id, captured, h), l.rating, l.day)
  {
    hide Next;
    var r := Reviews(h + [l]);
    assert r[|h|] == Review(l.rating, l.day);
    assert r[..|h|] == Reviews(h);
  }

  lemma HonestOneMore(id: string, captured: string, h: seq<Log>, l: Log)
    requires Honest(id, captured, h)
    requires l.before == IntervalDays(ReplayLogs(id, captured, h))
    requires l.after == IntervalDays(ReplayLogs(id, captured, h + [l]))
    ensures Honest(id, captured, h + [l])
  {
    hide IntervalDays, ReplayLogs;
    var g := h + [l];
    assert g[..|h|] == h && g[..|h| + 1] == g;
    forall i | 0 <= i < |g|
      ensures g[i].before == IntervalDays(ReplayLogs(id, captured, g[..i]))
          && g[i].after == IntervalDays(ReplayLogs(id, captured, g[..i + 1]))
    {
      if i < |h| { assert g[..i] == h[..i] && g[..i + 1] == h[..i + 1]; }
    }
  }

  /** What one row says the interval became is what the next one says it was. */
  lemma IntervalsChain(id: string, captured: string, row: ScheduleRow, logs: seq<Log>, i: nat)
    requires Replays(id, captured, row, logs) && i + 1 < |History(logs, id)|
    ensures History(logs, id)[i].after == History(logs, id)[i + 1].before
  {
  }

  /** In every state the current row is the replay in closed form: lapses are
      the forgotten due reviews, mastered is seven remembered in a row. */
  lemma RowClosedForm(t: Tables, id: string)
    requires ReplayInv(t) && id in t.cards
    ensures var r := Reviews(History(t.logs, id));
            var row := t.schedules[id];
            && row.lapses == Forgotten(r)
            && (row.state == Mastered <==> Streak(r) > TOP)
            && row.stage == (if Streak(r) > TOP then TOP else Streak(r))
            && FromTimePtr(row.nextReview)
                == (if Streak(r) > TOP then "" else AddDays(LastDay(t.cards[id].captured, r), LADDER[Streak(r)]))
  {
    hide AddDays, FromTimePtr;
    assert Replays(id, t.cards[id].captured, t.schedules[id], t.logs);
    ReplayClosedForm(id, t.cards[id].captured, Reviews(History(t.logs, id)));
  }

  // ----- one lemma per transaction ------------------------------------------

  lemma CreateCardReplays(t: Tables, id: string, card: Card, today: string)
    requires ReplayInv(t)
    ensures ReplayInv(CreateCard(t, id, card, today).0)
  {
    hide Replays, Honest, AddDays, ToTimePtr, FromTimePtr;
    var u := CreateCard(t, id, card, today).0;
    if u != t {
      var first := NewSchedule(id, today);
      ColumnRoundTrips(first.nextReview, None);
      NoHistory(t.logs, id);
      FreshReplays(id, today, u.schedules[id], t.logs);
    }
  }

  lemma FreshReplays(id: string, today: string, row: ScheduleRow, logs: seq<Log>)
    requires ToSchedule(id, row) == NewSchedule(id, today) && History(logs, id) == []
    ensures Replays(id, today, row, logs)
  {
    assert Reviews([]) == [];
  }

  lemma UpdateReplays(t: Tables, id: string, card: Card)
    requires ReplayInv(t)
    ensures ReplayInv(UpdateCard(t, id, card).0)
  {
    hide Replays;
  }

  lemma TrashReplays(t: Tables, ids: set<string>, now: int)
    requires ReplayInv(t)
    ensures ReplayInv(DeleteCards(t, ids, now).0) && ReplayInv(RestoreCards(t, ids).0)
  {
    hide Replays;
  }

  lemma PurgeReplays(t: Tables, cutoff: int)
    requires ReplayInv(t)
    ensures ReplayInv(PurgeCards(t, cutoff).0)
  {
    hide Replays;
    var u := PurgeCards(t, cutoff).0;
    assert u.schedules.Keys == u.cards.Keys;
    forall i | 0 <= i < |t.logs| ensures t.logs[i].card in u.cards {
      assert HasLog(t, t.logs[i].card);
    }
  }

  lemma SameHistoryReplays(id: string, captured: string, row: ScheduleRow, logs: seq<Log>, later: seq<Log>)
    requires Replays(id, captured, row, logs) && History(later, id) == History(logs, id)
    ensures Replays(id, captured, row, later)
  {
    hide Honest, ReplayLogs, ToSchedule;
  }

  lemma RatedReplays(id: string, captured: string, row: ScheduleRow, logs: seq<Log>, l: Log, next: Schedule,
              after: ScheduleRow)
    requires Replays(id, captured, row, logs)
    requires l.card == id && l.source == DueQueue
    requires next == Next(ToSchedule(id, row), l.rating, l.day) && ToSchedule(id, after) == next
    requires l.before == IntervalDays(ToSchedule(id, row)) && l.after == IntervalDays(next)
    ensures Replays(id, captured, after, logs + [l])
  {
    hide Honest, Next, IntervalDays, ToSchedule, ReplayLogs;
    HistoryAppend(logs, l, id);
    ReplayOneMore(id, captured, History(logs, id), l);
    HonestOneMore(id, captured, History(logs, id), l);
  }

  lemma RateReplays(t: Tables, id: string, rating: Rating, today: string)
    requires ReplayInv(t)
    ensures ReplayInv(Rate(t, id, rating, today).0)
  {
    hide RateWrite, Replays, LogsSound;
    if Live(t, id) { WriteReplays(t, id, rating, today); }
  }

  lemma WriteReplays(t: Tables, id: string, rating: Rating, today: string)
    requires ReplayInv(t) && id in t.cards
    ensures ReplayInv(RateWrite(t, id, t.schedules[id], rating, today).0)
  {
    hide Replays, Next, ToTimePtr, FromTimePtr, IntervalDays;
    var u := RateWrite(t, id, t.schedules[id], rating, today).0;
    if u != t {
      var next := Next(ToSchedule(id, t.schedules[id]), rating, today);
      ColumnRoundTrips(next.nextReview, None);
      NextKeepsCard(ToSchedule(id, t.schedules[id]), rating, today);
      var l := u.logs[|t.logs|];
      RatedReplays(id, t.cards[id].captured, t.schedules[id], t.logs, l, next, u.schedules[id]);
      forall x | x in u.cards && x != id ensures Replays(x, u.cards[x].captured, u.schedules[x], u.logs) {
        HistoryAppend(t.logs, l, x);
        SameHistoryReplays(x, t.cards[x].captured, t.schedules[x], t.logs, u.logs);
      }
    }
  }

  lemma NextKeepsCard(s: Schedule, rating: Rating, today: string)
    ensures Next(s, rating, today).cardId == s.cardId
  {
    hide AddDays;
  }

  lemma InsertAnswerReplays(t: Tables, run: string, card: string, rating: Rating, interval: nat, format: Format,
              day: string)
    requires ReplayInv(t) && (run in t.runs ==> card in t.cards)
    ensures ReplayInv(InsertAnswer(t, run, card, rating, interval, format, day).0)
  {
    hide Replays, Answered;
    var u := InsertAnswer(t, run, card, rating, interval, format, day).0;
    if u != t {
      forall x | x in u.cards ensures Replays(x, u.cards[x].captured, u.schedules[x], u.logs) {
        HistoryAppend(t.logs, u.logs[|t.logs|], x);
        SameHistoryReplays(x, t.cards[x].captured, t.schedules[x], t.logs, u.logs);
      }
    }
  }

  lemma DiscardReplays(t: Tables, run: string)
    requires ReplayInv(t)
    ensures ReplayInv(DiscardRun(t, run).0)
  {
    hide Replays;
    var u := DiscardRun(t, run).0;
    if u != t {
      forall x | x in u.cards ensures Replays(x, u.cards[x].captured, u.schedules[x], u.logs) {
        HistoryDetached(t.logs, run, x);
        SameHistoryReplays(x, t.cards[x].captured, t.schedules[x], t.logs, u.logs);
      }
    }
  }

  /** Transactions on sets and runs leave cards, schedules and logs alone. */
  predicate SameCards(t: Tables, u: Tables) {
    u.cards == t.cards && u.schedules == t.schedules && u.logs == t.logs
  }

  lemma SetsAndRunsKeepCards(t: Tables, tx: Tx)
    requires tx.TxSaveSet? || tx.TxDeleteSet? || tx.TxStartRun? || tx.TxFinishRun?
    ensures SameCards(t, Apply(t, tx).0)
  {
    hide DrawOk, AskedOk, Snapshot, CountCorrect, Distinct, IsOpen;
  }

  /** Every transaction keeps every schedule equal to its replay. */
  lemma ReplayPreserved(t: Tables, tx: Tx)
    requires ReplayInv(t)
    requires tx.TxInsertAnswer? && tx.runId in t.runs ==> tx.cardId in t.cards
    ensures ReplayInv(Apply(t, tx).0)
  {
    hide ReplayInv;
    match tx
    case TxCreateCard(id, card, today) => CreateCardReplays(t, id, card, today);
    case TxUpdateCard(id, card) => UpdateReplays(t, id, card);
    case TxDeleteCards(ids, now) => TrashReplays(t, ids, now);
    case TxRestoreCards(ids) => TrashReplays(t, ids, 0);
    case TxPurge(cutoff) => PurgeReplays(t, cutoff);
    case TxRate(id, rating, today) => RateReplays(t, id, rating, today);
    case TxInsertAnswer(run, card, rating, interval, format, day) =>
        InsertAnswerReplays(t, run, card, rating, interval, format, day);
    case TxDiscardRun(run) => DiscardReplays(t, run);
    case _ => SameCardsReplay(t, tx);
  }

  lemma SameCardsReplay(t: Tables, tx: Tx)
    requires ReplayInv(t) && (tx.TxSaveSet? || tx.TxDeleteSet? || tx.TxStartRun? || tx.TxFinishRun?)
    ensures ReplayInv(Apply(t, tx).0)
  {
    hide Replays, Apply;
    SetsAndRunsKeepCards(t, tx);
  }

  /** Only a rating of that very card moves its schedule row, and nothing ever
      moves the day it was captured on. */
  lemma OnlyRatingsMoveSchedules(t: Tables, tx: Tx, id: string)
    requires id in t.cards && id in t.schedules && id in Apply(t, tx).0.cards
    ensures Apply(t, tx).0.cards[id].captured == t.cards[id].captured
    ensures !(tx.TxRate? && tx.id == id) ==>
        id in Apply(t, tx).0.schedules && Apply(t, tx).0.schedules[id] == t.schedules[id]
  {
    hide CreateCard, UpdateCard, DeleteCards, RestoreCards, PurgeCards, Rate, SaveSet, DeleteSet, StartRun, FinishRun,
         InsertAnswer, DiscardRun;
    match tx
    case TxRate(_, _, _) => RateMovesOne(t, tx.id, tx.rating, tx.today);
    case TxPurge(cutoff) => PurgeMovesNone(t, cutoff, id);
    case TxInsertAnswer(_, _, _, _, _, _) => AnswersMoveNone(t, tx);
    case TxDiscardRun(_) => AnswersMoveNone(t, tx);
    case TxSaveSet(_, _) => SetsAndRunsKeepCards(t, tx);
    case TxDeleteSet(_) => SetsAndRunsKeepCards(t, tx);
    case TxStartRun(_, _, _, _, _) => SetsAndRunsKeepCards(t, tx);
    case TxFinishRun(_, _) => SetsAndRunsKeepCards(t, tx);
    case _ => CardEditsMoveNone(t, tx, id);
  }

  lemma RateMovesOne(t: Tables, id: string, rating: Rating, today: string)
    ensures var u := Rate(t, id, rating, today).0;
            && u.cards == t.cards && t.schedules.Keys == u.schedules.Keys
            && forall y :: y in t.schedules && y != id ==> u.schedules[y] == t.schedules[y]
  {
    hide Next, FromTimePtr, ToTimePtr, IntervalDays;
  }

  lemma PurgeMovesNone(t: Tables, cutoff: int, id: string)
    requires id in t.cards && id in t.schedules && id in PurgeCards(t, cutoff).0.cards
    ensures var u := PurgeCards(t, cutoff).0;
            u.cards[id] == t.cards[id] && id in u.schedules && u.schedules[id] == t.schedules[id]
  {
    hide Without, Purgeable;
  }

  lemma AnswersMoveNone(t: Tables, tx: Tx)
    requires tx.TxInsertAnswer? || tx.TxDiscardRun?
    ensures Apply(t, tx).0.cards == t.cards && Apply(t, tx).0.schedules == t.schedules
  {
    hide Answered, Detach;
  }

  lemma CardEditsMoveNone(t: Tables, tx: Tx, id: string)
    requires tx.TxCreateCard? || tx.TxUpdateCard? || tx.TxDeleteCards? || tx.TxRestoreCards?
    requires id in t.cards && id in t.schedules && id in Apply(t, tx).0.cards
    ensures var u := Apply(t, tx).0;
            u.cards[id].captured == t.cards[id].captured && id in u.schedules && u.schedules[id] == t.schedules[id]
  {
    hide NewSchedule, ToTimePtr;
  }

  /** Restoring what was just deleted gives back the very same tables, the
      schedules untouched, exactly when none of those cards was in the trash
      already. */
  lemma RestoreUndoesDelete(t: Tables, ids: set<string>, now: int)
    ensures RestoreCards(DeleteCards(t, ids, now).0, ids).0 == t
        <==> forall id :: id in ids && id in t.cards ==> Live(t, id)
  {
    var u := RestoreCards(DeleteCards(t, ids, now).0, ids).0;
    assert u.cards.Keys == t.cards.Keys;
    if id :| id in ids && id in t.cards && !Live(t, id) {
      assert u.cards[id].deletedAt.None?;
    } else {
      forall id | id in t.cards ensures u.cards[id] == t.cards[id] {
        assert id in ids ==> Live(t, id);
      }
      assert u.cards == t.cards;
    }
  }
}
