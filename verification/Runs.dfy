/** What every transaction keeps about review sets, runs, snapshots and
    answers, and what no transaction ever takes away. */
module RunInvariant {
  import opened Text
  import opened Sequences
  import opened Srs
  import opened Choices
  import opened Store

  // ----- the invariant ------------------------------------------------------

  predicate DistinctCards(qs: seq<Question>) {
    forall i, j :: 0 <= i < j < |qs| ==> qs[i].card != qs[j].card
  }

  /** Four different options with the index inside, or plain recall. */
  predicate WellAsked(q: Question) {
    q.choice.Some? ==>
      |q.choice.value.options| == CHOICE_COUNT && Distinct(q.choice.value.options)
          && q.choice.value.correctIndex < CHOICE_COUNT
  }

  predicate SnapshotSound(qs: seq<Question>) {
    qs != [] && DistinctCards(qs) && forall i :: 0 <= i < |qs| ==> WellAsked(qs[i])
  }

  /** An open run has no score; a finished one scores out of its snapshot. */
  predicate ScoreSound(run: Run, qs: seq<Question>) {
    if run.finishedAt.None? then run.total == 0 && run.correct == 0
    else run.correct <= run.total && run.total == |qs|
  }

  predicate RunsSound(t: Tables) {
    && t.questions.Keys == t.runs.Keys
    && t.runs.Keys <= t.issued
    && forall r :: r in t.runs ==>
        t.runs[r].setId in t.sets && SnapshotSound(t.questions[r]) && ScoreSound(t.runs[r], t.questions[r])
  }

  ghost predicate OneOpenRun(t: Tables) {
    forall r, s, setId :: IsOpen(t, r, setId) && IsOpen(t, s, setId) ==> r == s
  }

  /** No foreign key says so, but every question names a card row. */
  predicate QuestionsNameCards(t: Tables) {
    forall r, i :: r in t.questions && 0 <= i < |t.questions[r]| ==> t.questions[r][i].card in t.cards
  }

  /** Nor here; and an answer of a run answers one of its questions, once. */
  predicate LogSound(t: Tables, l: Log) {
    && l.card in t.cards
    && (l.run.Some? ==> l.source == SetRun && l.run.value in t.questions && Asks(t.questions[l.run.value], l.card))
  }

  predicate AnsweredOnce(logs: seq<Log>) {
    forall i, j :: 0 <= i < j < |logs| && logs[i].run.Some? && logs[i].run == logs[j].run
        ==> logs[i].card != logs[j].card
  }

  predicate LogsAnswer(t: Tables) {
    AnsweredOnce(t.logs) && forall i :: 0 <= i < |t.logs| ==> LogSound(t, t.logs[i])
  }

  predicate SetsSound(t: Tables) {
    forall s :: s in t.sets ==>
      Distinct(t.sets[s].pinned) && forall i :: 0 <= i < |t.sets[s].pinned| ==> t.sets[s].pinned[i] in t.cards
  }

  ghost predicate RunInv(t: Tables) {
    RunsSound(t) && OneOpenRun(t) && QuestionsNameCards(t) && LogsAnswer(t) && SetsSound(t)
  }

  // ----- counting -----------------------------------------------------------

  function CorrectCards(logs: seq<Log>, run: string): set<string> {
    set i | 0 <= i < |logs| && logs[i].run == Some(run) && logs[i].rating == Ingat :: logs[i].card
  }

  function QuestionCards(qs: seq<Question>): set<string> {
    set i | 0 <= i < |qs| :: qs[i].card
  }

  lemma CorrectCardsStep(logs: seq<Log>, l: Log, run: string)
    requires AnsweredOnce(logs + [l])
    ensures AnsweredOnce(logs)
    ensures CorrectCards(logs + [l], run)
        == CorrectCards(logs, run) + (if l.run == Some(run) && l.rating == Ingat then {l.card} else {})
    ensures l.run == Some(run) ==> l.card !in CorrectCards(logs, run)
  {
    var all := logs + [l];
    assert all[|logs|] == l && all[..|logs|] == logs;
    forall x | x in CorrectCards(logs, run) ensures x in CorrectCards(all, run) {
      var i :| 0 <= i < |logs| && logs[i].run == Some(run) && logs[i].rating == Ingat && logs[i].card == x;
      assert all[i] == logs[i];
    }
    forall i, j | 0 <= i < j < |logs| && logs[i].run.Some? && logs[i].run == logs[j].run
      ensures logs[i].card != logs[j].card
    {
      assert all[i] == logs[i] && all[j] == logs[j];
    }
  }

  lemma {:induction false} CountIsCards(logs: seq<Log>, run: string)
    requires AnsweredOnce(logs)
    ensures CountCorrect(logs, run) == |CorrectCards(logs, run)|
  {
    if logs != [] {
      var n := |logs| - 1;
      assert logs == logs[..n] + [logs[n]];
      CorrectCardsStep(logs[..n], logs[n], run);
      hide AnsweredOnce, CorrectCards;
      CountIsCards(logs[..n], run);
    } else {
      assert CorrectCards(logs, run) == {};
    }
  }

  lemma {:induction false} QuestionCardsCount(qs: seq<Question>)
    ensures |QuestionCards(qs)| <= |qs|
  {
    if qs != [] {
      var n := |qs| - 1;
      QuestionCardsCount(qs[..n]);
      assert QuestionCards(qs) == QuestionCards(qs[..n]) + {qs[n].card};
    }
  }

  /** A run never counts more right answers than it asked questions. */
  lemma CorrectAtMostAsked(t: Tables, run: string)
    requires LogsAnswer(t) && run in t.questions
    ensures CountCorrect(t.logs, run) <= |t.questions[run]|
  {
    CountIsCards(t.logs, run);
    QuestionCardsCount(t.questions[run]);
    var c, q := CorrectCards(t.logs, run), QuestionCards(t.questions[run]);
    forall x | x in c ensures x in q {
      var i :| 0 <= i < |t.logs| && t.logs[i].run == Some(run) && t.logs[i].card == x;
      assert LogSound(t, t.logs[i]);
    }
    CardinalityGrows(c, q);
  }

  /** So the CHECK constraint of FinishRun never fires. */
  lemma FinishNeverRefused(t: Tables, run: string, now: int)
    requires RunInv(t)
    ensures FinishRun(t, run, now).1 != Refused
    ensures FinishRun(t, run, now).1 == Done <==> run in t.runs && t.runs[run].finishedAt.None?
  {
    if run in t.questions { CorrectAtMostAsked(t, run); }
  }

  // ----- one lemma per transaction ------------------------------------------

  /** More cards, the same everything else. */
  predicate SameRuns(t: Tables, u: Tables) {
    u.logs == t.logs && u.sets == t.sets && u.runs == t.runs && u.questions == t.questions && u.issued == t.issued
  }

  lemma OpenOnlyBefore(t: Tables, u: Tables)
    requires OneOpenRun(t) && forall r, setId :: IsOpen(u, r, setId) ==> IsOpen(t, r, setId)
    ensures OneOpenRun(u)
  {
  }

  lemma CardsGrow(t: Tables, u: Tables)
    requires RunInv(t) && SameRuns(t, u) && t.cards.Keys <= u.cards.Keys
    ensures RunInv(u)
  {
    OpenOnlyBefore(t, u);
    forall i | 0 <= i < |u.logs| ensures LogSound(u, u.logs[i]) { assert LogSound(t, t.logs[i]); }
    hide SnapshotSound, ScoreSound, AnsweredOnce, Distinct, LogSound;
  }

  lemma CardTransactionsGrow(t: Tables, tx: Tx)
    requires tx.TxCreateCard? || tx.TxUpdateCard? || tx.TxDeleteCards? || tx.TxRestoreCards?
    ensures SameRuns(t, Apply(t, tx).0) && t.cards.Keys <= Apply(t, tx).0.cards.Keys
  {
    hide NewSchedule, Calendar.ToTimePtr;
  }

  lemma PurgeKeepsRuns(t: Tables, cutoff: int)
    requires RunInv(t)
    ensures RunInv(PurgeCards(t, cutoff).0)
  {
    var u := PurgeCards(t, cutoff).0;
    forall r, i | r in u.questions && 0 <= i < |u.questions[r]| ensures u.questions[r][i].card in u.cards {
      assert Asks(t.questions[r], t.questions[r][i].card) && HasQuestion(t, t.questions[r][i].card);
    }
    forall i | 0 <= i < |u.logs| ensures LogSound(u, u.logs[i]) {
      assert LogSound(t, t.logs[i]) && HasLog(t, t.logs[i].card);
    }
    OpenOnlyBefore(t, u);
    hide SnapshotSound, ScoreSound, AnsweredOnce, LogSound, HasLog, HasQuestion, Distinct;
    forall s | s in u.sets
      ensures Distinct(u.sets[s].pinned) && forall i :: 0 <= i < |u.sets[s].pinned| ==> u.sets[s].pinned[i] in u.cards
    {
      forall i | 0 <= i < |u.sets[s].pinned| ensures u.sets[s].pinned[i] in u.cards {
        assert u.sets[s].pinned[i] in u.sets[s].pinned;
      }
    }
  }

  lemma LogAppended(t: Tables, u: Tables, l: Log)
    requires RunInv(t) && u.logs == t.logs + [l] && u.cards == t.cards && u.sets == t.sets
    requires u.runs == t.runs && u.questions == t.questions && u.issued == t.issued
    requires LogSound(t, l) && (l.run.Some? ==> !Answered(t.logs, l.run.value, l.card))
    ensures RunInv(u)
  {
    OpenOnlyBefore(t, u);
    forall i | 0 <= i < |u.logs| ensures LogSound(u, u.logs[i]) {
      if i < |t.logs| { assert LogSound(t, t.logs[i]); }
    }
    assert AnsweredOnce(u.logs);
    hide SnapshotSound, ScoreSound, AnsweredOnce, Distinct, LogSound;
  }

  lemma RateKeepsRuns(t: Tables, id: string, rating: Rating, today: string)
    requires RunInv(t)
    ensures RunInv(Rate(t, id, rating, today).0)
  {
    hide RunInv, RateWrite;
    if Live(t, id) && id in t.schedules { RateWriteKeepsRuns(t, id, t.schedules[id], rating, today); }
  }

  lemma RateWriteKeepsRuns(t: Tables, id: string, read: ScheduleRow, rating: Rating, today: string)
    requires RunInv(t) && (id in t.schedules ==> id in t.cards)
    ensures RunInv(RateWrite(t, id, read, rating, today).0)
  {
    hide RunInv, Next, IntervalDays, Calendar.ToTimePtr, Calendar.FromTimePtr;
    var u := RateWrite(t, id, read, rating, today).0;
    if u != t {
      var v := t.(logs := u.logs);
      LogAppended(t, v, u.logs[|t.logs|]);
      SchedulesDoNotMatter(v, u);
    }
  }

  lemma SchedulesDoNotMatter(t: Tables, u: Tables)
    requires RunInv(t) && SameRuns(t, u) && u.cards == t.cards
    ensures RunInv(u)
  {
    CardsGrow(t, u);
  }

  lemma InsertAnswerKeepsRuns(t: Tables, run: string, card: string, rating: Rating, interval: nat, format: Format,
              day: string)
    requires RunInv(t) && (run in t.runs ==> Asks(t.questions[run], card))
    ensures RunInv(InsertAnswer(t, run, card, rating, interval, format, day).0)
  {
    var u := InsertAnswer(t, run, card, rating, interval, format, day).0;
    if u != t {
      var i :| 0 <= i < |t.questions[run]| && t.questions[run][i].card == card;
      hide SnapshotSound, ScoreSound, AnsweredOnce, Answered, OneOpenRun;
      LogAppended(t, u, u.logs[|t.logs|]);
    }
  }

  lemma SaveSetKeepsRuns(t: Tables, id: string, s: ReviewSet)
    requires RunInv(t)
    ensures RunInv(SaveSet(t, id, s).0)
  {
    var u := SaveSet(t, id, s).0;
    OpenOnlyBefore(t, u);
    forall i | 0 <= i < |u.logs| ensures LogSound(u, u.logs[i]) { assert LogSound(t, t.logs[i]); }
    hide SnapshotSound, ScoreSound, AnsweredOnce, Distinct, LogSound;
  }

  lemma DeleteSetKeepsRuns(t: Tables, id: string)
    requires RunInv(t)
    ensures RunInv(DeleteSet(t, id).0)
  {
    var u := DeleteSet(t, id).0;
    OpenOnlyBefore(t, u);
    forall i | 0 <= i < |u.logs| ensures LogSound(u, u.logs[i]) { assert LogSound(t, t.logs[i]); }
    hide SnapshotSound, ScoreSound, AnsweredOnce, Distinct, LogSound;
  }

  /** A draw is distinct live cards, whichever way the set selects. */
  lemma DrawIsDistinctLive(t: Tables, s: ReviewSet, draw: seq<string>)
    requires DrawOk(t, s, draw) && Distinct(s.pinned)
    ensures Distinct(draw) && forall i :: 0 <= i < |draw| ==> Live(t, draw[i])
  {
    hide Distinct;
    forall i | 0 <= i < |draw| ensures Live(t, draw[i]) {
      assert draw[i] in draw && draw[i] in Elements(draw);
    }
  }

  lemma SnapshotIsSound(t: Tables, s: ReviewSet, draw: seq<string>, asked: map<string, Choice>)
    requires draw != [] && Distinct(draw) && AskedOk(t, s, draw, asked)
    ensures SnapshotSound(Snapshot(draw, asked))
    ensures forall i :: 0 <= i < |draw| ==> Snapshot(draw, asked)[i].card == draw[i]
  {
    var qs := Snapshot(draw, asked);
    hide BacksOf, LiveBacks, Askable;
    forall i | 0 <= i < |qs| ensures WellAsked(qs[i]) {
      if draw[i] in asked { assert IsChoice(asked[draw[i]], BacksOf(t, draw)[draw[i]], LiveBacks(t, {}, {})); }
    }
  }

  lemma StartRunKeepsRuns(t: Tables, setId: string, runId: string, draw: seq<string>, asked: map<string, Choice>,
              runDate: string)
    requires RunInv(t)
    ensures RunInv(StartRun(t, setId, runId, draw, asked, runDate).0)
  {
    hide DrawOk, AskedOk, Distinct, Snapshot, SnapshotSound;
    var u := StartRun(t, setId, runId, draw, asked, runDate).0;
    if u != t {
      DrawIsDistinctLive(t, t.sets[setId], draw);
      SnapshotIsSound(t, t.sets[setId], draw, asked);
      RunAdded(t, u, setId, runId, runDate, Snapshot(draw, asked));
    }
  }

  lemma RunAdded(t: Tables, u: Tables, setId: string, runId: string, runDate: string, qs: seq<Question>)
    requires RunInv(t) && setId in t.sets && runId !in t.issued && SnapshotSound(qs)
    requires forall r :: !IsOpen(t, r, setId)
    requires forall i :: 0 <= i < |qs| ==> qs[i].card in t.cards
    requires u == t.(runs := t.runs[runId := Run(setId, runDate, None, 0, 0)], questions := t.questions[runId := qs],
        issued := t.issued + {runId})
    ensures RunInv(u)
  {
    hide SnapshotSound, AnsweredOnce, Distinct, SetsSound;
    assert SetsSound(u) by { SetsNeedCardsOnly(t, u); }
    OneOpenAdded(t, u, setId, runId);
    hide OneOpenRun, IsOpen;
    forall i | 0 <= i < |u.logs| ensures LogSound(u, u.logs[i]) { assert LogSound(t, t.logs[i]); }
    hide LogSound;
  }

  lemma SetsNeedCardsOnly(t: Tables, u: Tables)
    requires SetsSound(t) && u.sets == t.sets && u.cards == t.cards
    ensures SetsSound(u)
  {
  }

  lemma OneOpenAdded(t: Tables, u: Tables, setId: string, runId: string)
    requires OneOpenRun(t) && forall r :: !IsOpen(t, r, setId)
    requires runId in u.runs && u.runs[runId].setId == setId && u.runs == t.runs[runId := u.runs[runId]]
    ensures OneOpenRun(u)
  {
    forall r, s, x | IsOpen(u, r, x) && IsOpen(u, s, x) ensures r == s {
      if r != runId { assert IsOpen(t, r, x); }
      if s != runId { assert IsOpen(t, s, x); }
    }
  }

  lemma FinishKeepsRuns(t: Tables, run: string, now: int)
    requires RunInv(t)
    ensures RunInv(FinishRun(t, run, now).0)
  {
    hide CountCorrect;
    var u := FinishRun(t, run, now).0;
    OpenOnlyBefore(t, u);
    forall i | 0 <= i < |u.logs| ensures LogSound(u, u.logs[i]) { assert LogSound(t, t.logs[i]); }
    hide SnapshotSound, AnsweredOnce, Distinct, LogSound, OneOpenRun;
  }

  lemma DiscardKeepsRuns(t: Tables, run: string)
    requires RunInv(t)
    ensures RunInv(DiscardRun(t, run).0)
  {
    var u := DiscardRun(t, run).0;
    OpenOnlyBefore(t, u);
    forall i | 0 <= i < |u.logs| ensures LogSound(u, u.logs[i]) { assert LogSound(t, t.logs[i]); }
    hide SnapshotSound, Distinct, LogSound, OneOpenRun, ScoreSound;
  }

  /** Every transaction keeps the whole invariant; an answer must be to a
      question the run asks, if the run is still there. */
  lemma RunsPreserved(t: Tables, tx: Tx)
    requires RunInv(t)
    requires tx.TxInsertAnswer? && tx.runId in t.runs ==> Asks(t.questions[tx.runId], tx.cardId)
    ensures RunInv(Apply(t, tx).0)
  {
    hide RunInv;
    match tx
    case TxPurge(cutoff) => PurgeKeepsRuns(t, cutoff);
    case TxRate(id, rating, today) => RateKeepsRuns(t, id, rating, today);
    case TxSaveSet(setId, s) => SaveSetKeepsRuns(t, setId, s);
    case TxDeleteSet(setId) => DeleteSetKeepsRuns(t, setId);
    case TxStartRun(setId, runId, draw, asked, runDate) => StartRunKeepsRuns(t, setId, runId, draw, asked, runDate);
    case TxInsertAnswer(run, card, rating, interval, format, day) =>
        InsertAnswerKeepsRuns(t, run, card, rating, interval, format, day);
    case TxFinishRun(run, now) => FinishKeepsRuns(t, run, now);
    case TxDiscardRun(run) => DiscardKeepsRuns(t, run);
    case _ =>
      CardTransactionsGrow(t, tx);
      CardsGrow(t, Apply(t, tx).0);
  }
}
