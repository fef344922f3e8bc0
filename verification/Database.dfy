/** The tables as mutable state, and the statements that change them row by
    row. Each method is one transaction and ends in the state that `Store`
    says it ends in. */
module DatabaseTransactions {
  import opened Text
  import opened Sequences
  import opened Calendar
  import opened Srs
  import opened Choices
  import opened Store
  import opened RunInvariant

  /** In the trash since before the cutoff, never logged and never asked. */
  ghost predicate OldAndUnused(t: Tables, id: string, cutoff: int)
    requires id in t.cards
  {
    && t.cards[id].deletedAt.Some? && t.cards[id].deletedAt.value < cutoff
    && (forall i :: 0 <= i < |t.logs| ==> t.logs[i].card != id)
    && forall r, i :: r in t.questions && 0 <= i < |t.questions[r]| ==> t.questions[r][i].card != id
  }

  lemma PurgeableIs(t: Tables, id: string, cutoff: int)
    requires id in t.cards
    ensures Purgeable(t, id, cutoff) <==> OldAndUnused(t, id, cutoff)
  {
    if HasQuestion(t, id) {
      var r :| r in t.questions && Asks(t.questions[r], id);
      var i :| 0 <= i < |t.questions[r]| && t.questions[r][i].card == id;
    }
    if r, i :| r in t.questions && 0 <= i < |t.questions[r]| && t.questions[r][i].card == id {
      assert Asks(t.questions[r], id);
    }
  }

  /** Those cards are gone, with their schedules and their pins; all else stays. */
  ghost predicate PurgedOnly(t: Tables, u: Tables, cutoff: int) {
    && (forall id :: id in u.cards <==> id in t.cards && !OldAndUnused(t, id, cutoff))
    && (forall id :: id in u.cards ==> u.cards[id] == t.cards[id])
    && (forall id :: id in u.schedules <==> id in t.schedules && (id in t.cards ==> id in u.cards))
    && (forall id :: id in u.schedules ==> u.schedules[id] == t.schedules[id])
    && u.sets.Keys == t.sets.Keys
    && (forall s :: s in t.sets ==>
          forall id :: id in u.sets[s].pinned <==> id in t.sets[s].pinned && (id in t.cards ==> id in u.cards))
    && u.logs == t.logs && u.runs == t.runs && u.questions == t.questions
  }

  lemma PurgedExactly(t: Tables, cutoff: int)
    ensures PurgedOnly(t, PurgeCards(t, cutoff).0, cutoff)
  {
    forall id | id in t.cards ensures Purgeable(t, id, cutoff) <==> OldAndUnused(t, id, cutoff) {
      PurgeableIs(t, id, cutoff);
    }
    hide Purgeable, OldAndUnused, Without;
  }

  class Database {
    var cards: map<string, Card>
    var schedules: map<string, ScheduleRow>
    var logs: seq<Log>
    var sets: map<string, ReviewSet>
    var runs: map<string, Run>
    var questions: map<string, seq<Question>>
    var issued: set<string>  // stands for the uuid generator: run ids do not repeat

    function Snap(): Tables
      reads this
    {
      Tables(cards, schedules, logs, sets, runs, questions, issued)
    }

    constructor ()
      ensures Snap() == EMPTY
    {
      cards, schedules, logs := map[], map[], [];
      sets, runs, questions := map[], map[], map[];
      issued := {};
    }

    /** store.CreateCard: the card, then createSchedule. */
    method CreateCard(id: string, domain: Option<string>, categories: set<string>, front: string, back: string,
                today: string)
      returns (out: Outcome)
      modifies this
      ensures (Snap(), out)
          == Store.CreateCard(old(Snap()), id, Card(domain, categories, front, back, None, today), today)
      ensures out == Done ==>
                && id !in old(cards) && id in schedules
                && cards == old(cards)[id := Card(domain, categories, front, back, None, today)]
      ensures out != Done ==> Snap() == old(Snap())
      ensures logs == old(logs)
    {
      hide NewSchedule, ToTimePtr;
      var first := NewSchedule(id, today);
      var due := ToTimePtr(first.nextReview);
      if id in cards || due.Err? { return Refused; }
      cards := cards[id := Card(domain, categories, front, back, None, today)];
      if id !in schedules {
        schedules := schedules[id := ScheduleRow(first.stage, due.value, 0, first.state)];
      }
      return Done;
    }

    /** store.UpdateCard: the text moves, the schedule does not. */
    method UpdateCard(id: string, card: Card) returns (out: Outcome)
      modifies this
      ensures (Snap(), out) == Store.UpdateCard(old(Snap()), id, card)
      ensures schedules == old(schedules) && logs == old(logs)
      ensures out == if id in old(cards) && old(cards)[id].deletedAt.None? then Done else Missing
      ensures out != Done ==> cards == old(cards)
      ensures out == Done ==>
                cards == old(cards)[id :=
                  Card(card.domain, card.categories, card.front, card.back, None, old(cards)[id].captured)]
    {
      if id !in cards || cards[id].deletedAt.Some? { return Missing; }
      var row := cards[id];
      row := row.(domain := card.domain);
      row := row.(front := card.front, back := card.back);
      row := row.(categories := card.categories);
      cards := cards[id := row];
      return Done;
    }

    /** SoftDeleteCards, row by row; deleted rows keep their time. */
    method SoftDeleteCards(ids: set<string>, now: int)
      modifies this
      ensures Snap() == Store.DeleteCards(old(Snap()), ids, now).0
      ensures schedules == old(schedules) && cards.Keys == old(cards).Keys
      ensures forall id :: id in cards ==>
                cards[id] == if id in ids && old(cards)[id].deletedAt.None?
                             then old(cards)[id].(deletedAt := Some(now)) else old(cards)[id]
    {
      ghost var before := cards;
      var rest := ids;
      while rest != {}
        invariant rest <= ids && cards.Keys == before.Keys
        invariant forall id :: id in before ==>
                    cards[id] ==
                      if id in ids - rest && before[id].deletedAt.None? then before[id].(deletedAt := Some(now))
                      else before[id]
        invariant schedules == old(schedules) && logs == old(logs) && sets == old(sets) && runs == old(runs)
        invariant questions == old(questions) && issued == old(issued)
        decreases |rest|
      {
        var id :| id in rest;
        rest := rest - {id};
        if id in cards && cards[id].deletedAt.None? {
          cards := cards[id := cards[id].(deletedAt := Some(now))];
        }
      }
    }

    /** RestoreCards, row by row. */
    method RestoreCards(ids: set<string>)
      modifies this
      ensures Snap() == Store.RestoreCards(old(Snap()), ids).0
      ensures schedules == old(schedules) && cards.Keys == old(cards).Keys
      ensures forall id :: id in cards ==>
                cards[id] == if id in ids then old(cards)[id].(deletedAt := None) else old(cards)[id]
    {
      ghost var before := cards;
      var rest := ids;
      while rest != {}
        invariant rest <= ids && cards.Keys == before.Keys
        invariant forall id :: id in before ==>
                    cards[id] == if id in ids - rest then before[id].(deletedAt := None) else before[id]
        invariant schedules == old(schedules) && logs == old(logs) && sets == old(sets) && runs == old(runs)
        invariant questions == old(questions) && issued == old(issued)
        decreases |rest|
      {
        var id :| id in rest;
        rest := rest - {id};
        if id in cards && cards[id].deletedAt.Some? {
          cards := cards[id := cards[id].(deletedAt := None)];
        }
      }
    }

    /** GetCardWithSchedule, as far as the schedule goes. */
    method ReadSchedule(id: string) returns (row: Option<ScheduleRow>)
      ensures row == if Live(Snap(), id) && id in schedules then Some(schedules[id]) else None
    {
      if id !in cards || cards[id].deletedAt.Some? || id !in schedules { return None; }
      return Some(schedules[id]);
    }

    /** The writes of handleRate, from a row read earlier: a log row is added
        exactly when the schedule row is written. */
    method WriteRating(id: string, read: ScheduleRow, rating: Rating, today: string) returns (out: Outcome)
      modifies this
      ensures (Snap(), out) == Store.RateWrite(old(Snap()), id, read, rating, today)
      ensures out == Done ==> |logs| == |old(logs)| + 1 && logs[..|old(logs)|] == old(logs)
      ensures out == Done ==> logs[|old(logs)|].card == id && logs[|old(logs)|].rating == rating
      ensures out != Done ==> Snap() == old(Snap())
    {
      hide Next, ToTimePtr, FromTimePtr, IntervalDays;
      var current := Schedule(id, read.stage, FromTimePtr(read.nextReview), read.lapses, read.state);
      var next := Next(current, rating, today);
      var due := ToTimePtr(next.nextReview);
      if due.Err? { return Refused; }
      if id !in schedules { return Missing; }
      schedules := schedules[id := ScheduleRow(next.stage, due.value, next.lapses, next.state)];
      logs := logs + [Log(id, rating, IntervalDays(current), IntervalDays(next), DueQueue, None, Recall, today)];
      return Done;
    }

    /** handleRate: read, decide, update the schedule, append the log. */
    method Rate(id: string, rating: Rating, today: string) returns (out: Outcome)
      modifies this
      ensures (Snap(), out) == Store.Rate(old(Snap()), id, rating, today)
      ensures out == Done <==> |logs| == |old(logs)| + 1
      ensures out == Done ==> id in old(cards) && old(cards)[id].deletedAt.None? && id in old(schedules)
      ensures id !in old(cards) || old(cards)[id].deletedAt.Some? ==> out == Missing
      ensures out != Done ==> Snap() == old(Snap())
    {
      hide RateWrite;
      var row := ReadSchedule(id);
      if row.None? { return Missing; }
      out := WriteRating(id, row.value, rating, today);
    }

    /** GetOpenRun: scans for an unfinished run of the set. */
    method GetOpenRun(setId: string) returns (r: Option<string>)
      ensures r.Some? ==> IsOpen(Snap(), r.value, setId)
      ensures r.None? ==> forall x :: !IsOpen(Snap(), x, setId)
    {
      var rest := runs.Keys;
      while rest != {}
        invariant rest <= runs.Keys
        invariant forall x :: x in runs.Keys - rest ==> !IsOpen(Snap(), x, setId)
        decreases |rest|
      {
        var x :| x in rest;
        rest := rest - {x};
        if runs[x].setId == setId && runs[x].finishedAt.None? { return Some(x); }
      }
      return None;
    }

    /** ORDER BY random() LIMIT want, over a set of rows. */
    static method DrawAny(from: set<string>, want: nat) returns (drawn: seq<string>)
      ensures Distinct(drawn) && Elements(drawn) <= from
      ensures |drawn| == if |from| < want then |from| else want
    {
      drawn := [];
      var rest := from;
      while rest != {} && |drawn| < want
        invariant rest <= from && Distinct(drawn) && Elements(drawn) == from - rest
        invariant |drawn| + |rest| == |from| && |drawn| <= want
        decreases |rest|
      {
        var x :| x in rest;
        assert Elements(drawn + [x]) == Elements(drawn) + {x};
        assert x !in Elements(drawn);
        drawn := drawn + [x];
        rest := rest - {x};
      }
    }

    /** drawQuestions. */
    method DrawQuestions(s: ReviewSet) returns (draw: seq<string>)
      ensures s.fixed || s.questionCount > 0 ==> DrawOk(Snap(), s, draw)
      ensures !s.fixed && s.questionCount == 0 ==> draw == []
    {
      if s.fixed {
        draw := LiveOnly(Snap(), s.pinned);
        return;
      }
      if s.questionCount == 0 { return []; }
      draw := DrawAny(Eligibles(Snap(), s), s.questionCount);
    }

    /** ListDistractorPool. */
    method ListDistractorPool(domains: set<string>, categories: set<string>) returns (pool: seq<string>)
      ensures IsPool(pool, LiveBacks(Snap(), domains, categories))
    {
      pool := DrawAny(LiveBacks(Snap(), domains, categories), DISTRACTOR_POOL_SIZE);
    }

    /** buildChoices: the pools are two separate queries. */
    method ChooseQuestions(s: ReviewSet, draw: seq<string>) returns (asked: map<string, Choice>)
      ensures AskedOk(Snap(), s, draw, asked)
    {
      hide LiveBacks;
      var inside := ListDistractorPool(s.domains, s.categories);
      var widened := ListDistractorPool({}, {});
      NarrowerScope(s);
      asked := BuildChoices(s.isChoice, draw, BacksOf(Snap(), draw), inside, widened,
                            LiveBacks(Snap(), s.domains, s.categories), LiveBacks(Snap(), {}, {}));
    }

    lemma NarrowerScope(s: ReviewSet)
      ensures LiveBacks(Snap(), s.domains, s.categories) <= LiveBacks(Snap(), {}, {})
    {
    }

    /** store.StartRun: resume the open run, or draw, build the choices, and
        insert the run and then its questions one by one. */
    method StartRun(setId: string, runId: string, runDate: string)
      returns (out: Outcome, ghost draw: seq<string>, ghost asked: map<string, Choice>)
      requires RunInv(Snap()) && runId !in issued
      modifies this
      ensures (Snap(), out) == Store.StartRun(old(Snap()), setId, runId, draw, asked, runDate)
      ensures out == Refused ==> draw == []
    {
      draw, asked := [], map[];
      if setId !in sets || sets[setId].archived { return Missing, [], map[]; }
      var open := GetOpenRun(setId);
      if open.Some? {
        assert IsOpen(Snap(), open.value, setId) && OneOpenRun(Snap());
        return Resumed(open.value), [], map[];
      }
      var questionsDrawn := DrawQuestions(sets[setId]);
      draw := questionsDrawn;
      if |questionsDrawn| == 0 { return Refused, [], map[]; }
      var choices := ChooseQuestions(sets[setId], questionsDrawn);
      asked := choices;
      hide DrawOk, AskedOk, RunInv, IsOpen, Snapshot, StartWrite;
      out := WriteStart(setId, runId, questionsDrawn, choices, runDate);
    }

    /** The inserts of StartRun under the constraints: the foreign key to the
        set and one open run a set. */
    method WriteStart(setId: string, runId: string, draw: seq<string>, choices: map<string, Choice>, runDate: string)
      returns (out: Outcome)
      requires runId !in issued
      modifies this
      ensures (Snap(), out) == Store.StartWrite(old(Snap()), setId, runId, draw, choices, runDate)
      ensures out != Done ==> out == Refused && Snap() == old(Snap())
    {
      if setId !in sets { return Refused; }
      var open := GetOpenRun(setId);
      if open.Some? {
        assert IsOpen(Snap(), open.value, setId);
        return Refused;
      }
      ghost var before := Snap();
      assert before == old(Snap()) && forall r :: !IsOpen(before, r, setId);
      hide IsOpen, Snapshot;
      InsertRun(setId, runId, draw, choices, runDate);
      return Done;
    }

    /** CreateRun, then SnapshotRunCard for each question in position order. */
    method InsertRun(setId: string, runId: string, draw: seq<string>, choices: map<string, Choice>, runDate: string)
      modifies this`runs, this`issued, this`questions
      ensures runs == old(runs)[runId := Run(setId, runDate, None, 0, 0)] && issued == old(issued) + {runId}
      ensures questions == old(questions)[runId := Snapshot(draw, choices)]
    {
      runs := runs[runId := Run(setId, runDate, None, 0, 0)];
      issued := issued + {runId};
      ghost var all := Snapshot(draw, choices);
      var inserted := [];
      for i := 0 to |draw|
        invariant inserted == all[..i]
      {
        var card := draw[i];
        var choice := if card in choices then Some(choices[card]) else None;
        assert all[i] == Question(card, choice) && all[..i + 1] == all[..i] + [all[i]];
        inserted := inserted + [Question(card, choice)];
      }
      assert all[..|draw|] == all;
      questions := questions[runId := inserted];
    }

    /** InsertSetAnswer: ON CONFLICT (run_id, card_id) DO NOTHING. */
    method InsertSetAnswer(run: string, card: string, rating: Rating, interval: nat, format: Format, day: string)
                returns (out: Outcome)
      modifies this
      ensures (Snap(), out) == Store.InsertAnswer(old(Snap()), run, card, rating, interval, format, day)
      ensures out == if run in runs then Done else Refused
      ensures logs == if run in runs && forall i :: 0 <= i < |old(logs)| ==>
                           !(old(logs)[i].run == Some(run) && old(logs)[i].card == card)
                      then old(logs) + [Log(card, rating, interval, interval, SetRun, Some(run), format, day)]
                      else old(logs)
    {
      if run !in runs { return Refused; }
      for i := 0 to |logs|
        invariant Snap() == old(Snap())
        invariant !Answered(logs[..i], run, card)
      {
        if logs[i].run == Some(run) && logs[i].card == card { return Done; }
      }
      assert logs[..|logs|] == logs;
      logs := logs + [Log(card, rating, interval, interval, SetRun, Some(run), format, day)];
      return Done;
    }

    /** FinishRun: both counts recomputed from the rows. */
    method FinishRun(run: string, now: int) returns (out: Outcome)
      modifies this
      ensures (Snap(), out) == Store.FinishRun(old(Snap()), run, now)
      ensures out == Done ==>
                && run in questions && run in old(runs) && old(runs)[run].finishedAt.None?
                && runs == old(runs)[run :=
                     old(runs)[run].(finishedAt := Some(now), total := |questions[run]|,
                                     correct := CountCorrect(logs, run))]
    {
      if run !in runs || runs[run].finishedAt.Some? || run !in questions { return Missing; }
      var correct := 0;
      for i := 0 to |logs|
        invariant Snap() == old(Snap())
        invariant correct == CountCorrect(logs[..i], run)
      {
        assert logs[..i + 1][..i] == logs[..i];
        if logs[i].run == Some(run) && logs[i].rating == Ingat { correct := correct + 1; }
      }
      assert logs[..|logs|] == logs;
      if correct > |questions[run]| { return Refused; }
      runs := runs[run := runs[run].(finishedAt := Some(now), total := |questions[run]|, correct := correct)];
      return Done;
    }

    /** DeleteRun: the snapshot cascades, the logs are set to no run. */
    method DeleteRun(run: string) returns (out: Outcome)
      modifies this
      ensures (Snap(), out) == Store.DiscardRun(old(Snap()), run)
      ensures out == if run in old(runs) then Done else Missing
      ensures runs == old(runs) - {run}
      ensures out == Done ==>
                && questions == old(questions) - {run} && |logs| == |old(logs)|
                && forall i :: 0 <= i < |logs| ==>
                     logs[i] == if old(logs)[i].run == Some(run) then old(logs)[i].(run := None) else old(logs)[i]
    {
      hide Detach;
      if run !in runs { return Missing; }
      DetachLogs(run);
      questions := questions - {run};
      runs := runs - {run};
      return Done;
    }

    /** ON DELETE SET NULL (run_id). */
    method DetachLogs(run: string)
      modifies this`logs
      ensures logs == Detach(old(logs), run)
    {
      ghost var before := logs;
      for i := 0 to |logs|
        invariant |logs| == |before|
        invariant forall j :: 0 <= j < i ==> logs[j] == Detach(before, run)[j]
        invariant forall j :: i <= j < |logs| ==> logs[j] == before[j]
      {
        if logs[i].run == Some(run) { logs := logs[i := logs[i].(run := None)]; }
      }
    }

    /** PurgeDeletedCards: card by card, with the cascades. */
    method PurgeDeletedCards(cutoff: int) returns (removed: nat)
      modifies this
      ensures Snap() == Store.PurgeCards(old(Snap()), cutoff).0
      ensures removed == |old(cards)| - |cards|
    {
      hide Purgeable, Without;
      var gone := PurgeableCards(cutoff);
      assert gone == set id | id in cards && Purgeable(Snap(), id, cutoff);
      RowsLeft(cards, gone);
      removed := |gone|;
      cards := cards - gone;
      schedules := schedules - gone;
      sets := map s | s in sets :: sets[s].(pinned := Without(sets[s].pinned, gone));
    }

    static lemma RowsLeft(rows: map<string, Card>, gone: set<string>)
      requires gone <= rows.Keys
      ensures |rows - gone| == |rows| - |gone|
    {
      assert (rows - gone).Keys == rows.Keys - gone && |rows.Keys - gone| == |rows.Keys| - |gone|;
      assert |(rows - gone).Keys| == |rows - gone| && |rows.Keys| == |rows|;
    }

    /** The rows the DELETE's condition selects. */
    method PurgeableCards(cutoff: int) returns (gone: set<string>)
      ensures forall id :: id in gone <==> id in cards && Purgeable(Snap(), id, cutoff)
    {
      hide HasLog, HasQuestion;
      gone := {};
      var rest := cards.Keys;
      while rest != {}
        invariant rest <= cards.Keys
        invariant forall id :: id in gone <==> id in cards.Keys - rest && Purgeable(Snap(), id, cutoff)
        decreases |rest|
      {
        var id :| id in rest;
        rest := rest - {id};
        if cards[id].deletedAt.Some? && cards[id].deletedAt.value < cutoff {
          var logged := CardIsLogged(id);
          var drawn := CardIsDrawn(id);
          if !logged && !drawn { gone := gone + {id}; }
        }
      }
    }

    method CardIsLogged(id: string) returns (found: bool)
      ensures found <==> HasLog(Snap(), id)
    {
      for i := 0 to |logs|
        invariant forall j :: 0 <= j < i ==> logs[j].card != id
      {
        if logs[i].card == id { return true; }
      }
      return false;
    }

    method CardIsDrawn(id: string) returns (found: bool)
      ensures found <==> HasQuestion(Snap(), id)
    {
      var rest := questions.Keys;
      while rest != {}
        invariant rest <= questions.Keys
        invariant forall r :: r in questions.Keys - rest ==> !Asks(questions[r], id)
        decreases |rest|
      {
        var r :| r in rest;
        rest := rest - {r};
        if exists i :: 0 <= i < |questions[r]| && questions[r][i].card == id {
          assert Asks(Snap().questions[r], id);
          return true;
        }
      }
      return false;
    }
  }
}
