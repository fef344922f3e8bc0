/** Transactions that read first and write later without locking what they
    read, with any others committed in between: rating a card, and starting
    a run. */
module Races {
  import opened Sequences
  import opened Calendar
  import opened Srs
  import opened Choices
  import opened Store
  import opened ReplayInvariant
  import opened RunInvariant
  import Queue
  import Protocol

  ghost function ApplyAll(t: Tables, txs: seq<Tx>): Tables
    decreases |txs|
  {
    if txs == [] then t else ApplyAll(Apply(t, txs[0]).0, txs[1..])
  }

  /** Answers are to questions asked, as the handler makes sure. */
  ghost predicate AnswersAsked(t: Tables, txs: seq<Tx>)
    decreases |txs|
  {
    txs != [] ==>
      && (txs[0].TxInsertAnswer? && txs[0].runId in t.runs ==>
            && txs[0].runId in t.questions && Asks(t.questions[txs[0].runId], txs[0].cardId)
            && txs[0].cardId in t.cards)
      && AnswersAsked(Apply(t, txs[0]).0, txs[1..])
  }

  lemma {:induction false} ReplayThrough(t: Tables, txs: seq<Tx>)
    requires ReplayInv(t) && AnswersAsked(t, txs)
    ensures ReplayInv(ApplyAll(t, txs))
    decreases |txs|
  {
    if txs != [] {
      hide Apply, ReplayInv;
      ReplayPreserved(t, txs[0]);
      ReplayThrough(Apply(t, txs[0]).0, txs[1..]);
    }
  }

  lemma {:induction false} RunsThrough(t: Tables, txs: seq<Tx>)
    requires RunInv(t) && AnswersAsked(t, txs)
    ensures RunInv(ApplyAll(t, txs))
    decreases |txs|
  {
    if txs != [] {
      hide Apply, RunInv;
      RunsPreserved(t, txs[0]);
      RunsThrough(Apply(t, txs[0]).0, txs[1..]);
    }
  }

  // ----- rungs --------------------------------------------------------------

  /** A row as reviews on real dates leave it: scheduled exactly while it is
      being learned, and mastered only at the top. */
  predicate Placed(row: ScheduleRow) {
    && row.stage <= TOP
    && (row.state == Learning <==> row.nextReview.Some?)
    && (row.state == Mastered ==> row.stage == TOP)
  }

  predicate AllPlaced(t: Tables) {
    t.schedules.Keys == t.cards.Keys && forall id :: id in t.schedules ==> Placed(t.schedules[id])
  }

  /** The rung, with mastered as one more above the top. */
  function Level(row: ScheduleRow): nat {
    if row.state == Mastered then TOP + 1 else row.stage
  }

  predicate SameRung(a: ScheduleRow, b: ScheduleRow) {
    Level(a) == Level(b) && a.lapses == b.lapses
  }

  /** More lapses, or as many and a higher rung. */
  predicate Beyond(a: ScheduleRow, b: ScheduleRow) {
    b.lapses > a.lapses || (b.lapses == a.lapses && Level(b) > Level(a))
  }

  /** Today is always a real date. */
  predicate Dated(tx: Tx) {
    tx.TxCreateCard? || tx.TxRate? ==> Parse(tx.today).Some?
  }

  lemma DateStored(today: string, k: int)
    requires Parse(today).Some? && ToTimePtr(AddDays(today, k)).Ok?
    ensures ToTimePtr(AddDays(today, k)).value.Some?
  {
    hide Parse, AddDays, DayOf, InRange;
    Queue.StoredDay(today, k);
  }

  /** What one rating does to the rung, whatever row it was read from. */
  lemma WrittenRung(t: Tables, id: string, read: ScheduleRow, rating: Rating, today: string)
    requires Placed(read) && Parse(today).Some? && RateWrite(t, id, read, rating, today).1 == Done
    ensures var u := RateWrite(t, id, read, rating, today).0;
            && id in u.schedules && Placed(u.schedules[id])
            && u.schedules[id].lapses == (if rating == Lupa then read.lapses + 1 else read.lapses)
            && Level(u.schedules[id]) ==
                 if rating == Lupa then 0 else if Level(read) > TOP then TOP + 1 else Level(read) + 1
  {
    hide Parse, AddDays, ToTimePtr, FromTimePtr, IntervalDays;
    Queue.EmptyDate();
    if rating == Lupa {
      DateStored(today, LADDER[0]);
    } else if read.stage + 1 < |LADDER| {
      DateStored(today, LADDER[read.stage + 1]);
    }
  }

  // ----- when a stale write is harmless -------------------------------------

  lemma SameRungSameReview(id: string, a: ScheduleRow, b: ScheduleRow, rating: Rating, today: string)
    requires Placed(a) && Placed(b) && SameRung(a, b)
    ensures Next(ToSchedule(id, a), rating, today) == Next(ToSchedule(id, b), rating, today)
    ensures IntervalDays(ToSchedule(id, a)) == IntervalDays(ToSchedule(id, b))
  {
    hide AddDays, FromTime;
    if a.nextReview.Some? { NotEmpty(a.nextReview.value); }
    if b.nextReview.Some? { NotEmpty(b.nextReview.value); }
  }

  lemma NotEmpty(k: int)
    ensures FromTime(k) != ""
  {
    FromTimeParse(k);
  }

  /** Different rungs log different intervals or count different lapses. */
  lemma SameReviewSameRung(id: string, a: ScheduleRow, b: ScheduleRow, rating: Rating, today: string)
    requires Placed(a) && Placed(b)
    requires Next(ToSchedule(id, a), rating, today).lapses == Next(ToSchedule(id, b), rating, today).lapses
    requires IntervalDays(ToSchedule(id, a)) == IntervalDays(ToSchedule(id, b))
    ensures SameRung(a, b)
  {
    hide AddDays, FromTime;
    if a.nextReview.Some? { NotEmpty(a.nextReview.value); }
    if b.nextReview.Some? { NotEmpty(b.nextReview.value); }
  }

  /** A rating computed from a row read earlier keeps every schedule the replay
      of its log if and only if the row has kept its rung and its lapses. */
  lemma WriteKeepsReplayIff(t: Tables, id: string, read: ScheduleRow, rating: Rating, today: string)
    requires ReplayInv(t) && id in t.cards && Placed(read) && Placed(t.schedules[id])
    requires RateWrite(t, id, read, rating, today).1 == Done
    ensures ReplayInv(RateWrite(t, id, read, rating, today).0) <==> SameRung(read, t.schedules[id])
  {
    var u := RateWrite(t, id, read, rating, today).0;
    var cur := t.schedules[id];
    if SameRung(read, cur) {
      SameRungSameReview(id, read, cur, rating, today);
      WriteReplays(t, id, rating, today);
      hide ReplayInv, Next, ToTimePtr, IntervalDays, Placed, SameRung;
      assert u == RateWrite(t, id, cur, rating, today).0;
    } else if ReplayInv(u) {
      var l := u.logs[|t.logs|];
      StaleReplay(id, t.cards[id].captured, cur, u.schedules[id], t.logs, l);
      hide ReplayInv, Replays, ToTimePtr, IntervalDays, Placed, SameRung;
      SameReviewSameRung(id, read, cur, rating, today);
    }
  }

  lemma StaleReplay(id: string, captured: string, cur: ScheduleRow, after: ScheduleRow, logs: seq<Log>, l: Log)
    requires Replays(id, captured, cur, logs) && Replays(id, captured, after, logs + [l])
    requires l.card == id && l.source == DueQueue
    ensures l.before == IntervalDays(ToSchedule(id, cur))
    ensures ToSchedule(id, after) == Next(ToSchedule(id, cur), l.rating, l.day)
  {
    var h := History(logs, id);
    HistoryAppend(logs, l, id);
    ReplayOneMore(id, captured, h, l);
    hide Next, IntervalDays, ToSchedule, ReplayLogs, History;
    assert (h + [l])[|h|] == l && (h + [l])[..|h|] == h;
  }

  // ----- what happened in between -------------------------------------------

  /** The ratings of one card that committed, in order. */
  ghost function Committed(t: Tables, txs: seq<Tx>, id: string): seq<Rating>
    decreases |txs|
  {
    if txs == [] then []
    else
      (if txs[0].TxRate? && txs[0].id == id && Apply(t, txs[0]).1 == Done then [txs[0].rating] else [])
      + Committed(Apply(t, txs[0]).0, txs[1..], id)
  }

  /** The card is never purged meanwhile. */
  ghost predicate Stays(t: Tables, txs: seq<Tx>, id: string)
    decreases |txs|
  {
    id in t.cards && (txs != [] ==> Stays(Apply(t, txs[0]).0, txs[1..], id))
  }

  ghost predicate AllDated(txs: seq<Tx>) {
    forall i :: 0 <= i < |txs| ==> Dated(txs[i])
  }

  predicate AllRemembered(rs: seq<Rating>) {
    forall i :: 0 <= i < |rs| ==> rs[i] == Ingat
  }

  /** One transaction moves the rung as its rating says, or not at all. */
  lemma RungStep(t: Tables, tx: Tx, id: string)
    requires AllPlaced(t) && Dated(tx) && id in t.cards && id in Apply(t, tx).0.cards
    ensures var u := Apply(t, tx).0;
            && id in u.schedules && Placed(t.schedules[id]) && Placed(u.schedules[id])
            && (if tx.TxRate? && tx.id == id && Apply(t, tx).1 == Done then
                  if tx.rating == Ingat && t.schedules[id].state == Mastered then
                    SameRung(t.schedules[id], u.schedules[id])
                  else Beyond(t.schedules[id], u.schedules[id])
                else u.schedules[id] == t.schedules[id])
  {
    OnlyRatingsMoveSchedules(t, tx, id);
    if tx.TxRate? && tx.id == id {
      hide RateWrite, Placed;
      var (u, out) := Rate(t, id, tx.rating, tx.today);
      assert Placed(t.schedules[id]);
      if out == Done { WrittenRung(t, id, t.schedules[id], tx.rating, tx.today); PlacedTop(t.schedules[id]); }
    } else {
      hide Apply, Placed, Beyond, SameRung;
    }
  }

  lemma PlacedTop(row: ScheduleRow)
    requires Placed(row)
    ensures Level(row) <= TOP + 1 && (Level(row) > TOP <==> row.state == Mastered)
  {
  }

  lemma StaysPlaced(t: Tables, tx: Tx)
    requires AllPlaced(t) && Dated(tx)
    ensures AllPlaced(Apply(t, tx).0)
  {
    var u := Apply(t, tx).0;
    Queue.KeysPreserved(t, tx);
    forall id | id in u.schedules ensures Placed(u.schedules[id]) {
      if id in t.cards {
        hide Apply, Placed;
        RungStep(t, tx, id);
      } else {
        NewIsPlaced(t, tx, id);
      }
    }
  }

  lemma NewIsPlaced(t: Tables, tx: Tx, id: string)
    requires AllPlaced(t) && Dated(tx) && id !in t.cards && id in Apply(t, tx).0.schedules
    ensures Placed(Apply(t, tx).0.schedules[id])
  {
    if tx.TxCreateCard? && tx.id == id {
      hide Parse, AddDays, ToTimePtr;
      if Apply(t, tx).0 != t { DateStored(tx.today, LADDER[0]); }
    } else {
      NobodyElseCreates(t, tx, id);
    }
  }

  lemma NobodyElseCreates(t: Tables, tx: Tx, id: string)
    requires id !in t.schedules && !(tx.TxCreateCard? && tx.id == id)
    ensures id !in Apply(t, tx).0.schedules
  {
    hide NewSchedule, Next, ToTimePtr, FromTimePtr, IntervalDays, AskedOk, DrawOk, Detach, Snapshot, CountCorrect,
         Without, Purgeable, Answered, IsOpen;
  }

  /** Over everything committed in between, the row keeps its rung exactly when
      the card was not rated, or was mastered and only remembered again. */
  lemma {:induction false} RungKeptIff(t: Tables, txs: seq<Tx>, id: string)
    requires AllPlaced(t) && AllDated(txs) && Stays(t, txs, id)
    ensures var u := ApplyAll(t, txs);
            && AllPlaced(u) && id in t.schedules && id in u.cards && id in u.schedules
            && Moved(t.schedules[id], u.schedules[id], Committed(t, txs, id))
    decreases |txs|
  {
    if txs == [] {
      assert t.schedules.Keys == t.cards.Keys;
    } else {
      var tx := txs[0];
      var v := Apply(t, tx).0;
      assert Dated(txs[0]);
      StaysPlaced(t, tx);
      RungStep(t, tx, id);
      assert AllDated(txs[1..]);
      assert Stays(v, txs[1..], id);
      var first := if tx.TxRate? && tx.id == id && Apply(t, tx).1 == Done then [tx.rating] else [];
      assert Committed(t, txs, id) == first + Committed(v, txs[1..], id);
      assert ApplyAll(t, txs) == ApplyAll(v, txs[1..]);
      hide *;
      RungKeptIff(v, txs[1..], id);
      MovedTwice(t.schedules[id], v.schedules[id], ApplyAll(t, txs).schedules[id], first, Committed(v, txs[1..], id));
    }
  }

  /** The rung stays or goes beyond, and stays exactly after no rating at all
      or after remembering what was mastered. */
  predicate Moved(a: ScheduleRow, b: ScheduleRow, rs: seq<Rating>) {
    && (SameRung(a, b) || Beyond(a, b))
    && (SameRung(a, b) <==> rs == [] || (a.state == Mastered && AllRemembered(rs)))
  }

  lemma MovedTwice(a: ScheduleRow, b: ScheduleRow, c: ScheduleRow, first: seq<Rating>, rest: seq<Rating>)
    requires Placed(a) && Placed(b) && |first| <= 1 && Moved(b, c, rest)
    requires first == [] ==> b == a
    requires first != [] ==>
               if first[0] == Ingat && a.state == Mastered then SameRung(a, b) else Beyond(a, b)
    ensures Moved(a, c, first + rest)
  {
    PlacedTop(a);
    PlacedTop(b);
    JoinRemembered(first, rest);
    if first == [] {
      assert first + rest == rest;
    } else {
      assert AllRemembered(first) <==> first[0] == Ingat;
      hide AllRemembered, Placed;
      assert first + rest != [];
    }
  }

  lemma JoinRemembered(a: seq<Rating>, b: seq<Rating>)
    ensures AllRemembered(a + b) <==> AllRemembered(a) && AllRemembered(b)
  {
    assert forall i :: 0 <= i < |b| ==> (a + b)[|a| + i] == b[i];
    assert forall i :: 0 <= i < |a| ==> (a + b)[i] == a[i];
  }

  /** handleRate reads the row, other transactions commit, then it writes. The
      schedules stay the replay of the log if and only if nobody rated the card
      in between, or it was mastered and was only remembered again. */
  lemma RacingRateIff(t: Tables, txs: seq<Tx>, id: string, rating: Rating, today: string)
    requires ReplayInv(t) && AnswersAsked(t, txs) && AllPlaced(t) && AllDated(txs) && Stays(t, txs, id)
    requires RateWrite(ApplyAll(t, txs), id, t.schedules[id], rating, today).1 == Done
    ensures var rs := Committed(t, txs, id);
            ReplayInv(RateWrite(ApplyAll(t, txs), id, t.schedules[id], rating, today).0)
            <==> rs == [] || (t.schedules[id].state == Mastered && AllRemembered(rs))
  {
    ReplayThrough(t, txs);
    RungKeptIff(t, txs, id);
    assert Placed(t.schedules[id]) && Placed(ApplyAll(t, txs).schedules[id]) by { hide ReplayInv, Placed, ApplyAll; }
    hide ReplayInv, ApplyAll, RateWrite, AllPlaced, AllDated, Stays, SameRung, Beyond, Placed, AllRemembered;
    WriteKeepsReplayIff(ApplyAll(t, txs), id, t.schedules[id], rating, today);
  }

  /** Two ratings from one reading: both are logged, the second row stands as
      if the first had never been, and the replay survives exactly when the
      first was remembering a mastered card. */
  lemma LostRating(t: Tables, id: string, first: Rating, second: Rating, today: string)
    requires ReplayInv(t) && AllPlaced(t) && Live(t, id) && Parse(today).Some?
    requires RateWrite(t, id, t.schedules[id], first, today).1 == Done
    requires RateWrite(t, id, t.schedules[id], second, today).1 == Done
    ensures var u := RateWrite(t, id, t.schedules[id], first, today).0;
            var (v, out) := RateWrite(u, id, t.schedules[id], second, today);
            && out == Done && |v.logs| == |t.logs| + 2
            && v.schedules == RateWrite(t, id, t.schedules[id], second, today).0.schedules
            && (ReplayInv(v) <==> t.schedules[id].state == Mastered && first == Ingat)
  {
    var row := t.schedules[id];
    var u := RateWrite(t, id, row, first, today).0;
    assert Placed(row) && id in t.cards by { hide ReplayInv, Placed, RateWrite; }
    hide *;
    TwoWrites(t, id, first, second, today);
    WriteReplays(t, id, first, today);
    WrittenRung(t, id, row, first, today);
    SameRungAfter(row, u.schedules[id], first);
    WriteKeepsReplayIff(u, id, row, second, today);
  }

  lemma TwoWrites(t: Tables, id: string, first: Rating, second: Rating, today: string)
    requires id in t.schedules && id in t.cards
    requires RateWrite(t, id, t.schedules[id], first, today).1 == Done
    requires RateWrite(t, id, t.schedules[id], second, today).1 == Done
    ensures var u := RateWrite(t, id, t.schedules[id], first, today).0;
            var (v, out) := RateWrite(u, id, t.schedules[id], second, today);
            && u.cards == t.cards && out == Done && |v.logs| == |t.logs| + 2
            && v.schedules == RateWrite(t, id, t.schedules[id], second, today).0.schedules
  {
    hide Next, ToTimePtr, FromTimePtr, IntervalDays;
  }

  lemma SameRungAfter(row: ScheduleRow, after: ScheduleRow, rating: Rating)
    requires Placed(row) && after.lapses == (if rating == Lupa then row.lapses + 1 else row.lapses)
    requires Level(after) == if rating == Lupa then 0 else if Level(row) > TOP then TOP + 1 else Level(row) + 1
    ensures SameRung(row, after) <==> row.state == Mastered && rating == Ingat
  {
  }

  // ----- overlapping starts -------------------------------------------------

  ghost predicate HasOpen(t: Tables, setId: string) {
    exists r :: IsOpen(t, r, setId)
  }

  /** What StartRun has settled before its first insert: no open run seen, and
      questions and choices drawn from the tables as they were. */
  ghost predicate Planned(t: Tables, setId: string, draw: seq<string>, asked: map<string, Choice>) {
    && setId in t.sets && !t.sets[setId].archived && !HasOpen(t, setId)
    && draw != [] && DrawOk(t, t.sets[setId], draw) && AskedOk(t, t.sets[setId], draw, asked)
  }

  lemma PlanIsSound(t: Tables, setId: string, draw: seq<string>, asked: map<string, Choice>)
    requires RunInv(t) && Planned(t, setId, draw, asked)
    ensures SnapshotSound(Snapshot(draw, asked)) && forall i :: 0 <= i < |draw| ==> Live(t, draw[i])
    ensures forall i :: 0 <= i < |draw| ==> Snapshot(draw, asked)[i].card == draw[i]
  {
    assert Distinct(t.sets[setId].pinned);
    hide DrawOk, AskedOk, SnapshotSound, Distinct, RunInv;
    DrawIsDistinctLive(t, t.sets[setId], draw);
    SnapshotIsSound(t, t.sets[setId], draw, asked);
  }

  ghost predicate CardsThere(t: Tables, draw: seq<string>) {
    forall i :: 0 <= i < |draw| ==> draw[i] in t.cards
  }

  /** A plan made earlier and written now. It goes through exactly when the set
      is still there and no run of it is open; if not, nothing changes. Then
      the invariant holds exactly when every drawn card is still there. */
  lemma LateStart(before: Tables, t: Tables, setId: string, runId: string, draw: seq<string>,
                  asked: map<string, Choice>, runDate: string)
    requires RunInv(before) && Planned(before, setId, draw, asked) && RunInv(t) && runId !in t.issued
    ensures var (u, out) := StartWrite(t, setId, runId, draw, asked, runDate);
            && (out == Done <==> setId in t.sets && !HasOpen(t, setId))
            && (out != Done ==> out == Refused && u == t)
            && (out == Done ==> (RunInv(u) <==> CardsThere(t, draw)))
  {
    var (u, out) := StartWrite(t, setId, runId, draw, asked, runDate);
    PlanIsSound(before, setId, draw, asked);
    var qs := Snapshot(draw, asked);
    hide Planned, RunInv, SnapshotSound;
    if out == Done {
      if CardsThere(t, draw) {
        RunAdded(t, u, setId, runId, runDate, qs);
      } else {
        var i :| 0 <= i < |draw| && draw[i] !in t.cards;
        MissingCard(t, u, runId, i);
      }
    }
  }

  lemma MissingCard(t: Tables, u: Tables, runId: string, i: nat)
    requires u.cards == t.cards && runId in u.questions && i < |u.questions[runId]|
        && u.questions[runId][i].card !in t.cards
    ensures !RunInv(u)
  {
    hide RunsSound, OneOpenRun, LogsAnswer, SetsSound;
  }

  /** Where the purge only reaches cards deleted before `since`, and every
      deletion meanwhile is stamped later, a card that was live stays. */
  ghost predicate TrashIsYoung(txs: seq<Tx>, since: int) {
    forall i :: 0 <= i < |txs| ==>
      && (txs[i].TxDeleteCards? ==> txs[i].now >= since)
      && (txs[i].TxPurge? ==> txs[i].cutoff <= since)
  }

  predicate NotOldTrash(t: Tables, id: string, since: int) {
    id in t.cards && (t.cards[id].deletedAt.Some? ==> t.cards[id].deletedAt.value >= since)
  }

  lemma StaysNotOld(t: Tables, tx: Tx, id: string, since: int)
    requires NotOldTrash(t, id, since)
    requires (tx.TxDeleteCards? ==> tx.now >= since) && (tx.TxPurge? ==> tx.cutoff <= since)
    ensures NotOldTrash(Apply(t, tx).0, id, since)
  {
    hide NewSchedule, Next, ToTimePtr, FromTimePtr, IntervalDays, AskedOk, DrawOk, Detach, Snapshot, CountCorrect,
         Without, Answered, IsOpen, HasLog, HasQuestion;
  }

  lemma {:induction false} DrawnCardsStay(t: Tables, txs: seq<Tx>, id: string, since: int)
    requires NotOldTrash(t, id, since) && TrashIsYoung(txs, since)
    ensures id in ApplyAll(t, txs).cards
    decreases |txs|
  {
    if txs != [] {
      assert TrashIsYoung(txs[1..], since) by { assert forall i :: 0 <= i < |txs[1..]| ==> txs[1..][i] == txs[i + 1]; }
      StaysNotOld(t, txs[0], id, since);
      hide Apply, NotOldTrash;
      DrawnCardsStay(Apply(t, txs[0]).0, txs[1..], id, since);
    }
  }

  /** So a start that overlaps anything at all keeps the invariant. */
  lemma OverlappingStartIsSafe(t: Tables, txs: seq<Tx>, since: int, setId: string, runId: string, draw: seq<string>,
                               asked: map<string, Choice>, runDate: string)
    requires RunInv(t) && Planned(t, setId, draw, asked) && AnswersAsked(t, txs) && TrashIsYoung(txs, since)
    ensures RunInv(StartWrite(ApplyAll(t, txs), setId, runId, draw, asked, runDate).0)
  {
    var u := ApplyAll(t, txs);
    RunsThrough(t, txs);
    PlanIsSound(t, setId, draw, asked);
    forall i | 0 <= i < |draw| ensures draw[i] in u.cards {
      DrawnCardsStay(t, txs, draw[i], since);
    }
    if runId !in u.issued {
      hide RunInv, Planned, SnapshotSound, TrashIsYoung, ApplyAll, StartWrite;
      LateStart(t, u, setId, runId, draw, asked, runDate);
    }
  }

  /** store.StartRun looking at `seen` and writing into `t`. */
  ghost function StartAcross(seen: Tables, t: Tables, setId: string, runId: string, draw: seq<string>,
                             asked: map<string, Choice>, runDate: string): (Tables, Outcome) {
    if setId !in seen.sets || seen.sets[setId].archived then (t, Missing)
    else if exists r :: IsOpen(seen, r, setId) then
      var r :| IsOpen(seen, r, setId);
      (t, Resumed(r))
    else if Planned(seen, setId, draw, asked) then StartWrite(t, setId, runId, draw, asked, runDate)
    else (t, Refused)
  }

  /** A start while a run of the set is open changes nothing, and hands that
      run back if and only if it found the set in use and the run open when it
      looked. If it saw no open run at all it is refused. */
  lemma StartResumesIff(seen: Tables, t: Tables, setId: string, open: string, runId: string, draw: seq<string>,
                        asked: map<string, Choice>, runDate: string)
    requires RunInv(seen) && IsOpen(t, open, setId)
    ensures var (u, out) := StartAcross(seen, t, setId, runId, draw, asked, runDate);
            var found := setId in seen.sets && !seen.sets[setId].archived;
            && u == t
            && (out == Resumed(open) <==> found && IsOpen(seen, open, setId))
            && (out == Missing <==> !found)
            && (out == Refused <==> found && !HasOpen(seen, setId))
  {
    assert OneOpenRun(seen) by { hide RunsSound, QuestionsNameCards, LogsAnswer, SetsSound, OneOpenRun; }
    hide RunInv, Planned, IsOpen;
  }

  /** Looking and writing at one moment is starting in one step. */
  lemma AcrossNothing(t: Tables, setId: string, runId: string, draw: seq<string>, asked: map<string, Choice>,
                      runDate: string)
    requires RunInv(t)
    ensures StartAcross(t, t, setId, runId, draw, asked, runDate) == StartRun(t, setId, runId, draw, asked, runDate)
  {
    assert OneOpenRun(t) by { hide RunsSound, QuestionsNameCards, LogsAnswer, SetsSound, OneOpenRun; }
    hide RunInv, StartWrite, DrawOk, AskedOk, IsOpen;
  }

  /** The second of two starts that both saw no open run is refused and changes
      nothing, where one after the other it would have resumed the first: the
      comment's "return them to where they were" needs the first to be
      committed before the second looks. */
  lemma SecondStartRefused(t: Tables, setId: string, first: string, second: string, draw: seq<string>,
                           asked: map<string, Choice>, draw2: seq<string>, asked2: map<string, Choice>, runDate: string)
    requires RunInv(t)
    requires Planned(t, setId, draw, asked) && Planned(t, setId, draw2, asked2) && first !in t.issued
    ensures var (u, out) := StartWrite(t, setId, first, draw, asked, runDate);
            && out == Done
            && StartWrite(u, setId, second, draw2, asked2, runDate) == (u, Refused)
            && StartRun(u, setId, second, draw2, asked2, runDate) == (u, Resumed(first))
  {
    var u := StartWrite(t, setId, first, draw, asked, runDate).0;
    hide RunInv, DrawOk, AskedOk;
    assert StartRun(t, setId, first, draw, asked, runDate) == StartWrite(t, setId, first, draw, asked, runDate);
    Protocol.StartIsIdempotent(t, setId, first, draw, asked, runDate, second, draw2, asked2, runDate);
    assert IsOpen(u, first, setId);
  }
}
