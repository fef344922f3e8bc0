/** Ratings overtaken in every possible way: exactly when the schedules are
    still the replay of the log at the end. */
module StaleRatings {
  import opened Text
  import opened Calendar
  import opened Srs
  import opened Store
  import opened ReplayInvariant
  import opened RunInvariant
  import opened Protocol
  import opened Races
  import opened Interleaving
  import LateAnswers

  /** A rating that goes through: the row it had read, and the rating. */
  datatype Rated = Rated(read: ScheduleRow, rating: Rating, today: string)

  ghost function RatedBy(s: Site, m: Move, id: string): Option<Rated> {
    var t := s.world.db;
    match m
    case RateWrites(req, rating, today) =>
      if req in s.readings && s.readings[req].id == id
         && RateWrite(t, id, s.readings[req].row, rating, today).1 == Done
      then Some(Rated(s.readings[req].row, rating, today)) else None
    case Other(e) =>
      if e.Commit? && e.tx.TxRate? && e.tx.id == id && Rate(t, id, e.tx.rating, e.tx.today).1 == Done
      then Some(Rated(t.schedules[id], e.tx.rating, e.tx.today)) else None
    case _ => None
  }

  /** The lapses committed so far, and whether the last rating had read all of
      those before it. */
  datatype Tally = Tally(lapses: nat, counted: bool)

  const NEW := Tally(0, true)

  ghost function Tallied(s: Site, m: Move, id: string, k: Tally): Tally {
    match RatedBy(s, m, id)
    case Some(r) => Tally(if r.rating == Lupa then k.lapses + 1 else k.lapses, r.read.lapses == k.lapses)
    case None => if id in s.world.db.cards && id in Go(s, m).world.db.cards then k else NEW
  }

  /** A rating finds the rung it had read. */
  ghost predicate FindsRung(s: Site, m: Move, id: string) {
    var r := RatedBy(s, m, id);
    r.Some? ==> id in s.world.db.schedules && Level(r.value.read) == Level(s.world.db.schedules[id])
  }

  /** Every rating of the card found the rung it had read, and the last one had
      read all the lapses committed before it. */
  ghost predicate Faithful(s: Site, ms: seq<Move>, id: string, k: Tally)
    decreases |ms|
  {
    if ms == [] then k.counted
    else FindsRung(s, ms[0], id) && Faithful(Go(s, ms[0]), ms[1..], id, Tallied(s, ms[0], id, k))
  }

  predicate CardReplays(t: Tables, id: string) {
    && id in t.cards && id in t.schedules
    && Replays(id, t.cards[id].captured, t.schedules[id], t.logs)
  }

  /** The log is honest and the row is its replay but for the lapses, of which
      the log has `lapses`. */
  predicate OnTrack(t: Tables, id: string, lapses: nat) {
    && id in t.cards && id in t.schedules
    && Honest(id, t.cards[id].captured, History(t.logs, id))
    && ToSchedule(id, t.schedules[id]).(lapses := lapses) == ReplayLogs(id, t.cards[id].captured, History(t.logs, id))
  }

  lemma OnTrackReplays(t: Tables, id: string, lapses: nat)
    requires OnTrack(t, id, lapses)
    ensures CardReplays(t, id) <==> t.schedules[id].lapses == lapses
  {
    hide Honest, History, ReplayLogs, FromTimePtr;
  }

  lemma LogsSoundHere(t: Tables)
    requires RunInv(t)
    ensures LogsSound(t)
  {
    hide RunsSound, OneOpenRun, QuestionsNameCards, SetsSound, AnsweredOnce, Asks;
  }

  // ----- what one move does to one card -------------------------------------

  predicate Untouched(t: Tables, u: Tables, id: string)
    requires id in t.cards && id in t.schedules
  {
    && id in u.cards && id in u.schedules && u.cards[id].captured == t.cards[id].captured
    && u.schedules[id] == t.schedules[id] && History(u.logs, id) == History(t.logs, id)
  }

  lemma TxLeavesCard(t: Tables, tx: Tx, id: string)
    requires LogsSound(t) && id in t.cards && id in t.schedules && id in Apply(t, tx).0.cards
    requires !(tx.TxRate? && tx.id == id && Apply(t, tx).1 == Done)
    ensures Untouched(t, Apply(t, tx).0, id)
  {
    OnlyRatingsMoveSchedules(t, tx, id);
    if tx.TxRate? && tx.id == id {
      hide RateWrite, History;
      RatedOrNot(t, id, tx.rating, tx.today);
    } else {
      TxLeavesHistory(t, tx, id);
      hide Apply, History;
    }
  }

  lemma RatedOrNot(t: Tables, id: string, rating: Rating, today: string)
    ensures Rate(t, id, rating, today).1 != Done ==> Rate(t, id, rating, today).0 == t
  {
    hide Next, IntervalDays, ToTimePtr, FromTimePtr;
  }

  lemma TxLeavesHistory(t: Tables, tx: Tx, id: string)
    requires LogsSound(t) && !(tx.TxRate? && tx.id == id)
    ensures History(Apply(t, tx).0.logs, id) == History(t.logs, id)
  {
    hide History, LogsSound, CreateCard, UpdateCard, DeleteCards, RestoreCards, PurgeCards, Rate, SaveSet, DeleteSet,
         StartRun, FinishRun, InsertAnswer, DiscardRun;
    match tx {
      case TxRate(other, rating, today) => RateLeavesHistory(t, other, rating, today, id);
      case TxInsertAnswer(run, card, rating, interval, format, day) =>
        AnswerLeavesHistory(t, run, card, rating, interval, format, day, id);
      case TxDiscardRun(run) => DiscardLeavesHistory(t, run, id);
      case _ => LateAnswers.LogsUntouched(t, tx);
    }
  }

  lemma RateLeavesHistory(t: Tables, other: string, rating: Rating, today: string, id: string)
    requires other != id
    ensures History(Rate(t, other, rating, today).0.logs, id) == History(t.logs, id)
  {
    hide RateWrite, History;
    if Live(t, other) && other in t.schedules { WriteLeavesHistory(t, other, t.schedules[other], rating, today, id); }
  }

  lemma WriteLeavesHistory(t: Tables, other: string, read: ScheduleRow, rating: Rating, today: string, id: string)
    requires other != id
    ensures History(RateWrite(t, other, read, rating, today).0.logs, id) == History(t.logs, id)
  {
    hide Next, IntervalDays, ToTimePtr, FromTimePtr, History;
    var u := RateWrite(t, other, read, rating, today).0;
    if u.logs != t.logs { HistoryAppend(t.logs, u.logs[|t.logs|], id); }
  }

  lemma AnswerLeavesHistory(t: Tables, run: string, card: string, rating: Rating, interval: nat, format: Format,
                            day: string, id: string)
    ensures History(InsertAnswer(t, run, card, rating, interval, format, day).0.logs, id) == History(t.logs, id)
  {
    hide Answered, History;
    var u := InsertAnswer(t, run, card, rating, interval, format, day).0;
    if u.logs != t.logs { HistoryAppend(t.logs, u.logs[|t.logs|], id); }
  }

  lemma DiscardLeavesHistory(t: Tables, run: string, id: string)
    requires LogsSound(t)
    ensures History(DiscardRun(t, run).0.logs, id) == History(t.logs, id)
  {
    hide Detach, History;
    if run in t.runs { HistoryDetached(t.logs, run, id); }
  }

  /** A move rates the card from what it had read, or leaves it as it was. */
  lemma MoveOnCard(s: Site, m: Move, id: string)
    requires SiteInv(s) && id in s.world.db.cards && id in Go(s, m).world.db.cards
    ensures var t, u := s.world.db, Go(s, m).world.db;
            && id in t.schedules
            && match RatedBy(s, m, id)
               case Some(r) => u == RateWrite(t, id, r.read, r.rating, r.today).0
                               && RateWrite(t, id, r.read, r.rating, r.today).1 == Done && Placed(r.read)
               case None => Untouched(t, u, id)
  {
    var t := s.world.db;
    GoRuns(s, m);
    SiteRunsSound(s);
    LogsSoundHere(t);
    assert t.schedules.Keys == t.cards.Keys;
    hide Go, Sound, Agreement.DatesStored, PlanSound, Apply, RateWrite, StartWrite, History, LogsSound, Placed, RunInv;
    match m
    case Other(e) => OtherOnCard(s, e, id);
    case RateWrites(req, rating, today) =>
      if req in s.readings {
        var r := s.readings[req];
        OnlyTheRow(t, r.id, r.row, rating, today);
        if r.id != id { WriteLeavesHistory(t, r.id, r.row, rating, today, id); }
      }
    case StartInserts(req, runId, runDate) =>
      if req in s.plans {
        StartWriteOnlyRuns(t, s.plans[req].setId, runId, s.plans[req].draw, s.plans[req].asked, runDate);
      }
    case _ =>
  }

  lemma OtherOnCard(s: Site, e: Event, id: string)
    requires LogsSound(s.world.db) && AllPlaced(s.world.db) && id in s.world.db.cards && id in s.world.db.schedules
    requires Runs(s, Other(e), s.world.db, Go(s, Other(e)).world.db) && id in Go(s, Other(e)).world.db.cards
    ensures var t, u := s.world.db, Go(s, Other(e)).world.db;
            match RatedBy(s, Other(e), id)
            case Some(r) => u == RateWrite(t, id, r.read, r.rating, r.today).0
                            && RateWrite(t, id, r.read, r.rating, r.today).1 == Done && Placed(r.read)
            case None => Untouched(t, u, id)
  {
    var t := s.world.db;
    assert Placed(t.schedules[id]);
    hide Go, RateWrite, History, LogsSound, Placed, AllPlaced;
    if TxOf(s.world, e).Some? {
      var tx := TxOf(s.world, e).value;
      if tx.TxRate? && tx.id == id && Apply(t, tx).1 == Done {
        assert e.Commit? && e.tx == tx;
      } else {
        TxLeavesCard(t, tx, id);
        hide Apply;
      }
    }
  }

  // ----- following the card -------------------------------------------------

  lemma SameLevelSameReview(id: string, a: ScheduleRow, b: ScheduleRow, lapses: nat, rating: Rating, today: string)
    requires Placed(a) && Placed(b) && Level(a) == Level(b)
    ensures var x, y := ToSchedule(id, a), ToSchedule(id, b).(lapses := lapses);
            && IntervalDays(x) == IntervalDays(y)
            && IntervalDays(Next(x, rating, today)) == IntervalDays(Next(y, rating, today))
            && Next(x, rating, today).(lapses := Next(y, rating, today).lapses) == Next(y, rating, today)
  {
    hide AddDays, FromTime;
    if a.nextReview.Some? { NotEmpty(a.nextReview.value); }
    if b.nextReview.Some? { NotEmpty(b.nextReview.value); }
  }

  lemma OtherLevelOtherInterval(id: string, a: ScheduleRow, b: ScheduleRow, lapses: nat)
    requires Placed(a) && Placed(b) && Level(a) != Level(b)
    ensures IntervalDays(ToSchedule(id, a)) != IntervalDays(ToSchedule(id, b).(lapses := lapses))
  {
    hide FromTime;
    if a.nextReview.Some? { NotEmpty(a.nextReview.value); }
    if b.nextReview.Some? { NotEmpty(b.nextReview.value); }
  }

  lemma WriteFollows(t: Tables, id: string, read: ScheduleRow, rating: Rating, today: string, lapses: nat)
    requires OnTrack(t, id, lapses) && Placed(read) && Placed(t.schedules[id]) && Level(read) == Level(t.schedules[id])
    requires RateWrite(t, id, read, rating, today).1 == Done
    ensures var u := RateWrite(t, id, read, rating, today).0;
            var more := if rating == Lupa then lapses + 1 else lapses;
            && OnTrack(u, id, more)
            && (u.schedules[id].lapses == more <==> read.lapses == lapses)
  {
    hide Next, IntervalDays, ToTimePtr, FromTimePtr, AddDays, ReplayLogs, Honest, History, RateWrite, Placed, Level;
    WriteStores(t, id, read, rating, today);
    var u := RateWrite(t, id, read, rating, today).0;
    var h, captured := History(t.logs, id), t.cards[id].captured;
    var now := ToSchedule(id, read);
    var l := Log(id, rating, IntervalDays(now), IntervalDays(Next(now, rating, today)), DueQueue, None, Recall, today);
    SameLevelSameReview(id, read, t.schedules[id], lapses, rating, today);
    HistoryAppend(t.logs, l, id);
    ReplayOneMore(id, captured, h, l);
    LapsesAfter(now, rating, today);
    LapsesAfter(ReplayLogs(id, captured, h), rating, today);
    HonestOneMore(id, captured, h, l);
  }

  lemma LapsesAfter(x: Schedule, rating: Rating, today: string)
    ensures Next(x, rating, today).lapses == if rating == Lupa then x.lapses + 1 else x.lapses
  {
    hide AddDays;
  }

  lemma WriteStores(t: Tables, id: string, read: ScheduleRow, rating: Rating, today: string)
    requires RateWrite(t, id, read, rating, today).1 == Done
    ensures var u := RateWrite(t, id, read, rating, today).0;
            var next := Next(ToSchedule(id, read), rating, today);
            && u.cards == t.cards && id in u.schedules && ToSchedule(id, u.schedules[id]) == next
            && u.logs == t.logs + [Log(id, rating, IntervalDays(ToSchedule(id, read)), IntervalDays(next), DueQueue,
                                       None, Recall, today)]
  {
    var next := Next(ToSchedule(id, read), rating, today);
    NextKeepsCard(ToSchedule(id, read), rating, today);
    ColumnRoundTrips(next.nextReview, None);
    hide Next, IntervalDays, ToTimePtr, FromTimePtr;
  }

  lemma WriteLies(t: Tables, id: string, read: ScheduleRow, rating: Rating, today: string, lapses: nat)
    requires OnTrack(t, id, lapses) && Placed(read) && Placed(t.schedules[id]) && Level(read) != Level(t.schedules[id])
    requires RateWrite(t, id, read, rating, today).1 == Done
    ensures var u := RateWrite(t, id, read, rating, today).0;
            id in u.cards && !Honest(id, u.cards[id].captured, History(u.logs, id))
  {
    var u := RateWrite(t, id, read, rating, today).0;
    var h, captured := History(t.logs, id), t.cards[id].captured;
    var l := u.logs[|t.logs|];
    OtherLevelOtherInterval(id, read, t.schedules[id], lapses);
    WriteStores(t, id, read, rating, today);
    HistoryAppend(t.logs, l, id);
    hide Next, IntervalDays, ToTimePtr, FromTimePtr, ReplayLogs, History, RateWrite, Placed, Level;
    assert (h + [l])[|h|] == l && (h + [l])[..|h|] == h;
  }

  /** A wrong interval stays in the log, and the log stays with its card. */
  lemma {:induction false} LieStays(s: Site, ms: seq<Move>, id: string)
    requires SiteInv(s) && Proper(s, ms) && id in s.world.db.cards
    requires !Honest(id, s.world.db.cards[id].captured, History(s.world.db.logs, id))
    ensures !CardReplays(GoAll(s, ms).world.db, id)
    decreases |ms|
  {
    if ms != [] {
      var v := Go(s, ms[0]);
      GoKeeps(s, ms[0]);
      LoggedStays(s, ms[0], id);
      MoveOnCard(s, ms[0], id);
      LieStaysOnce(s, ms[0], id);
      hide Go, SiteInv, Honest, History;
      LieStays(v, ms[1..], id);
    }
  }

  lemma LoggedStays(s: Site, m: Move, id: string)
    requires id in s.world.db.cards && !Honest(id, s.world.db.cards[id].captured, History(s.world.db.logs, id))
    ensures id in Go(s, m).world.db.cards
  {
    var t := s.world.db;
    if !HasLog(t, id) {
      NoHistory(t.logs, id);
      assert false;
    }
    hide Go, Honest, History, HasLog;
    GoKeepsCards(s, m, id);
  }

  lemma LieStaysOnce(s: Site, m: Move, id: string)
    requires SiteInv(s) && id in s.world.db.cards && id in Go(s, m).world.db.cards
    requires !Honest(id, s.world.db.cards[id].captured, History(s.world.db.logs, id))
    ensures var u := Go(s, m).world.db; !Honest(id, u.cards[id].captured, History(u.logs, id))
  {
    hide *;
    MoveOnCard(s, m, id);
    var t, u := s.world.db, Go(s, m).world.db;
    match RatedBy(s, m, id)
    case Some(r) => LieCopied(t, id, r.read, r.rating, r.today);
    case None => LieUntouched(t, u, id);
  }

  lemma LieUntouched(t: Tables, u: Tables, id: string)
    requires id in t.cards && id in t.schedules && Untouched(t, u, id)
    requires !Honest(id, t.cards[id].captured, History(t.logs, id))
    ensures !Honest(id, u.cards[id].captured, History(u.logs, id))
  {
    hide Honest, History;
  }

  lemma LieCopied(t: Tables, id: string, read: ScheduleRow, rating: Rating, today: string)
    requires id in t.cards && RateWrite(t, id, read, rating, today).1 == Done
    requires !Honest(id, t.cards[id].captured, History(t.logs, id))
    ensures var u := RateWrite(t, id, read, rating, today).0;
            id in u.cards && !Honest(id, u.cards[id].captured, History(u.logs, id))
  {
    var u := RateWrite(t, id, read, rating, today).0;
    hide RateWrite, Next, IntervalDays, Honest, History;
    WriteStores(t, id, read, rating, today);
    HistoryAppend(t.logs, u.logs[|t.logs|], id);
    if Honest(id, t.cards[id].captured, History(u.logs, id)) {
      PrefixHonest(id, t.cards[id].captured, History(t.logs, id), u.logs[|t.logs|]);
      assert false;
    }
  }

  lemma PrefixHonest(id: string, captured: string, h: seq<Log>, l: Log)
    requires Honest(id, captured, h + [l])
    ensures Honest(id, captured, h)
  {
    hide IntervalDays, ReplayLogs;
    forall i | 0 <= i < |h|
      ensures h[i].before == IntervalDays(ReplayLogs(id, captured, h[..i]))
      ensures h[i].after == IntervalDays(ReplayLogs(id, captured, h[..i + 1]))
    {
      assert (h + [l])[i] == h[i] && (h + [l])[..i] == h[..i] && (h + [l])[..i + 1] == h[..i + 1];
    }
  }

  function LevelOf(t: Tables, id: string): nat {
    if id in t.schedules then Level(t.schedules[id]) else 0
  }

  /** Where following the card has come to. */
  predicate Followed(t: Tables, id: string, k: Tally) {
    if id in t.cards then OnTrack(t, id, k.lapses) && (k.counted <==> t.schedules[id].lapses == k.lapses)
    else k == NEW
  }

  /** One move: the card is still followed, or its log has a wrong interval. */
  lemma FollowMove(s: Site, m: Move, id: string, k: Tally)
    requires SiteInv(s) && DatedMove(m) && Spares(s, m) && Followed(s.world.db, id, k)
    ensures var v := Go(s, m).world.db;
            if FindsRung(s, m, id) then Followed(v, id, Tallied(s, m, id, k))
            else id in v.cards && !Honest(id, v.cards[id].captured, History(v.logs, id))
  {
    hide Go, SiteInv, RatedBy, Followed, Honest, History, Level;
    if RatedBy(s, m, id).Some? { FollowWrite(s, m, id, k); } else { FollowOther(s, m, id, k); }
  }

  lemma FollowWrite(s: Site, m: Move, id: string, k: Tally)
    requires SiteInv(s) && Followed(s.world.db, id, k) && RatedBy(s, m, id).Some?
    ensures var t, v := s.world.db, Go(s, m).world.db;
            var r := RatedBy(s, m, id).value;
            && id in t.schedules && id in v.cards
            && (if Level(r.read) == Level(t.schedules[id])
                then Followed(v, id, Tally(if r.rating == Lupa then k.lapses + 1 else k.lapses,
                                           r.read.lapses == k.lapses))
                else !Honest(id, v.cards[id].captured, History(v.logs, id)))
  {
    var t := s.world.db;
    RatedIsThere(s, m, id);
    var r := RatedBy(s, m, id).value;
    hide *;
    MoveOnCard(s, m, id);
    SitePlaced(s, id);
    FollowRate(t, id, r.read, r.rating, r.today, k);
  }

  lemma SitePlaced(s: Site, id: string)
    requires SiteInv(s) && id in s.world.db.cards
    ensures id in s.world.db.schedules && Placed(s.world.db.schedules[id])
  {
    hide Sound, Placed, Agreement.DatesStored, PlanSound;
  }

  lemma FollowRate(t: Tables, id: string, read: ScheduleRow, rating: Rating, today: string, k: Tally)
    requires id in t.cards && id in t.schedules && Followed(t, id, k)
    requires Placed(read) && Placed(t.schedules[id]) && RateWrite(t, id, read, rating, today).1 == Done
    ensures var v := RateWrite(t, id, read, rating, today).0;
            && id in v.cards
            && (if Level(read) == Level(t.schedules[id])
                then Followed(v, id, Tally(if rating == Lupa then k.lapses + 1 else k.lapses, read.lapses == k.lapses))
                else !Honest(id, v.cards[id].captured, History(v.logs, id)))
  {
    hide RateWrite, OnTrack, Level, Placed, Honest, History;
    if Level(read) == Level(t.schedules[id]) {
      WriteFollows(t, id, read, rating, today, k.lapses);
      OnlyTheRow(t, id, read, rating, today);
    } else {
      WriteLies(t, id, read, rating, today, k.lapses);
    }
  }

  lemma RatedIsThere(s: Site, m: Move, id: string)
    requires SiteInv(s) && RatedBy(s, m, id).Some?
    ensures id in s.world.db.cards && id in Go(s, m).world.db.cards
  {
    var t := s.world.db;
    hide Sound, Agreement.DatesStored, PlanSound, Placed, StartWrite, Planned;
    match m
    case RateWrites(req, rating, today) =>
      WroteWhatWasThere(t, id, s.readings[req].row, rating, today);
      OnlyTheRow(t, id, s.readings[req].row, rating, today);
      hide RateWrite;
    case Other(e) =>
      hide Go;
      GoKeepsCards(s, m, id);
  }

  lemma WroteWhatWasThere(t: Tables, id: string, read: ScheduleRow, rating: Rating, today: string)
    requires RateWrite(t, id, read, rating, today).1 == Done
    ensures id in t.schedules
  {
    hide Next, IntervalDays, ToTimePtr, FromTimePtr;
  }

  lemma FollowOther(s: Site, m: Move, id: string, k: Tally)
    requires SiteInv(s) && DatedMove(m) && Spares(s, m) && Followed(s.world.db, id, k)
    requires RatedBy(s, m, id).None?
    ensures Followed(Go(s, m).world.db, id, Tallied(s, m, id, k))
  {
    var t, v := s.world.db, Go(s, m).world.db;
    hide Go, SiteInv, RatedBy, Honest, History, ReplayLogs;
    if id in t.cards && id in v.cards {
      MoveOnCard(s, m, id);
    } else if id in v.cards {
      CreatedIsFresh(s, m, id);
    }
  }

  lemma CreatedIsFresh(s: Site, m: Move, id: string)
    requires SiteInv(s) && DatedMove(m) && Spares(s, m) && id !in s.world.db.cards && id in Go(s, m).world.db.cards
    ensures Followed(Go(s, m).world.db, id, NEW) && LevelOf(Go(s, m).world.db, id) == 0
  {
    var t, v := s.world.db, Go(s, m).world.db;
    GoRuns(s, m);
    GoKeepsStored(s, m);
    SiteRunsSound(s);
    LogsSoundHere(t);
    assert t.schedules.Keys == t.cards.Keys && v.schedules.Keys == v.cards.Keys;
    hide Go, SiteInv, Apply, RateWrite, StartWrite, Followed, LevelOf, Agreement.DatesStored, AllPlaced, LogsSound;
    match m
    case Other(e) =>
      var tx := TxOf(s.world, e).value;
      if tx.TxCreateCard? && tx.id == id {
        CreateFollows(t, id, tx);
      } else {
        NobodyElseCreates(t, tx, id);
        assert false;
      }
    case RateWrites(req, rating, today) =>
      OnlyTheRow(t, s.readings[req].id, s.readings[req].row, rating, today);
      assert false;
    case StartInserts(req, runId, runDate) =>
      StartWriteOnlyRuns(t, s.plans[req].setId, runId, s.plans[req].draw, s.plans[req].asked, runDate);
      assert false;
    case _ => assert false;
  }

  lemma CreateFollows(t: Tables, id: string, tx: Tx)
    requires tx.TxCreateCard? && tx.id == id
    requires LogsSound(t) && id !in t.cards && id !in t.schedules && id in Apply(t, tx).0.cards
    ensures Followed(Apply(t, tx).0, id, NEW) && LevelOf(Apply(t, tx).0, id) == 0
  {
    hide Replays, Honest, AddDays, ToTimePtr, FromTimePtr, LogsSound;
    var u := CreateCard(t, id, tx.card, tx.today).0;
    ColumnRoundTrips(NewSchedule(id, tx.today).nextReview, None);
    NoLogNoHistory(t, id);
    FreshReplays(id, tx.today, u.schedules[id], t.logs);
    ReplayIsOnTrack(u, id);
  }

  lemma NoLogNoHistory(t: Tables, id: string)
    requires LogsSound(t) && id !in t.cards
    ensures History(t.logs, id) == []
  {
    NoHistory(t.logs, id);
  }

  lemma ReplayIsOnTrack(t: Tables, id: string)
    requires CardReplays(t, id)
    ensures OnTrack(t, id, t.schedules[id].lapses)
  {
    hide Honest, History, ReplayLogs, FromTimePtr;
  }

  /** Over every interleaving a card's row is the replay of its log at the end
      if and only if its ratings were faithful. */
  lemma {:induction false} FaithfulIff(s: Site, ms: seq<Move>, id: string, k: Tally)
    requires SiteInv(s) && Proper(s, ms) && Followed(s.world.db, id, k)
    requires id in GoAll(s, ms).world.db.cards
    ensures CardReplays(GoAll(s, ms).world.db, id) <==> Faithful(s, ms, id, k)
    decreases |ms|
  {
    hide Go, SiteInv, RatedBy, FindsRung, Tallied, OnTrack, Honest, History, CardReplays;
    if ms == [] {
      OnTrackReplays(s.world.db, id, k.lapses);
    } else {
      hide Followed;
      GoKeeps(s, ms[0]);
      FollowMove(s, ms[0], id, k);
      if FindsRung(s, ms[0], id) {
        FaithfulIff(Go(s, ms[0]), ms[1..], id, Tallied(s, ms[0], id, k));
      } else {
        LieStays(Go(s, ms[0]), ms[1..], id);
      }
    }
  }

  /** From the empty tables. */
  lemma ReplayIff(ms: seq<Move>)
    requires Proper(OPENING, ms)
    ensures var t := GoAll(OPENING, ms).world.db;
            ReplayInv(t) <==> forall id :: id in t.cards ==> Faithful(OPENING, ms, id, NEW)
  {
    var t := GoAll(OPENING, ms).world.db;
    OpeningInv();
    EverySite(OPENING, ms);
    SiteRunsSound(GoAll(OPENING, ms));
    LogsSoundHere(t);
    assert t.schedules.Keys == t.cards.Keys by { hide Placed, Sound; }
    hide GoAll, SiteInv, Proper, Faithful, Replays, LogsSound;
    forall id | id in t.cards ensures CardReplays(t, id) <==> Faithful(OPENING, ms, id, NEW) {
      FaithfulIff(OPENING, ms, id, NEW);
    }
  }

  // ----- lapses -------------------------------------------------------------

  /** A rating finds the rung and the lapses it had read. */
  ghost predicate FindsRow(s: Site, m: Move, id: string) {
    var r := RatedBy(s, m, id);
    r.Some? ==> id in s.world.db.schedules && SameRung(r.value.read, s.world.db.schedules[id])
  }

  ghost predicate EachFindsRow(s: Site, ms: seq<Move>, id: string)
    decreases |ms|
  {
    ms != [] ==> FindsRow(s, ms[0], id) && EachFindsRow(Go(s, ms[0]), ms[1..], id)
  }

  /** No rating remembers a card it had read as mastered. */
  ghost predicate NoneMastered(s: Site, ms: seq<Move>, id: string)
    decreases |ms|
  {
    ms != [] ==>
      && (var r := RatedBy(s, ms[0], id); r.Some? && r.value.rating == Ingat ==> r.value.read.state != Mastered)
      && NoneMastered(Go(s, ms[0]), ms[1..], id)
  }

  lemma {:induction false} FoundIsFaithful(s: Site, ms: seq<Move>, id: string, k: Tally)
    requires SiteInv(s) && Proper(s, ms) && Followed(s.world.db, id, k) && k.counted && EachFindsRow(s, ms, id)
    ensures Faithful(s, ms, id, k)
    decreases |ms|
  {
    if ms != [] {
      FoundIsCounted(s, ms[0], id, k);
      hide Go, SiteInv, FindsRow, RatedBy, FindsRung, Tallied, Followed;
      GoKeeps(s, ms[0]);
      FollowMove(s, ms[0], id, k);
      FoundIsFaithful(Go(s, ms[0]), ms[1..], id, Tallied(s, ms[0], id, k));
    }
  }

  lemma FoundIsCounted(s: Site, m: Move, id: string, k: Tally)
    requires SiteInv(s) && Followed(s.world.db, id, k) && k.counted && FindsRow(s, m, id)
    ensures FindsRung(s, m, id) && Tallied(s, m, id, k).counted
  {
    hide Go, RatedBy, Level;
    if RatedBy(s, m, id).Some? { RatedIsThere(s, m, id); }
    hide SiteInv, OnTrack;
  }

  predicate AtMost(r: ScheduleRow, lapses: nat, level: nat) {
    r.lapses < lapses || (r.lapses == lapses && Level(r) <= level)
  }

  predicate Under(r: ScheduleRow, lapses: nat, level: nat) {
    r.lapses < lapses || (r.lapses == lapses && Level(r) < level)
  }

  /** No reading of the card is ahead of its row. */
  ghost predicate Within(s: Site, id: string, lapses: nat) {
    forall q :: q in s.readings && s.readings[q].id == id ==>
      AtMost(s.readings[q].row, lapses, LevelOf(s.world.db, id))
  }

  /** A lapse is missing from the row, and no reading still has it all. */
  ghost predicate Short(s: Site, id: string, lapses: nat) {
    && id in s.world.db.schedules && s.world.db.schedules[id].lapses < lapses
    && forall q :: q in s.readings && s.readings[q].id == id ==>
         Under(s.readings[q].row, lapses, LevelOf(s.world.db, id))
  }

  lemma ReadingFrom(s: Site, m: Move, q: nat)
    requires q in Go(s, m).readings
    ensures (q in s.readings && Go(s, m).readings[q] == s.readings[q])
      || (m.RateReads? && Go(s, m).world == s.world && Go(s, m).readings[q].id in s.world.db.schedules
          && Go(s, m).readings[q].row == s.world.db.schedules[Go(s, m).readings[q].id])
  {
    hide Step, RateWrite, StartWrite, Planned;
  }

  lemma ReadFrom(s: Site, m: Move, id: string)
    requires RatedBy(s, m, id).Some?
    ensures var r := RatedBy(s, m, id).value;
            && !m.RateReads?
            && ((exists q :: q in s.readings && s.readings[q].id == id && s.readings[q].row == r.read)
                || (id in s.world.db.schedules && r.read == s.world.db.schedules[id]))
  {
    hide RateWrite;
  }

  /** The rung and the lapses a rating leaves. */
  predicate Leaves(r: Rated, row: ScheduleRow) {
    && (Level(r.read) > TOP <==> r.read.state == Mastered)
    && row.lapses == (if r.rating == Lupa then r.read.lapses + 1 else r.read.lapses)
    && Level(row) == if r.rating == Lupa then 0 else if Level(r.read) > TOP then TOP + 1 else Level(r.read) + 1
  }

  lemma RatedRung(s: Site, m: Move, id: string)
    requires SiteInv(s) && DatedMove(m) && RatedBy(s, m, id).Some?
    ensures var u := Go(s, m).world.db;
            id in u.schedules && Leaves(RatedBy(s, m, id).value, u.schedules[id])
  {
    var r := RatedBy(s, m, id).value;
    RatedIsThere(s, m, id);
    RatedToday(s, m, id);
    hide Go, SiteInv, RateWrite, Placed, Level, RatedBy, Parse;
    MoveOnCard(s, m, id);
    WrittenRung(s.world.db, id, r.read, r.rating, r.today);
    PlacedTop(r.read);
  }

  lemma RatedToday(s: Site, m: Move, id: string)
    requires DatedMove(m) && RatedBy(s, m, id).Some?
    ensures Parse(RatedBy(s, m, id).value.today).Some?
  {
    hide Parse, RateWrite;
  }

  /** Readings after a rating: all of them were there before it. */
  lemma RatedReadings(s: Site, m: Move, id: string)
    requires RatedBy(s, m, id).Some?
    ensures forall q :: q in Go(s, m).readings ==> q in s.readings && Go(s, m).readings[q] == s.readings[q]
  {
    hide RateWrite, Step;
  }

  lemma WithinRated(s: Site, m: Move, id: string, lapses: nat)
    requires SiteInv(s) && DatedMove(m) && RatedBy(s, m, id).Some? && FindsRung(s, m, id) && Within(s, id, lapses)
    requires s.world.db.schedules[id].lapses == lapses
    requires var r := RatedBy(s, m, id).value; r.rating == Ingat ==> r.read.state != Mastered
    ensures var r := RatedBy(s, m, id).value;
            var more := if r.rating == Lupa then lapses + 1 else lapses;
            if r.read.lapses == lapses then Within(Go(s, m), id, more) else Short(Go(s, m), id, more)
  {
    WithinRead(s, m, id, lapses);
    RatedRung(s, m, id);
    RatedReadings(s, m, id);
    hide Go, SiteInv, RatedBy, Level;
  }

  lemma WithinRead(s: Site, m: Move, id: string, lapses: nat)
    requires RatedBy(s, m, id).Some? && FindsRung(s, m, id) && Within(s, id, lapses)
    requires s.world.db.schedules[id].lapses == lapses
    ensures RatedBy(s, m, id).value.read.lapses <= lapses
  {
    ReadFrom(s, m, id);
    hide RatedBy, Level;
  }

  lemma ShortRated(s: Site, m: Move, id: string, lapses: nat)
    requires SiteInv(s) && DatedMove(m) && RatedBy(s, m, id).Some? && FindsRung(s, m, id) && Short(s, id, lapses)
    requires var r := RatedBy(s, m, id).value; r.rating == Ingat ==> r.read.state != Mastered
    ensures var r := RatedBy(s, m, id).value;
            r.read.lapses < lapses && Short(Go(s, m), id, if r.rating == Lupa then lapses + 1 else lapses)
  {
    ShortRead(s, m, id, lapses);
    RatedRung(s, m, id);
    RatedReadings(s, m, id);
    hide Go, SiteInv, RatedBy, Level;
  }

  lemma ShortRead(s: Site, m: Move, id: string, lapses: nat)
    requires RatedBy(s, m, id).Some? && FindsRung(s, m, id) && Short(s, id, lapses)
    ensures RatedBy(s, m, id).value.read.lapses < lapses
  {
    ReadFrom(s, m, id);
    hide RatedBy, Level;
  }

  lemma LeavesUnlogged(s: Site, m: Move, id: string)
    requires id in s.world.db.cards && id !in Go(s, m).world.db.cards
    ensures !HasLog(s.world.db, id)
  {
    if HasLog(s.world.db, id) {
      hide Go, HasLog;
      GoKeepsCards(s, m, id);
    }
  }

  /** A card leaves only before its first review. */
  lemma LeavesNew(s: Site, m: Move, id: string, k: Tally)
    requires Followed(s.world.db, id, k) && id in s.world.db.cards && id !in Go(s, m).world.db.cards
    ensures k.lapses == 0 && LevelOf(s.world.db, id) == 0
  {
    var t := s.world.db;
    LeavesUnlogged(s, m, id);
    hide Go, FromTimePtr, AddDays;
    NoHistory(t.logs, id);
    assert Reviews([]) == [];
  }

  /** A move that does not rate the card. */
  lemma WithinKept(s: Site, m: Move, id: string, k: Tally)
    requires SiteInv(s) && DatedMove(m) && Spares(s, m) && RatedBy(s, m, id).None?
    requires Followed(s.world.db, id, k) && k.counted && Within(s, id, k.lapses)
    ensures Tallied(s, m, id, k).counted && Within(Go(s, m), id, Tallied(s, m, id, k).lapses)
  {
    var t, v := s.world.db, Go(s, m).world.db;
    LevelKept(s, m, id, k);
    forall q | q in Go(s, m).readings && Go(s, m).readings[q].id == id
      ensures AtMost(Go(s, m).readings[q].row, Tallied(s, m, id, k).lapses, LevelOf(v, id))
    {
      ReadingFrom(s, m, q);
      hide Go, RatedBy, Level, OnTrack;
      SiteKeys(s);
      hide SiteInv;
    }
  }

  lemma SiteKeys(s: Site)
    requires SiteInv(s)
    ensures s.world.db.schedules.Keys == s.world.db.cards.Keys
  {
    hide Sound, Placed, Agreement.DatesStored, PlanSound;
  }

  lemma LevelKept(s: Site, m: Move, id: string, k: Tally)
    requires SiteInv(s) && DatedMove(m) && Spares(s, m) && RatedBy(s, m, id).None? && Followed(s.world.db, id, k)
    ensures LevelOf(Go(s, m).world.db, id) == LevelOf(s.world.db, id)
    ensures Tallied(s, m, id, k).lapses == k.lapses
    ensures id in s.world.db.cards && id !in Go(s, m).world.db.cards ==> k.lapses == 0
  {
    var t, v := s.world.db, Go(s, m).world.db;
    SiteKeys(s);
    GoKeeps(s, m);
    SiteKeys(Go(s, m));
    hide Go, SiteInv, RatedBy, Level, OnTrack;
    if id in t.cards && id in v.cards {
      hide Followed, History;
      MoveOnCard(s, m, id);
    } else if id in t.cards {
      LeavesNew(s, m, id, k);
    } else if id in v.cards {
      CreatedIsFresh(s, m, id);
    }
  }

  lemma ShortKept(s: Site, m: Move, id: string, k: Tally)
    requires SiteInv(s) && DatedMove(m) && Spares(s, m) && RatedBy(s, m, id).None?
    requires Followed(s.world.db, id, k) && Short(s, id, k.lapses)
    ensures Tallied(s, m, id, k) == k && Short(Go(s, m), id, k.lapses)
  {
    var t, v := s.world.db, Go(s, m).world.db;
    SiteKeys(s);
    LevelKept(s, m, id, k);
    hide Go, SiteInv, RatedBy, Level, OnTrack, History;
    MoveOnCard(s, m, id);
    forall q | q in Go(s, m).readings && Go(s, m).readings[q].id == id
      ensures Under(Go(s, m).readings[q].row, k.lapses, LevelOf(v, id))
    {
      ReadingFrom(s, m, q);
    }
  }

  lemma ShortMove(s: Site, m: Move, id: string, k: Tally)
    requires SiteInv(s) && DatedMove(m) && Spares(s, m) && Followed(s.world.db, id, k) && FindsRung(s, m, id)
    requires !k.counted && Short(s, id, k.lapses)
    requires RatedBy(s, m, id).Some? && RatedBy(s, m, id).value.rating == Ingat ==>
               RatedBy(s, m, id).value.read.state != Mastered
    ensures var j := Tallied(s, m, id, k); !j.counted && Short(Go(s, m), id, j.lapses)
  {
    hide Go, SiteInv, FindsRung, RatedBy, Followed, Short;
    if RatedBy(s, m, id).Some? { ShortRated(s, m, id, k.lapses); } else { ShortKept(s, m, id, k); }
  }

  /** A missing lapse stays missing. */
  lemma {:induction false} ShortStays(s: Site, ms: seq<Move>, id: string, k: Tally)
    requires SiteInv(s) && Proper(s, ms) && Followed(s.world.db, id, k) && NoneMastered(s, ms, id)
    requires !k.counted && Short(s, id, k.lapses)
    ensures !Faithful(s, ms, id, k)
    decreases |ms|
  {
    if ms != [] && FindsRung(s, ms[0], id) {
      GoKeeps(s, ms[0]);
      FollowMove(s, ms[0], id, k);
      hide Go, SiteInv, FindsRung, RatedBy, Followed, Short;
      ShortMove(s, ms[0], id, k);
      hide Tallied;
      ShortStays(Go(s, ms[0]), ms[1..], id, Tallied(s, ms[0], id, k));
    }
  }

  lemma {:induction false} FaithfulFinds(s: Site, ms: seq<Move>, id: string, k: Tally)
    requires SiteInv(s) && Proper(s, ms) && Followed(s.world.db, id, k) && NoneMastered(s, ms, id)
    requires k.counted && Within(s, id, k.lapses) && Faithful(s, ms, id, k)
    ensures EachFindsRow(s, ms, id)
    decreases |ms|
  {
    if ms != [] {
      GoKeeps(s, ms[0]);
      FollowMove(s, ms[0], id, k);
      var v, j := Go(s, ms[0]), Tallied(s, ms[0], id, k);
      if RatedBy(s, ms[0], id).Some? {
        RatedHadAll(s, ms[0], id, k);
        hide Go, SiteInv, FindsRung, RatedBy, Followed, Short, Within;
        WithinRated(s, ms[0], id, k.lapses);
        if !j.counted { ShortStays(v, ms[1..], id, j); }
      } else {
        hide Go, SiteInv, FindsRung, RatedBy, Followed, Short, Within, Tallied;
        WithinKept(s, ms[0], id, k);
      }
      FaithfulFinds(v, ms[1..], id, j);
    }
  }

  lemma RatedHadAll(s: Site, m: Move, id: string, k: Tally)
    requires SiteInv(s) && Followed(s.world.db, id, k) && k.counted && RatedBy(s, m, id).Some? && FindsRung(s, m, id)
    ensures s.world.db.schedules[id].lapses == k.lapses
    ensures FindsRow(s, m, id) <==> Tallied(s, m, id, k).counted
  {
    RatedIsThere(s, m, id);
    hide Go, SiteInv, RatedBy, Level, OnTrack;
  }

  /** Where no rating remembers a card it had read as mastered: the schedules
      are the replay at the end if and only if every rating found the rung and
      the lapses it had read. */
  lemma FoundIff(ms: seq<Move>)
    requires Proper(OPENING, ms)
    ensures var t := GoAll(OPENING, ms).world.db;
            (forall id :: id in t.cards ==> NoneMastered(OPENING, ms, id)) ==>
              (ReplayInv(t) <==> forall id :: id in t.cards ==> EachFindsRow(OPENING, ms, id))
  {
    var t := GoAll(OPENING, ms).world.db;
    OpeningInv();
    ReplayIff(ms);
    hide GoAll, SiteInv, Proper, Faithful, NoneMastered, EachFindsRow;
    forall id | id in t.cards && NoneMastered(OPENING, ms, id)
      ensures Faithful(OPENING, ms, id, NEW) <==> EachFindsRow(OPENING, ms, id)
    {
      if EachFindsRow(OPENING, ms, id) { FoundIsFaithful(OPENING, ms, id, NEW); }
      if Faithful(OPENING, ms, id, NEW) { FaithfulFinds(OPENING, ms, id, NEW); }
    }
  }
}
