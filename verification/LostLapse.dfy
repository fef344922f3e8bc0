/** Agreement between schedules and log can be broken and come back: two
    ratings of a mastered card, from readings a lapse apart. */
module LostLapse {
  import opened Calendar
  import opened Srs
  import opened Store
  import opened ReplayInvariant
  import opened Protocol
  import opened Races
  import opened Interleaving
  import opened StaleRatings

  ghost predicate Reached(s: Site) {
    exists ms :: Proper(OPENING, ms) && GoAll(OPENING, ms) == s
  }

  lemma {:induction false} OneMoreMove(s: Site, ms: seq<Move>, m: Move)
    requires Proper(s, ms) && DatedMove(m) && Spares(GoAll(s, ms), m)
    ensures Proper(s, ms + [m]) && GoAll(s, ms + [m]) == Go(GoAll(s, ms), m)
    decreases |ms|
  {
    hide Go, DatedMove, Spares;
    if ms == [] {
      assert ms + [m] == [m] && [m][1..] == [];
      assert Proper(Go(s, m), []) && GoAll(Go(s, m), []) == Go(s, m);
    } else {
      assert (ms + [m])[1..] == ms[1..] + [m];
      OneMoreMove(Go(s, ms[0]), ms[1..], m);
    }
  }

  lemma ReachedNext(s: Site, m: Move)
    requires Reached(s) && DatedMove(m) && Spares(s, m)
    ensures Reached(Go(s, m))
  {
    hide Go, GoAll, Proper, DatedMove, Spares;
    var ms :| Proper(OPENING, ms) && GoAll(OPENING, ms) == s;
    OneMoreMove(OPENING, ms, m);
  }

  /** Reached with the replay kept, the card live on this rung with so many lapses. */
  ghost predicate At(s: Site, id: string, level: nat, lapses: nat) {
    && Reached(s) && SiteInv(s) && ReplayInv(s.world.db)
    && Live(s.world.db, id) && id in s.world.db.schedules
    && Level(s.world.db.schedules[id]) == level && s.world.db.schedules[id].lapses == lapses
  }

  /** Dates from today to the top of the ladder can be stored. */
  predicate Storable(today: string) {
    Parse(today).Some? && InRange(DayOf(today) + 180)
  }

  lemma NextStored(cur: Schedule, rating: Rating, today: string)
    requires Storable(today)
    ensures ToTimePtr(Next(cur, rating, today).nextReview).Ok?
  {
    hide Parse, AddDays, DayOf, InRange, ToTimePtr;
    Queue.EmptyDate();
    Queue.SmallerInRange(today);
    forall k | k in LADDER ensures ToTimePtr(AddDays(today, k)).Ok? { Queue.StoredDay(today, k); }
  }

  lemma OpeningReached()
    ensures Reached(OPENING)
  {
    assert Proper(OPENING, []) && GoAll(OPENING, []) == OPENING;
  }

  lemma CreateStored(id: string, card: Card, today: string)
    requires Storable(today)
    ensures var u := CreateCard(EMPTY, id, card, today).0;
            && Live(u, id) && id in u.schedules && Level(u.schedules[id]) == 0 && u.schedules[id].lapses == 0
  {
    NextStored(Schedule(id, 0, "", 0, Learning), Lupa, today);
    hide AddDays, ToTimePtr, Storable;
  }

  lemma Opens(id: string, card: Card, today: string) returns (s: Site)
    requires Storable(today)
    ensures At(s, id, 0, 0) && s.readings == map[]
  {
    var m := Other(Commit(TxCreateCard(id, card, today)));
    s := Go(OPENING, m);
    CreateStored(id, card, today);
    assert s.world.db == CreateCard(EMPTY, id, card, today).0 && s.readings == map[]
        && DatedMove(m) && Spares(OPENING, m) by {
      hide CreateCard, Parse, InRange;
    }
    hide CreateCard, Go, SiteInv, ReplayInv, Reached, Storable, DatedMove, Spares, Level;
    OpeningInv();
    OpeningReached();
    ReachedNext(OPENING, m);
    GoKeeps(OPENING, m);
    StartSound();
    CreateCardReplays(EMPTY, id, card, today);
  }

  lemma RateGoes(s: Site, id: string, rating: Rating, today: string)
    requires Live(s.world.db, id) && id in s.world.db.schedules && Storable(today)
    ensures var m := Other(Commit(TxRate(id, rating, today)));
            var t := s.world.db;
            && DatedMove(m) && Spares(s, m) && Go(s, m).readings == s.readings
            && Go(s, m).world.db == RateWrite(t, id, t.schedules[id], rating, today).0
            && RateWrite(t, id, t.schedules[id], rating, today).1 == Done
  {
    WritesNow(s.world.db, id, rating, today);
    hide RateWrite, Parse, InRange;
  }

  lemma Rates(s: Site, id: string, rating: Rating, today: string, level: nat, lapses: nat) returns (v: Site)
    requires At(s, id, level, lapses) && Storable(today)
    ensures v.readings == s.readings
    ensures if rating == Lupa then At(v, id, 0, lapses + 1)
            else At(v, id, if level > TOP then TOP + 1 else level + 1, lapses)
  {
    var m := Other(Commit(TxRate(id, rating, today)));
    v := Go(s, m);
    hide SiteInv, ReplayInv, Reached, Level, Storable, Go, DatedMove, Spares, RateWrite;
    RateGoes(s, id, rating, today);
    RatesSoundly(s, m);
    RatedRow(s, id, rating, today);
  }

  lemma RatesSoundly(s: Site, m: Move)
    requires Reached(s) && SiteInv(s) && ReplayInv(s.world.db) && DatedMove(m) && Spares(s, m)
    requires m.Other? && m.e.Commit? && m.e.tx.TxRate?
    ensures Reached(Go(s, m)) && SiteInv(Go(s, m)) && ReplayInv(Go(s, m).world.db)
  {
    GoRuns(s, m);
    hide Go, SiteInv, ReplayInv, Reached, Spares, Apply, DatedMove;
    ReachedNext(s, m);
    GoKeeps(s, m);
    ReplayPreserved(s.world.db, m.e.tx);
  }

  lemma RatedRow(s: Site, id: string, rating: Rating, today: string)
    requires SiteInv(s) && Live(s.world.db, id) && Storable(today)
    requires id in s.world.db.schedules
    requires RateWrite(s.world.db, id, s.world.db.schedules[id], rating, today).1 == Done
    ensures var t := s.world.db;
            var row, u := t.schedules[id], RateWrite(t, id, t.schedules[id], rating, today).0;
            && Live(u, id) && id in u.schedules
            && u.schedules[id].lapses == (if rating == Lupa then row.lapses + 1 else row.lapses)
            && Level(u.schedules[id]) ==
                 if rating == Lupa then 0 else if Level(row) > TOP then TOP + 1 else Level(row) + 1
  {
    var t := s.world.db;
    hide SiteInv, RateWrite, Placed, Level, Parse, InRange;
    SitePlaced(s, id);
    WrittenRung(t, id, t.schedules[id], rating, today);
    OnlyTheRow(t, id, t.schedules[id], rating, today);
  }

  lemma WritesNow(t: Tables, id: string, rating: Rating, today: string)
    requires id in t.schedules && Storable(today)
    ensures forall row :: RateWrite(t, id, row, rating, today).1 == Done
  {
    hide Next, IntervalDays, ToTimePtr, FromTimePtr, Storable;
    forall row ensures RateWrite(t, id, row, rating, today).1 == Done {
      NextStored(ToSchedule(id, row), rating, today);
    }
  }

  lemma {:induction false} Climbs(s: Site, id: string, today: string, level: nat, lapses: nat) returns (v: Site)
    requires At(s, id, level, lapses) && Storable(today) && level <= TOP + 1
    ensures v.readings == s.readings && At(v, id, TOP + 1, lapses)
    decreases TOP + 1 - level
  {
    hide At, Storable;
    if level == TOP + 1 {
      v := s;
    } else {
      v := Rates(s, id, Ingat, today, level, lapses);
      v := Climbs(v, id, today, level + 1, lapses);
    }
  }

  lemma Reads(s: Site, q: nat, id: string, level: nat, lapses: nat) returns (v: Site)
    requires At(s, id, level, lapses) && q !in s.readings
    ensures At(v, id, level, lapses) && id in s.world.db.schedules && v.world == s.world
    ensures v.readings == s.readings[q := Reading(id, s.world.db.schedules[id])]
  {
    var m := RateReads(q, id);
    v := Go(s, m);
    hide SiteInv, ReplayInv, Reached, Level;
    ReachedNext(s, m);
    GoKeeps(s, m);
  }

  /** Two readings of a mastered card, a lapse apart, the later one current. */
  ghost predicate TwoReadings(s: Site, id: string, lapses: nat) {
    && 1 in s.readings && 2 in s.readings && s.readings[1].id == id && s.readings[2].id == id
    && s.readings[1].row.lapses == lapses && Level(s.readings[1].row) == TOP + 1
    && id in s.world.db.schedules && s.readings[2].row == s.world.db.schedules[id]
  }

  /** Remembering from both: each write goes through and finds other lapses. */
  lemma BothWrite(s: Site, id: string, today: string, lapses: nat)
    requires TwoReadings(s, id, lapses) && s.readings[2].row.lapses == lapses + 1 && Storable(today)
    ensures var t, r, cur := s.world.db, s.readings[1].row, s.readings[2].row;
            var a := Go(s, RateWrites(1, Ingat, today));
            var (u, out) := RateWrite(t, id, r, Ingat, today);
            && out == Done && a.world.db == u && RateWrite(u, id, cur, Ingat, today).1 == Done
            && Go(a, RateWrites(2, Ingat, today)).world.db == RateWrite(u, id, cur, Ingat, today).0
            && !FindsRow(s, RateWrites(1, Ingat, today), id) && !FindsRow(a, RateWrites(2, Ingat, today), id)
  {
    var t, r := s.world.db, s.readings[1].row;
    var a := Go(s, RateWrites(1, Ingat, today));
    WritesNow(t, id, Ingat, today);
    WriteStores(t, id, r, Ingat, today);
    LapsesAfter(ToSchedule(id, r), Ingat, today);
    WritesNow(RateWrite(t, id, r, Ingat, today).0, id, Ingat, today);
    hide RateWrite, Next, IntervalDays, Level, Storable;
    assert a.world.db == RateWrite(t, id, r, Ingat, today).0 && 2 in a.readings && a.readings[2] == s.readings[2];
    FindsOther(s, 1, id, today);
    FindsOther(a, 2, id, today);
  }

  lemma FindsOther(s: Site, q: nat, id: string, today: string)
    requires q in s.readings && s.readings[q].id == id && id in s.world.db.schedules
    requires RateWrite(s.world.db, id, s.readings[q].row, Ingat, today).1 == Done
    requires s.readings[q].row.lapses != s.world.db.schedules[id].lapses
    ensures !FindsRow(s, RateWrites(q, Ingat, today), id)
    ensures Go(s, RateWrites(q, Ingat, today)).world.db == RateWrite(s.world.db, id, s.readings[q].row, Ingat, today).0
  {
    hide RateWrite, Level;
  }

  ghost predicate BreaksAndMends(s: Site, m: Move, n: Move, id: string) {
    && ReplayInv(s.world.db) && !ReplayInv(Go(s, m).world.db) && ReplayInv(Go(Go(s, m), n).world.db)
    && !FindsRow(s, m, id) && !FindsRow(Go(s, m), n, id)
  }

  lemma LostThenFound(s: Site, id: string, today: string, lapses: nat)
    requires At(s, id, TOP + 1, lapses + 1) && TwoReadings(s, id, lapses) && Storable(today)
    ensures BreaksAndMends(s, RateWrites(1, Ingat, today), RateWrites(2, Ingat, today), id)
  {
    var t := s.world.db;
    var r, cur := s.readings[1].row, t.schedules[id];
    BothWrite(s, id, today, lapses);
    assert Parse(today).Some?;
    BothPlaced(s, id);
    hide Go, RateWrite, Placed, Level, Storable, ReplayInv, SiteInv, Reached, Parse, FindsRow;
    WriteKeepsReplayIff(t, id, r, Ingat, today);
    TwiceMastered(t, id, r, cur, today);
  }

  lemma BothPlaced(s: Site, id: string)
    requires SiteInv(s) && id in s.world.db.cards && 1 in s.readings
    ensures Placed(s.readings[1].row) && id in s.world.db.schedules && Placed(s.world.db.schedules[id])
  {
    hide Sound, Placed, Agreement.DatesStored, PlanSound;
  }

  lemma TwiceMastered(t: Tables, id: string, r: ScheduleRow, cur: ScheduleRow, today: string)
    requires ReplayInv(t) && id in t.cards && id in t.schedules && cur == t.schedules[id] && Placed(r) && Placed(cur)
    requires Level(r) == TOP + 1 && Level(cur) == TOP + 1 && Parse(today).Some?
    requires RateWrite(t, id, r, Ingat, today).1 == Done
    requires RateWrite(RateWrite(t, id, r, Ingat, today).0, id, cur, Ingat, today).1 == Done
    ensures ReplayInv(RateWrite(RateWrite(t, id, r, Ingat, today).0, id, cur, Ingat, today).0)
  {
    var k := cur.lapses;
    var u := RateWrite(t, id, r, Ingat, today).0;
    var v := RateWrite(u, id, cur, Ingat, today).0;
    WrittenRung(t, id, r, Ingat, today);
    OnlyTheRow(t, id, r, Ingat, today);
    assert CardReplays(t, id) by { hide Replays, LogsSound; }
    hide RateWrite, Placed, Level, ReplayInv, Replays, Parse, OnTrack;
    ReplayIsOnTrack(t, id);
    WriteFollows(t, id, r, Ingat, today, k);
    WriteFollows(u, id, cur, Ingat, today, k);
    OnTrackReplays(v, id, k);
    WriteKeepsOthers(t, id, r, Ingat, today);
    WriteKeepsOthers(u, id, cur, Ingat, today);
    AllReplay(v, id);
  }

  /** All cards but one replay. */
  predicate OthersKeep(t: Tables, id: string) {
    && t.schedules.Keys == t.cards.Keys && LogsSound(t) && id in t.cards
    && forall x :: x in t.cards && x != id ==> Replays(x, t.cards[x].captured, t.schedules[x], t.logs)
  }

  lemma WriteKeepsLogs(t: Tables, id: string, read: ScheduleRow, rating: Rating, today: string)
    requires LogsSound(t) && id in t.cards
    ensures LogsSound(RateWrite(t, id, read, rating, today).0)
  {
    hide Next, IntervalDays, ToTimePtr, FromTimePtr;
  }

  lemma WriteKeepsOthers(t: Tables, id: string, read: ScheduleRow, rating: Rating, today: string)
    requires OthersKeep(t, id)
    ensures OthersKeep(RateWrite(t, id, read, rating, today).0, id)
  {
    var u := RateWrite(t, id, read, rating, today).0;
    WriteKeepsLogs(t, id, read, rating, today);
    OnlyTheRow(t, id, read, rating, today);
    hide RateWrite, Replays, LogsSound, History;
    forall x | x in u.cards && x != id ensures Replays(x, u.cards[x].captured, u.schedules[x], u.logs) {
      WriteLeavesHistory(t, id, read, rating, today, x);
      SameHistoryReplays(x, t.cards[x].captured, t.schedules[x], t.logs, u.logs);
    }
  }

  lemma AllReplay(t: Tables, id: string)
    requires OthersKeep(t, id) && CardReplays(t, id)
    ensures ReplayInv(t)
  {
    hide Replays, LogsSound;
  }

  /** A reachable state in agreement with its log, a rating that breaks the
      agreement, and one that brings it back, though neither finds the row it
      had read. */
  lemma AgreementComesBack(id: string, card: Card, today: string)
    requires Storable(today)
    ensures exists s, m, n :: Reached(s) && DatedMove(m) && DatedMove(n) && BreaksAndMends(s, m, n, id)
  {
    hide *;
    var s := LapseApart(id, card, today);
    AtReached(s, id);
    DatedWrites(today);
    LostThenFound(s, id, today, 0);
  }

  lemma AtReached(s: Site, id: string)
    requires At(s, id, TOP + 1, 1)
    ensures Reached(s)
  {
    hide Reached, SiteInv, ReplayInv;
  }

  lemma DatedWrites(today: string)
    requires Storable(today)
    ensures forall q :: DatedMove(RateWrites(q, Ingat, today))
  {
    hide Parse, InRange;
  }

  lemma LapseApart(id: string, card: Card, today: string) returns (s: Site)
    requires Storable(today)
    ensures At(s, id, TOP + 1, 1) && TwoReadings(s, id, 0)
  {
    hide SiteInv, ReplayInv, Reached, Storable, Level;
    s := Opens(id, card, today);
    s := Climbs(s, id, today, 0, 0);
    s := Reads(s, 1, id, TOP + 1, 0);
    s := Rates(s, id, Lupa, today, TOP + 1, 0);
    s := Climbs(s, id, today, 0, 1);
    s := Reads(s, 2, id, TOP + 1, 1);
  }
}
