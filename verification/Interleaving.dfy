/** Ratings and starts in flight too: each reads, others commit, and it writes.
    What every interleaving of them keeps. */
module Interleaving {
  import opened Calendar
  import opened Srs
  import opened Choices
  import opened Store
  import opened ReplayInvariant
  import opened RunInvariant
  import opened Protocol
  import opened Races
  import Agreement

  /** A row a rating request has read. */
  datatype Reading = Reading(id: string, row: ScheduleRow)

  /** What a start request has drawn. */
  datatype Plan = Plan(setId: string, draw: seq<string>, asked: map<string, Choice>)

  datatype Site = Site(world: World, readings: map<nat, Reading>, plans: map<nat, Plan>)

  datatype Move =
    | Other(e: Event)
    | RateReads(req: nat, id: string)
    | RateWrites(req: nat, rating: Rating, today: string)
    | StartLooks(req: nat, setId: string, draw: seq<string>, asked: map<string, Choice>)
    | StartInserts(req: nat, runId: string, runDate: string)

  ghost function Go(s: Site, m: Move): Site {
    var t := s.world.db;
    match m
    case Other(e) => s.(world := Step(s.world, e))
    case RateReads(req, id) =>
      if req in s.readings || !Live(t, id) || id !in t.schedules then s
      else s.(readings := s.readings[req := Reading(id, t.schedules[id])])
    case RateWrites(req, rating, today) =>
      if req !in s.readings then s
      else
        var r := s.readings[req];
        s.(world := s.world.(db := RateWrite(t, r.id, r.row, rating, today).0), readings := s.readings - {req})
    case StartLooks(req, setId, draw, asked) =>
      if req in s.plans || !Planned(t, setId, draw, asked) then s
      else s.(plans := s.plans[req := Plan(setId, draw, asked)])
    case StartInserts(req, runId, runDate) =>
      if req !in s.plans then s
      else
        var p := s.plans[req];
        s.(world := s.world.(db := StartWrite(t, p.setId, runId, p.draw, p.asked, runDate).0), plans := s.plans - {req})
  }

  ghost function GoAll(s: Site, ms: seq<Move>): Site
    decreases |ms|
  {
    if ms == [] then s else GoAll(Go(s, ms[0]), ms[1..])
  }

  const OPENING := Site(START, map[], map[])

  // ----- what is kept -------------------------------------------------------

  predicate PlanSound(t: Tables, p: Plan) {
    && SnapshotSound(Snapshot(p.draw, p.asked))
    && forall i :: 0 <= i < |p.draw| ==> Snapshot(p.draw, p.asked)[i].card == p.draw[i] && p.draw[i] in t.cards
  }

  ghost predicate SiteInv(s: Site) {
    && Sound(s.world)
    && AllPlaced(s.world.db)
    && Agreement.DatesStored(s.world.db)
    && (forall q :: q in s.readings ==> Placed(s.readings[q].row))
    && (forall q :: q in s.plans ==> PlanSound(s.world.db, s.plans[q]))
  }

  /** Today is a real date wherever it is used. */
  predicate DatedMove(m: Move) {
    match m
    case Other(e) => e.Commit? ==> Dated(e.tx)
    case RateWrites(_, _, today) => Parse(today).Some?
    case _ => true
  }

  /** No purge takes a card a start has drawn and not yet inserted: the trash
      is kept far longer than a request lasts. */
  predicate Spares(s: Site, m: Move) {
    m.Other? && m.e.Commit? && m.e.tx.TxPurge? ==>
      forall q, i :: q in s.plans && 0 <= i < |s.plans[q].draw| ==>
        !Purgeable(s.world.db, s.plans[q].draw[i], m.e.tx.cutoff)
  }

  ghost predicate Proper(s: Site, ms: seq<Move>)
    decreases |ms|
  {
    ms != [] ==> DatedMove(ms[0]) && Spares(s, ms[0]) && Proper(Go(s, ms[0]), ms[1..])
  }

  lemma OpeningInv()
    ensures SiteInv(OPENING)
  {
    StartSound();
    hide Sound;
    assert WorldInv(START);
  }

  // ----- one move -----------------------------------------------------------

  /** The transaction a move runs on the tables, as one relation. */
  ghost predicate Runs(s: Site, m: Move, t: Tables, u: Tables) {
    match m
    case Other(e) => u == if TxOf(s.world, e).Some? then Apply(t, TxOf(s.world, e).value).0 else t
    case RateWrites(req, rating, today) =>
      u == if req in s.readings then RateWrite(t, s.readings[req].id, s.readings[req].row, rating, today).0 else t
    case StartInserts(req, runId, runDate) =>
      u == if req in s.plans then
             StartWrite(t, s.plans[req].setId, runId, s.plans[req].draw, s.plans[req].asked, runDate).0
           else t
    case _ => u == t
  }

  lemma GoRuns(s: Site, m: Move)
    ensures Runs(s, m, s.world.db, Go(s, m).world.db)
  {
    hide Step, Apply, RateWrite, StartWrite, Planned, TxOf;
    if m.Other? { StepRunsTx(s.world, m.e); }
  }

  /** Cards leave only by a purge that may take them. */
  lemma CardsStay(t: Tables, tx: Tx, id: string)
    requires id in t.cards && !(tx.TxPurge? && Purgeable(t, id, tx.cutoff))
    ensures id in Apply(t, tx).0.cards
  {
    hide NewSchedule, ToTimePtr, FromTimePtr, AskedOk, DrawOk, Detach, Snapshot, CountCorrect, Without, Answered,
         IsOpen, Purgeable, RateWrite, StartWrite;
    if tx.TxRate? { RateMovesOne(t, tx.id, tx.rating, tx.today); }
    if tx.TxStartRun? { SetsAndRunsKeepCards(t, tx); }
  }

  lemma RateWriteIsLater(t: Tables, id: string, read: ScheduleRow, rating: Rating, today: string)
    ensures Later(t, RateWrite(t, id, read, rating, today).0)
  {
    hide Next, IntervalDays, ToTimePtr, FromTimePtr;
  }

  lemma RateWriteStores(t: Tables, id: string, read: ScheduleRow, rating: Rating, today: string)
    requires AllPlaced(t) && Agreement.DatesStored(t) && Placed(read) && Parse(today).Some?
    ensures var u := RateWrite(t, id, read, rating, today).0;
            AllPlaced(u) && Agreement.DatesStored(u)
  {
    OnlyTheRow(t, id, read, rating, today);
    if RateWrite(t, id, read, rating, today).1 == Done {
      WrittenRung(t, id, read, rating, today);
      WrittenInRange(t, id, read, rating, today);
    }
    hide RateWrite, Parse, Placed, InRange;
  }

  lemma WrittenInRange(t: Tables, id: string, read: ScheduleRow, rating: Rating, today: string)
    requires RateWrite(t, id, read, rating, today).1 == Done
    ensures var u := RateWrite(t, id, read, rating, today).0;
            id in u.schedules && (u.schedules[id].nextReview.Some? ==> InRange(u.schedules[id].nextReview.value))
  {
    hide Next, IntervalDays, FromTimePtr, InRange, ToTimePtr;
  }

  lemma TxStores(t: Tables, tx: Tx)
    requires AllPlaced(t) && Agreement.DatesStored(t) && Dated(tx)
    ensures AllPlaced(Apply(t, tx).0) && Agreement.DatesStored(Apply(t, tx).0)
  {
    hide Apply, AllPlaced, Agreement.DatesStored, Dated;
    StaysPlaced(t, tx);
    Agreement.DatesStayStored(t, tx);
  }

  /** The tables of requests and runs are sound after any move. */
  lemma GoKeepsSound(s: Site, m: Move)
    requires SiteInv(s)
    ensures Sound(Go(s, m).world) && Later(s.world.db, Go(s, m).world.db)
  {
    var t := s.world.db;
    match m
    case Other(e) =>
      hide Sound, Step, Later;
      StepKeepsSound(s.world, e);
    case RateWrites(req, rating, today) =>
      hide RunInv, RateWrite, Later, RequestSound, Placed;
      LaterRefl(t);
      if req in s.readings {
        var r := s.readings[req];
        RateWriteKeepsRuns(t, r.id, r.row, rating, today);
        RateWriteIsLater(t, r.id, r.row, rating, today);
        RequestsStay(s.world, RateWrite(t, r.id, r.row, rating, today).0);
      }
    case StartInserts(req, runId, runDate) =>
      hide RunInv, StartWrite, Later, RequestSound, PlanSound;
      LaterRefl(t);
      if req in s.plans {
        var p := s.plans[req];
        PlanInserts(t, p, runId, runDate);
        RequestsStay(s.world, StartWrite(t, p.setId, runId, p.draw, p.asked, runDate).0);
      }
    case _ =>
      hide Sound, Later, Planned;
      LaterRefl(t);
  }

  lemma RequestsStay(w: World, u: Tables)
    requires Sound(w) && Later(w.db, u) && RunInv(u)
    ensures Sound(w.(db := u))
  {
    assert RunsSound(w.db) by { hide RequestSound, RunsSound, OneOpenRun, QuestionsNameCards, LogsAnswer, SetsSound; }
    hide RunInv, Later, RequestSound, RunsSound;
    forall q | q in w.requests ensures RequestSound(u, w.requests[q]) { RequestStaysSound(w.db, u, w.requests[q]); }
  }

  lemma PlanInserts(t: Tables, p: Plan, runId: string, runDate: string)
    requires RunInv(t) && PlanSound(t, p)
    ensures var u := StartWrite(t, p.setId, runId, p.draw, p.asked, runDate).0; RunInv(u) && Later(t, u)
  {
    var (u, out) := StartWrite(t, p.setId, runId, p.draw, p.asked, runDate);
    assert RunsSound(t) by { hide RunsSound, OneOpenRun, QuestionsNameCards, LogsAnswer, SetsSound; }
    hide RunInv, SnapshotSound, RunsSound;
    StartWriteIsLater(t, p.setId, runId, p.draw, p.asked, runDate);
    if out == Done { RunAdded(t, u, p.setId, runId, runDate, Snapshot(p.draw, p.asked)); }
  }

  lemma GoKeepsStored(s: Site, m: Move)
    requires SiteInv(s) && DatedMove(m)
    ensures AllPlaced(Go(s, m).world.db) && Agreement.DatesStored(Go(s, m).world.db)
  {
    GoRuns(s, m);
    var t := s.world.db;
    hide Go, Sound, AllPlaced, Agreement.DatesStored, PlanSound, Apply, RateWrite;
    match m
    case Other(e) => if TxOf(s.world, e).Some? { TxStores(t, TxOf(s.world, e).value); }
    case RateWrites(req, rating, today) =>
      if req in s.readings { RateWriteStores(t, s.readings[req].id, s.readings[req].row, rating, today); }
    case StartInserts(req, runId, runDate) =>
      if req in s.plans {
        var p := s.plans[req];
        StartWriteOnlyRuns(t, p.setId, runId, p.draw, p.asked, runDate);
        SameStored(t, StartWrite(t, p.setId, runId, p.draw, p.asked, runDate).0);
      }
    case _ =>
  }

  lemma StartWriteOnlyRuns(t: Tables, setId: string, runId: string, draw: seq<string>, asked: map<string, Choice>,
                           runDate: string)
    ensures var u := StartWrite(t, setId, runId, draw, asked, runDate).0;
            u.cards == t.cards && u.schedules == t.schedules && u.logs == t.logs && u.sets == t.sets
  {
    hide Snapshot, IsOpen;
  }

  lemma SameStored(t: Tables, u: Tables)
    requires AllPlaced(t) && Agreement.DatesStored(t) && u.cards == t.cards && u.schedules == t.schedules
    ensures AllPlaced(u) && Agreement.DatesStored(u)
  {
  }

  lemma GoKeepsCards(s: Site, m: Move, id: string)
    requires id in s.world.db.cards
    requires m.Other? && m.e.Commit? && m.e.tx.TxPurge? ==> !Purgeable(s.world.db, id, m.e.tx.cutoff)
    ensures id in Go(s, m).world.db.cards
  {
    GoRuns(s, m);
    var t := s.world.db;
    hide Go, Apply, RateWrite, StartWrite, Purgeable;
    match m
    case Other(e) => if TxOf(s.world, e).Some? { CardsStay(t, TxOf(s.world, e).value, id); }
    case RateWrites(req, rating, today) =>
      if req in s.readings { OnlyTheRow(t, s.readings[req].id, s.readings[req].row, rating, today); }
    case StartInserts(req, runId, runDate) =>
      if req in s.plans {
        StartWriteOnlyRuns(t, s.plans[req].setId, runId, s.plans[req].draw, s.plans[req].asked, runDate);
      }
    case _ =>
  }

  lemma OnlyTheRow(t: Tables, id: string, read: ScheduleRow, rating: Rating, today: string)
    ensures var (u, out) := RateWrite(t, id, read, rating, today);
            && u.cards == t.cards && u.schedules.Keys == t.schedules.Keys
            && (out != Done ==> u == t)
            && forall y :: y != id && y in t.schedules ==> y in u.schedules && u.schedules[y] == t.schedules[y]
  {
    hide Next, IntervalDays, ToTimePtr, FromTimePtr;
  }

  /** Every move keeps it all. */
  lemma GoKeeps(s: Site, m: Move)
    requires SiteInv(s) && DatedMove(m) && Spares(s, m)
    ensures SiteInv(Go(s, m)) && Later(s.world.db, Go(s, m).world.db)
  {
    GoKeepsSound(s, m);
    GoKeepsStored(s, m);
    var v := Go(s, m);
    forall q | q in v.readings ensures Placed(v.readings[q].row) { ReadingPlaced(s, m, q); }
    forall q | q in v.plans ensures PlanSound(v.world.db, v.plans[q]) { PlanStays(s, m, q); }
    hide Go, Sound, Later, AllPlaced, Agreement.DatesStored, Placed, PlanSound;
  }

  lemma ReadingPlaced(s: Site, m: Move, q: nat)
    requires SiteInv(s) && q in Go(s, m).readings
    ensures Placed(Go(s, m).readings[q].row)
  {
    hide Sound, Agreement.DatesStored, PlanSound, Step, RateWrite, StartWrite, Planned, Placed;
  }

  lemma PlanStays(s: Site, m: Move, q: nat)
    requires SiteInv(s) && Spares(s, m) && q in Go(s, m).plans
    ensures PlanSound(Go(s, m).world.db, Go(s, m).plans[q])
  {
    if q in s.plans {
      var p := s.plans[q];
      assert PlanSound(s.world.db, p);
      SamePlan(s, m, q);
      forall i | 0 <= i < |p.draw| ensures p.draw[i] in Go(s, m).world.db.cards {
        hide Go, SiteInv, Purgeable, SnapshotSound;
        GoKeepsCards(s, m, p.draw[i]);
      }
      hide Go, SiteInv, SnapshotSound;
    } else {
      NewPlan(s, m, q);
    }
  }

  lemma SamePlan(s: Site, m: Move, q: nat)
    requires q in s.plans && q in Go(s, m).plans
    ensures Go(s, m).plans[q] == s.plans[q]
  {
    hide Step, RateWrite, StartWrite, Planned;
  }

  lemma NewPlan(s: Site, m: Move, q: nat)
    requires SiteInv(s) && q !in s.plans && q in Go(s, m).plans
    ensures PlanSound(Go(s, m).world.db, Go(s, m).plans[q])
  {
    hide Step, RateWrite, StartWrite, Planned, AllPlaced, Agreement.DatesStored, PlanSound, RequestSound, RunInv;
    assert m.StartLooks? && Planned(s.world.db, m.setId, m.draw, m.asked);
    DrawnIsPlan(s.world.db, m.setId, m.draw, m.asked);
  }

  lemma DrawnIsPlan(t: Tables, setId: string, draw: seq<string>, asked: map<string, Choice>)
    requires RunInv(t) && Planned(t, setId, draw, asked)
    ensures PlanSound(t, Plan(setId, draw, asked))
  {
    hide RunInv, Planned, SnapshotSound;
    PlanIsSound(t, setId, draw, asked);
  }

  lemma {:induction false} EverySite(s: Site, ms: seq<Move>)
    requires SiteInv(s) && Proper(s, ms)
    ensures SiteInv(GoAll(s, ms)) && Later(s.world.db, GoAll(s, ms).world.db)
    decreases |ms|
  {
    hide Go, SiteInv, Later;
    if ms == [] {
      LaterRefl(s.world.db);
    } else {
      var v := Go(s, ms[0]);
      GoKeeps(s, ms[0]);
      EverySite(v, ms[1..]);
      SiteRunsSound(s);
      SiteRunsSound(v);
      LaterTrans(s.world.db, v.world.db, GoAll(s, ms).world.db);
    }
  }

  lemma SiteRunsSound(s: Site)
    requires SiteInv(s)
    ensures RunsSound(s.world.db) && RunInv(s.world.db)
  {
    hide RunsSound, OneOpenRun, QuestionsNameCards, LogsAnswer, SetsSound, RequestSound, AllPlaced,
         Agreement.DatesStored, PlanSound, Placed;
  }

  /** With ratings and starts overtaken freely, still: no two open runs of a
      set; 0 <= correct <= total = questions asked, at least one, once finished;
      every question and every log names a card; one answer per run and card;
      every card has a schedule, on a rung, with a date that can be stored. */
  lemma EveryReachableSite(ms: seq<Move>)
    requires Proper(OPENING, ms)
    ensures var t := GoAll(OPENING, ms).world.db;
            && (forall r, x, setId :: IsOpen(t, r, setId) && IsOpen(t, x, setId) ==> r == x)
            && (forall r :: r in t.runs ==> r in t.questions && t.questions[r] != [])
            && (forall r :: r in t.runs && t.runs[r].finishedAt.Some? ==>
                  t.runs[r].correct <= t.runs[r].total && t.runs[r].total == |t.questions[r]|)
            && (forall r, i :: r in t.questions && 0 <= i < |t.questions[r]| ==> t.questions[r][i].card in t.cards)
            && (forall i :: 0 <= i < |t.logs| ==> LogSound(t, t.logs[i]))
            && AnsweredOnce(t.logs)
            && AllPlaced(t) && Agreement.DatesStored(t)
  {
    OpeningInv();
    EverySite(OPENING, ms);
    hide GoAll, Proper, Later, LogSound, AnsweredOnce, AllPlaced, Agreement.DatesStored, PlanSound, Placed,
         RequestSound;
  }
}
