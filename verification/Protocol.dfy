/** Requests in flight over the tables. Answering reads the run, then the
    question, then the schedule, then inserts, each in its own transaction;
    finishing reads, then updates. Any other transaction may come between. */
module Protocol {
  import opened Text
  import opened Sequences
  import opened Srs
  import opened Choices
  import opened Store
  import opened RunInvariant
  import opened ReplayInvariant

  // ----- what never goes back -----------------------------------------------

  predicate LogsKept(a: seq<Log>, b: seq<Log>) {
    |a| <= |b| && forall i :: 0 <= i < |a| ==> b[i] == a[i] || b[i] == a[i].(run := None)
  }

  /** `u` can come after `t`: no log is gone (at most its run id is), no
      discarded run is back, and a run that is still there has the same
      questions, order, options and answer key, and its score if it had one. */
  predicate Later(t: Tables, u: Tables) {
    && LogsKept(t.logs, u.logs)
    && t.issued <= u.issued
    && (forall r :: r in u.runs && r in t.issued ==> r in t.runs)
    && (forall r :: r in u.runs && r in t.runs && r in t.questions ==>
          && r in u.questions && u.questions[r] == t.questions[r]
          && u.runs[r].setId == t.runs[r].setId && u.runs[r].runDate == t.runs[r].runDate
          && (t.runs[r].finishedAt.Some? ==> u.runs[r] == t.runs[r]))
  }

  lemma StepIsLater(t: Tables, tx: Tx)
    requires RunsSound(t)
    ensures Later(t, Apply(t, tx).0)
  {
    hide SnapshotSound, ScoreSound, Later, StartRun, FinishRun, DiscardRun, CreateCard, UpdateCard, DeleteCards,
         RestoreCards, PurgeCards, Rate, SaveSet, DeleteSet, InsertAnswer;
    match tx {
      case TxStartRun(setId, runId, draw, asked, runDate) => StartIsLater(t, setId, runId, draw, asked, runDate);
      case TxFinishRun(run, now) => FinishIsLater(t, run, now);
      case TxDiscardRun(run) => DiscardIsLater(t, run);
      case _ => UntouchedIsLater(t, tx);
    }
  }

  lemma UntouchedIsLater(t: Tables, tx: Tx)
    requires RunsSound(t) && !tx.TxStartRun? && !tx.TxFinishRun? && !tx.TxDiscardRun?
    ensures Later(t, Apply(t, tx).0)
  {
    RunsUntouched(t, tx);
    hide Apply, SnapshotSound, ScoreSound;
  }

  lemma FinishIsLater(t: Tables, run: string, now: int)
    requires RunsSound(t)
    ensures Later(t, FinishRun(t, run, now).0)
  {
    hide CountCorrect, SnapshotSound, ScoreSound;
  }

  lemma DiscardIsLater(t: Tables, run: string)
    requires RunsSound(t)
    ensures Later(t, DiscardRun(t, run).0)
  {
    hide SnapshotSound, ScoreSound;
  }

  lemma StartIsLater(t: Tables, setId: string, runId: string, draw: seq<string>, asked: map<string, Choice>,
              runDate: string)
    requires RunsSound(t)
    ensures Later(t, StartRun(t, setId, runId, draw, asked, runDate).0)
  {
    hide AskedOk, DrawOk, StartWrite, Later;
    LaterRefl(t);
    StartWriteIsLater(t, setId, runId, draw, asked, runDate);
  }

  lemma StartWriteIsLater(t: Tables, setId: string, runId: string, draw: seq<string>, asked: map<string, Choice>,
                          runDate: string)
    requires RunsSound(t)
    ensures Later(t, StartWrite(t, setId, runId, draw, asked, runDate).0)
  {
    hide Snapshot, IsOpen, SnapshotSound, ScoreSound;
    var u := StartWrite(t, setId, runId, draw, asked, runDate).0;
    if u == t {
      hide StartWrite, Later;
      LaterRefl(t);
    } else {
      assert u == t.(runs := t.runs[runId := Run(setId, runDate, None, 0, 0)],
                     questions := t.questions[runId := Snapshot(draw, asked)],
                     issued := t.issued + {runId}) && runId !in t.issued;
      hide StartWrite;
    }
  }

  lemma RunsUntouched(t: Tables, tx: Tx)
    requires !tx.TxStartRun? && !tx.TxFinishRun? && !tx.TxDiscardRun?
    ensures var u := Apply(t, tx).0;
            u.runs == t.runs && u.questions == t.questions && u.issued == t.issued && t.logs <= u.logs
  {
    hide Next, NewSchedule, Calendar.ToTimePtr, Calendar.FromTimePtr, IntervalDays, Answered, Without, Distinct, Live,
         StartRun, FinishRun, DiscardRun, Purgeable;
  }

  lemma LaterTrans(t: Tables, u: Tables, v: Tables)
    requires RunsSound(t) && RunsSound(u) && Later(t, u) && Later(u, v)
    ensures Later(t, v)
  {
    hide SnapshotSound, ScoreSound;
  }

  // ----- requests -----------------------------------------------------------

  /** The rating as sent, if it is one of the two words; the option picked. */
  datatype Body = Body(rating: Option<Rating>, choice: Option<int>)

  datatype Reply =
    | NotFound
    | Conflict
    | BadRequest
    | Internal
    | AnswerReply(rating: Rating, back: Option<string>, correctIndex: Option<nat>)
    | RunReply(run: Run)

  datatype Request =
    | AnswerOpen(runId: string, cardId: string, body: Body)
    | AnswerGraded(runId: string, cardId: string, rating: Rating, format: Format, reply: Reply)
    | AnswerTimed(runId: string, cardId: string, rating: Rating, format: Format, reply: Reply, interval: nat)
    | FinishSeen(runId: string, seen: Run)
    | Replied(reply: Reply)

  datatype World = World(db: Tables, requests: map<nat, Request>)

  datatype Event =
    | Commit(tx: Tx)
    | AnswerArrives(req: nat, runId: string, cardId: string, body: Body)
    | AnswerReadsQuestion(req: nat)
    | AnswerReadsSchedule(req: nat)
    | AnswerInserts(req: nat, day: string)
    | FinishArrives(req: nat, runId: string)
    | FinishCommits(req: nat, now: int)

  function FindQuestion(qs: seq<Question>, card: string): (q: Option<Question>)
    ensures q.Some? <==> Asks(qs, card)
    ensures q.Some? ==> q.value in qs && q.value.card == card
  {
    if qs == [] then None
    else if qs[0].card == card then assert Asks(qs, card); Some(qs[0])
    else
      var r := FindQuestion(qs[1..], card);
      assert Asks(qs, card) <==> Asks(qs[1..], card) by {
        if Asks(qs, card) { var i :| 0 <= i < |qs| && qs[i].card == card; assert qs[1..][i - 1].card == card; }
        if Asks(qs[1..], card) {
          var i :| 0 <= i < |qs[1..]| && qs[1..][i].card == card;
          assert qs[i + 1].card == card;
        }
      }
      r
  }

  /** The question decides which body is needed; None is a bad request. */
  function Grade(q: Question, body: Body): Option<Rating> {
    match q.choice
    case None => body.rating
    case Some(c) =>
      if body.choice.None? || body.choice.value < 0 || body.choice.value >= |c.options| then None
      else if body.choice.value == c.correctIndex then Some(Ingat)
      else Some(Lupa)
  }

  function AnswerReplyFor(t: Tables, q: Question, rating: Rating): Reply {
    match q.choice
    case None => AnswerReply(rating, None, None)
    case Some(c) => AnswerReply(rating, if q.card in t.cards then Some(t.cards[q.card].back)
        else None, Some(c.correctIndex))
  }

  function CurrentInterval(t: Tables, card: string): nat {
    if Live(t, card) && card in t.schedules then IntervalDays(ToSchedule(card, t.schedules[card])) else 0
  }

  ghost function Step(w: World, e: Event): World {
    var t := w.db;
    match e
    case Commit(tx) =>
      if tx.TxInsertAnswer? || tx.TxFinishRun? then w else w.(db := Apply(t, tx).0)
    case AnswerArrives(req, run, card, body) =>
      if req in w.requests then w
      else w.(requests := w.requests[req :=
                if run !in t.runs then Replied(NotFound)
                else if t.runs[run].finishedAt.Some? then Replied(Conflict)
                else AnswerOpen(run, card, body)])
    case AnswerReadsQuestion(req) =>
      if req !in w.requests || !w.requests[req].AnswerOpen? then w
      else
        var a := w.requests[req];
        var found := if a.runId in t.questions then FindQuestion(t.questions[a.runId], a.cardId) else None;
        w.(requests := w.requests[req :=
             if found.None? then Replied(NotFound)
             else match Grade(found.value, a.body)
               case None => Replied(BadRequest)
               case Some(rating) =>
                 AnswerGraded(a.runId, a.cardId, rating, if found.value.choice.Some? then MultipleChoice else Recall,
                              AnswerReplyFor(t, found.value, rating))])
    case AnswerReadsSchedule(req) =>
      if req !in w.requests || !w.requests[req].AnswerGraded? then w
      else
        var a := w.requests[req];
        w.(requests := w.requests[req := AnswerTimed(a.runId, a.cardId, a.rating, a.format, a.reply,
            CurrentInterval(t, a.cardId))])
    case AnswerInserts(req, day) =>
      if req !in w.requests || !w.requests[req].AnswerTimed? then w
      else
        var a := w.requests[req];
        var (u, out) := InsertAnswer(t, a.runId, a.cardId, a.rating, a.interval, a.format, day);
        World(u, w.requests[req := Replied(if out == Refused then Internal else a.reply)])
    case FinishArrives(req, run) =>
      if req in w.requests then w
      else w.(requests := w.requests[req := if run !in t.runs then Replied(NotFound) else FinishSeen(run, t.runs[run])])
    case FinishCommits(req, now) =>
      if req !in w.requests || !w.requests[req].FinishSeen? then w
      else
        var f := w.requests[req];
        var (u, out) := FinishRun(t, f.runId, now);
        World(u, w.requests[req := Replied(
          if out == Refused then Internal
          else if out == Missing || f.runId !in u.runs then RunReply(f.seen)
          else RunReply(u.runs[f.runId]))])
  }

  ghost function Exec(w: World, es: seq<Event>): World
    decreases |es|
  {
    if es == [] then w else Exec(Step(w, es[0]), es[1..])
  }

  // ----- the invariant of the whole -----------------------------------------

  /** What a pending request still knows: its run was issued, and while that
      run exists it asks the card; a score it saw is the score. */
  predicate RequestSound(t: Tables, r: Request) {
    match r
    case AnswerGraded(run, card, _, _, _) => run in t.issued
        && (run in t.runs ==> run in t.questions && Asks(t.questions[run], card))
    case AnswerTimed(run, card, _, _, _, _) => run in t.issued
        && (run in t.runs ==> run in t.questions && Asks(t.questions[run], card))
    case AnswerOpen(run, _, _) => run in t.issued
    case FinishSeen(run, seen) => run in t.issued && (run in t.runs && seen.finishedAt.Some? ==> t.runs[run] == seen)
    case Replied(_) => true
  }

  /** All of it but the schedules. */
  ghost predicate Sound(w: World) {
    RunInv(w.db) && forall q :: q in w.requests ==> RequestSound(w.db, w.requests[q])
  }

  ghost predicate WorldInv(w: World) {
    Sound(w) && ReplayInv(w.db)
  }

  lemma RequestStaysSound(t: Tables, u: Tables, r: Request)
    requires RunsSound(t) && Later(t, u) && RequestSound(t, r)
    ensures RequestSound(u, r)
  {
    hide SnapshotSound, ScoreSound, LogsKept;
  }

  /** The one transaction an event runs, if any. */
  ghost function TxOf(w: World, e: Event): Option<Tx> {
    match e
    case Commit(tx) => if tx.TxInsertAnswer? || tx.TxFinishRun? then None else Some(tx)
    case AnswerInserts(req, day) =>
      if req !in w.requests || !w.requests[req].AnswerTimed? then None
      else
        var a := w.requests[req];
        Some(TxInsertAnswer(a.runId, a.cardId, a.rating, a.interval, a.format, day))
    case FinishCommits(req, now) =>
      if req !in w.requests || !w.requests[req].FinishSeen? then None
      else Some(TxFinishRun(w.requests[req].runId, now))
    case _ => None
  }

  lemma StepRunsTx(w: World, e: Event)
    ensures Step(w, e).db == if TxOf(w, e).Some? then Apply(w.db, TxOf(w, e).value).0 else w.db
  {
    hide InsertAnswer, FinishRun, FindQuestion, Grade, CurrentInterval, CreateCard, UpdateCard, DeleteCards,
         RestoreCards,
      PurgeCards, Rate, SaveSet, DeleteSet, StartRun, DiscardRun;
  }

  lemma AnswerNamesQuestion(w: World, e: Event)
    requires Sound(w) && TxOf(w, e).Some? && TxOf(w, e).value.TxInsertAnswer?
    ensures var tx := TxOf(w, e).value;
            tx.runId in w.db.runs ==> Asks(w.db.questions[tx.runId], tx.cardId) && tx.cardId in w.db.cards
  {
    hide LogsAnswer, SetsSound, OneOpenRun, SnapshotSound, ScoreSound;
    var tx := TxOf(w, e).value;
    assert RequestSound(w.db, w.requests[e.req]);
    if tx.runId in w.db.runs {
      var i :| 0 <= i < |w.db.questions[tx.runId]| && w.db.questions[tx.runId][i].card == tx.cardId;
    }
  }

  lemma RunsStaySound(w: World, e: Event)
    requires Sound(w)
    ensures RunInv(Step(w, e).db) && Later(w.db, Step(w, e).db)
  {
    hide Step, Apply;
    StepRunsTx(w, e);
    if TxOf(w, e).Some? {
      var tx := TxOf(w, e).value;
      if tx.TxInsertAnswer? { AnswerNamesQuestion(w, e); }
      hide TxOf, RunsSound, OneOpenRun, QuestionsNameCards, LogsAnswer, SetsSound, Later, Asks, RequestSound;
      RunsPreserved(w.db, tx);
      StepIsLater(w.db, tx);
    }
  }

  lemma ReplaysStaySound(w: World, e: Event)
    requires WorldInv(w)
    ensures ReplayInv(Step(w, e).db)
  {
    hide Step, Apply, Sound;
    StepRunsTx(w, e);
    if TxOf(w, e).Some? {
      var tx := TxOf(w, e).value;
      if tx.TxInsertAnswer? { AnswerNamesQuestion(w, e); }
      hide TxOf, ReplayInv, Asks;
      ReplayPreserved(w.db, tx);
    }
  }

  /** The request an event touches comes out sound. */
  lemma TouchedRequestSound(w: World, e: Event)
    requires Sound(w)
    ensures !e.Commit? && e.req in Step(w, e).requests ==> RequestSound(Step(w, e).db, Step(w, e).requests[e.req])
  {
    hide LogsAnswer, SetsSound, OneOpenRun, QuestionsNameCards, SnapshotSound, ScoreSound, InsertAnswer,
         FinishRun, Grade, CurrentInterval, AnswerReplyFor, Apply;
    if !e.Commit? && e.req in w.requests { assert RequestSound(w.db, w.requests[e.req]); }
  }

  lemma OtherRequestsKept(w: World, e: Event, q: nat)
    requires q in Step(w, e).requests && (e.Commit? || q != e.req)
    ensures q in w.requests && Step(w, e).requests[q] == w.requests[q]
  {
    hide InsertAnswer, FinishRun, Grade, CurrentInterval, AnswerReplyFor, Apply, FindQuestion;
  }

  lemma StepKeepsSound(w: World, e: Event)
    requires Sound(w)
    ensures Sound(Step(w, e)) && Later(w.db, Step(w, e).db)
  {
    RunsStaySound(w, e);
    TouchedRequestSound(w, e);
    var v := Step(w, e);
    hide Step, Later, LogsAnswer, SetsSound, OneOpenRun, QuestionsNameCards, RunsSound, RequestSound;
    forall q | q in v.requests ensures RequestSound(v.db, v.requests[q]) {
      if e.Commit? || q != e.req {
        OtherRequestsKept(w, e, q);
        RequestStaysSound(w.db, v.db, w.requests[q]);
      }
    }
  }

  lemma StepPreserves(w: World, e: Event)
    requires WorldInv(w)
    ensures WorldInv(Step(w, e)) && Later(w.db, Step(w, e).db)
  {
    hide Step, ReplayInv, Sound, Later;
    StepKeepsSound(w, e);
    assert WorldInv(w);
    ReplaysStaySound(w, e);
  }

  const START := World(EMPTY, map[])

  lemma StartSound()
    ensures WorldInv(START)
  {
  }

  /** Over every interleaving: the invariant holds at the end, and the end
      comes after the beginning. */
  lemma {:induction false} EveryRun(w: World, es: seq<Event>)
    requires WorldInv(w)
    ensures WorldInv(Exec(w, es)) && Later(w.db, Exec(w, es).db)
    decreases |es|
  {
    hide Step, WorldInv;
    if es == [] {
      LaterRefl(w.db);
    } else {
      StepPreserves(w, es[0]);
      EveryRun(Step(w, es[0]), es[1..]);
      assert RunsSound(w.db) && RunsSound(Step(w, es[0]).db) by { WorldRunsSound(w); WorldRunsSound(Step(w, es[0])); }
      LaterTrans(w.db, Step(w, es[0]).db, Exec(w, es).db);
    }
  }

  lemma LaterRefl(t: Tables)
    ensures Later(t, t)
  {
  }

  lemma WorldRunsSound(w: World)
    requires WorldInv(w)
    ensures RunsSound(w.db) && RunInv(w.db)
  {
    hide RunsSound, ReplayInv, OneOpenRun, QuestionsNameCards, LogsAnswer, SetsSound, RequestSound;
  }

  /** The properties of every reachable state, in one place: no two open runs
      of a set; every finished run scores 0 <= correct <= total = questions
      asked, with at least one; every question and every log names a card row;
      at most one answer per run and card, and only to a question asked. */
  lemma EveryReachableState(es: seq<Event>)
    ensures var t := Exec(START, es).db;
            && (forall r, s, setId :: IsOpen(t, r, setId) && IsOpen(t, s, setId) ==> r == s)
            && (forall r :: r in t.runs ==> r in t.questions && t.questions[r] != [])
            && (forall r :: r in t.runs && t.runs[r].finishedAt.Some? ==>
                  t.runs[r].correct <= t.runs[r].total && t.runs[r].total == |t.questions[r]|)
            && (forall r, i :: r in t.questions && 0 <= i < |t.questions[r]| ==> t.questions[r][i].card in t.cards)
            && (forall i :: 0 <= i < |t.logs| ==> LogSound(t, t.logs[i]))
            && AnsweredOnce(t.logs)
            && (forall id :: id in t.cards ==>
                id in t.schedules && Replays(id, t.cards[id].captured, t.schedules[id], t.logs))
  {
    hide Step, Replays, LogSound, AnsweredOnce;
    StartSound();
    EveryRun(START, es);
  }

  // ----- starting -----------------------------------------------------------

  /** Starting twice hands back the run already in progress. */
  lemma StartIsIdempotent(t: Tables, setId: string, runId: string, draw: seq<string>, asked: map<string, Choice>,
              runDate: string,
                          runId2: string, draw2: seq<string>, asked2: map<string, Choice>, runDate2: string)
    requires RunInv(t) && StartRun(t, setId, runId, draw, asked, runDate).1 == Done
    ensures var u := StartRun(t, setId, runId, draw, asked, runDate).0;
            StartRun(u, setId, runId2, draw2, asked2, runDate2) == (u, Resumed(runId))
  {
    hide AskedOk, DrawOk, Snapshot;
    StartRunKeepsRuns(t, setId, runId, draw, asked, runDate);
    hide SnapshotSound, ScoreSound, LogsAnswer, QuestionsNameCards, SetsSound;
    var u := StartRun(t, setId, runId, draw, asked, runDate).0;
    assert IsOpen(u, runId, setId);
  }

  /** A drawn card is asked as multiple choice exactly when the set asks
      choices, its back is not empty, and the account's live cards hold three
      other distinct backs; the right option is then that back. */
  lemma AskedExactly(t: Tables, setId: string, runId: string, draw: seq<string>, asked: map<string, Choice>,
              runDate: string, i: nat)
    requires RunInv(t) && StartRun(t, setId, runId, draw, asked, runDate).1 == Done && i < |draw|
    ensures var q := StartRun(t, setId, runId, draw, asked, runDate).0.questions[runId][i];
            && q.card == draw[i] && q.card in t.cards
            && var back := t.cards[q.card].back;
            && (q.choice.Some? <==>
                t.sets[setId].isChoice && back != "" && |LiveBacks(t, {}, {}) - {back}| >= 3)
            && (q.choice.Some? ==>
                  |q.choice.value.options| == 4 && IsChoice(q.choice.value, back, LiveBacks(t, {}, {})))
  {
    hide DrawOk, LiveBacks, Distinct, SnapshotSound, ScoreSound, LogsAnswer, QuestionsNameCards;
    DrawIsDistinctLive(t, t.sets[setId], draw);
    assert draw[i] in draw && Live(t, draw[i]);
    assert BacksOf(t, draw)[draw[i]] == t.cards[draw[i]].back;
  }

  /** However long the run stays open and whatever happens meanwhile, picking
      an option counts as remembered exactly when its text is what the card's
      back was when the question was drawn. */
  lemma GradedByTextAtDraw(w: World, setId: string, runId: string, draw: seq<string>, asked: map<string, Choice>,
              runDate: string,
                           es: seq<Event>, i: nat, picked: nat)
    requires WorldInv(w) && StartRun(w.db, setId, runId, draw, asked, runDate).1 == Done && i < |draw|
    requires runId in Exec(Step(w, Commit(TxStartRun(setId, runId, draw, asked, runDate))), es).db.runs
    ensures var t := Exec(Step(w, Commit(TxStartRun(setId, runId, draw, asked, runDate))), es).db;
            && runId in t.questions && |t.questions[runId]| == |draw|
            && var q := t.questions[runId][i];
            && q.card == draw[i] && q.card in w.db.cards
            && (q.choice.Some? ==> IsChoice(q.choice.value, w.db.cards[draw[i]].back, LiveBacks(w.db, {}, {})))
            && (q.choice.Some? && picked < CHOICE_COUNT ==>
                  && |q.choice.value.options| == CHOICE_COUNT
                  && (Grade(q, Body(None, Some(picked))) == Some(Ingat)
                      <==> q.choice.value.options[picked] == w.db.cards[draw[i]].back))
  {
    hide *;
    var e := Commit(TxStartRun(setId, runId, draw, asked, runDate));
    var u := StartRun(w.db, setId, runId, draw, asked, runDate).0;
    var v := Step(w, e);
    CommitStart(w, setId, runId, draw, asked, runDate);
    WorldRunsSound(w);
    NewRunIsThere(w.db, setId, runId, draw, asked, runDate);
    AskedExactly(w.db, setId, runId, draw, asked, runDate, i);
    StepPreserves(w, e);
    EveryRun(v, es);
    LaterKeepsQuestions(u, Exec(v, es).db, runId);
    var q := u.questions[runId][i];
    if q.choice.Some? && picked < CHOICE_COUNT {
      GradedByText(q, w.db.cards[draw[i]].back, LiveBacks(w.db, {}, {}), picked);
    }
  }

  lemma CommitStart(w: World, setId: string, runId: string, draw: seq<string>, asked: map<string, Choice>,
              runDate: string)
    ensures Step(w, Commit(TxStartRun(setId, runId, draw, asked, runDate))).db
        == StartRun(w.db, setId, runId, draw, asked, runDate).0
  {
    hide StartRun;
  }

  lemma GradedByText(q: Question, back: string, backs: set<string>, picked: nat)
    requires q.choice.Some? && IsChoice(q.choice.value, back, backs) && picked < CHOICE_COUNT
    ensures |q.choice.value.options| == CHOICE_COUNT
    ensures Grade(q, Body(None, Some(picked))) == Some(Ingat) <==> q.choice.value.options[picked] == back
  {
    RightIndexIsRightText(q.choice.value, back, backs, picked);
  }

  lemma NewRunIsThere(t: Tables, setId: string, runId: string, draw: seq<string>, asked: map<string, Choice>,
              runDate: string)
    requires StartRun(t, setId, runId, draw, asked, runDate).1 == Done
    ensures var u := StartRun(t, setId, runId, draw, asked, runDate).0;
            runId in u.runs && runId in u.questions && |u.questions[runId]| == |draw|
  {
    hide AskedOk, DrawOk, IsOpen;
  }

  lemma LaterKeepsQuestions(t: Tables, u: Tables, run: string)
    requires Later(t, u) && run in t.runs && run in t.questions && run in u.runs
    ensures run in u.questions && u.questions[run] == t.questions[run]
  {
    hide LogsKept;
  }

  /** A run's questions, their order, options and answer key are fixed through
      every interleaving, until the run is discarded. */
  lemma SnapshotKept(w: World, es: seq<Event>, run: string)
    requires WorldInv(w) && run in w.db.runs && run in Exec(w, es).db.runs
    ensures run in w.db.questions && run in Exec(w, es).db.questions
    ensures Exec(w, es).db.questions[run] == w.db.questions[run]
  {
    EveryRun(w, es);
    WorldRunsSound(w);
    hide WorldInv, Exec, Later, SnapshotSound, ScoreSound;
    LaterKeepsQuestions(w.db, Exec(w, es).db, run);
  }

  // ----- what is logged -----------------------------------------------------

  lemma {:induction false} FindsTheQuestion(qs: seq<Question>, i: nat)
    requires DistinctCards(qs) && i < |qs|
    ensures FindQuestion(qs, qs[i].card) == Some(qs[i])
  {
    if i > 0 {
      assert forall j, k :: 0 <= j < k < |qs[1..]| ==> qs[1..][j].card != qs[1..][k].card;
      FindsTheQuestion(qs[1..], i - 1);
    }
  }

  predicate Answering(r: Request) {
    r.AnswerGraded? || r.AnswerTimed? || r.Replied?
  }

  /** Past its grading a request keeps its run, card, rating, format and reply,
      unless it fails, and once it has read it, its interval. */
  predicate SameAnswer(a: Request, b: Request) {
    && Answering(a) && Answering(b)
    && (b.Replied? ==> b.reply == a.reply || b.reply == Internal)
    && (!b.Replied? ==>
          && !a.Replied? && b.runId == a.runId && b.cardId == a.cardId
          && b.rating == a.rating && b.format == a.format && b.reply == a.reply)
    && (a.AnswerTimed? && !b.Replied? ==> b == a)
  }

  lemma GradedStep(w: World, e: Event, req: nat)
    requires req in w.requests && Answering(w.requests[req])
    ensures req in Step(w, e).requests && SameAnswer(w.requests[req], Step(w, e).requests[req])
  {
    hide InsertAnswer, FinishRun, Grade, CurrentInterval, AnswerReplyFor, Apply, FindQuestion;
  }

  lemma {:induction false} GradedStays(w: World, es: seq<Event>, req: nat)
    requires req in w.requests && Answering(w.requests[req])
    ensures req in Exec(w, es).requests && SameAnswer(w.requests[req], Exec(w, es).requests[req])
    decreases |es|
  {
    if es != [] {
      GradedStep(w, es[0], req);
      hide Step;
      GradedStays(Step(w, es[0]), es[1..], req);
    }
  }

  /** From the option picked to the log row: however the other requests and
      transactions interleave with its steps, the request ends in no row or in
      one row for that card of that run, remembered exactly when the text of
      the option is `back`. */
  lemma LoggedByText(v: World, req: nat, run: string, i: nat, picked: nat, back: string, backs: set<string>,
                     es: seq<Event>, day: string)
    requires WorldInv(v) && run in v.db.questions && i < |v.db.questions[run]| && picked < CHOICE_COUNT
    requires var q := v.db.questions[run][i];
             && q.choice.Some? && IsChoice(q.choice.value, back, backs)
             && req in v.requests && v.requests[req].AnswerOpen?
             && v.requests[req].runId == run && v.requests[req].cardId == q.card
             && v.requests[req].body.choice == Some(picked)
    ensures var q := v.db.questions[run][i];
            var x := Exec(Step(v, AnswerReadsQuestion(req)), es);
            var after := Step(x, AnswerInserts(req, day)).db.logs;
            var rating := if q.choice.value.options[picked] == back then Ingat else Lupa;
            || after == x.db.logs
            || exists interval ::
                after == x.db.logs + [Log(q.card, rating, interval, interval, SetRun, Some(run), MultipleChoice, day)]
  {
    var q := v.db.questions[run][i];
    var body := v.requests[req].body;
    WorldRunsSound(v);
    assert DistinctCards(v.db.questions[run]) by { hide WorldInv, ScoreSound, WellAsked; }
    FindsTheQuestion(v.db.questions[run], i);
    GradedByText(q, back, backs, picked);
    hide WorldInv, IsChoice, FindQuestion, RunsSound, RunInv, Exec;
    var graded := Step(v, AnswerReadsQuestion(req));
    var rating := if q.choice.value.options[picked] == back then Ingat else Lupa;
    assert Grade(q, body) == Some(rating);
    var a := graded.requests[req];
    assert a.AnswerGraded? && a.runId == run && a.cardId == q.card && a.rating == rating && a.format == MultipleChoice;
    GradedStays(graded, es, req);
    InsertsItsAnswer(Exec(graded, es), req, day, a);
  }

  /** The two together: what is logged for an option picked is decided by its
      text and the card's back at the draw, whatever happens in between. */
  lemma LoggedByTextAtDraw(w: World, setId: string, runId: string, draw: seq<string>, asked: map<string, Choice>,
                           runDate: string, es: seq<Event>, i: nat, picked: nat, req: nat, more: seq<Event>,
                               day: string)
    requires WorldInv(w) && StartRun(w.db, setId, runId, draw, asked, runDate).1 == Done && i < |draw|
        && picked < CHOICE_COUNT
    requires var v := Exec(Step(w, Commit(TxStartRun(setId, runId, draw, asked, runDate))), es);
             && runId in v.db.runs && runId in v.db.questions && |v.db.questions[runId]| == |draw|
             && v.db.questions[runId][i].choice.Some?
             && req in v.requests && v.requests[req].AnswerOpen?
             && v.requests[req].runId == runId && v.requests[req].cardId == draw[i]
             && v.requests[req].body.choice == Some(picked)
    ensures var v := Exec(Step(w, Commit(TxStartRun(setId, runId, draw, asked, runDate))), es);
            var x := Exec(Step(v, AnswerReadsQuestion(req)), more);
            var after := Step(x, AnswerInserts(req, day)).db.logs;
            draw[i] in w.db.cards && |v.db.questions[runId][i].choice.value.options| == CHOICE_COUNT
            && var text := v.db.questions[runId][i].choice.value.options[picked];
            var rating := if text == w.db.cards[draw[i]].back then Ingat else Lupa;
            || after == x.db.logs
            || exists interval ::
                 after == x.db.logs + [Log(draw[i], rating, interval, interval, SetRun, Some(runId), MultipleChoice,
                     day)]
  {
    var start := Step(w, Commit(TxStartRun(setId, runId, draw, asked, runDate)));
    hide *;
    GradedByTextAtDraw(w, setId, runId, draw, asked, runDate, es, i, picked);
    StepPreserves(w, Commit(TxStartRun(setId, runId, draw, asked, runDate)));
    EveryRun(start, es);
    LoggedByText(Exec(start, es), req, runId, i, picked, w.db.cards[draw[i]].back, LiveBacks(w.db, {}, {}), more, day);
  }

  lemma InsertsItsAnswer(x: World, req: nat, day: string, a: Request)
    requires a.AnswerGraded? && req in x.requests && SameAnswer(a, x.requests[req])
    ensures var after := Step(x, AnswerInserts(req, day)).db.logs;
            || after == x.db.logs
            || exists interval ::
                 after == x.db.logs + [Log(a.cardId, a.rating, interval, interval, SetRun, Some(a.runId), a.format,
                     day)]
  {
    if x.requests[req].AnswerTimed? {
      var after := Step(x, AnswerInserts(req, day)).db.logs;
      var n := x.requests[req].interval;
      hide Answered;
      assert after == x.db.logs
          || after == x.db.logs + [Log(a.cardId, a.rating, n, n, SetRun, Some(a.runId), a.format, day)];
    }
  }

  // ----- finishing ----------------------------------------------------------

  /** Finishing answers with the stored row exactly when the run still exists
      and either was open until this very commit or had been seen finished. */
  lemma FinishReplyIsStored(w: World, req: nat, now: int)
    requires WorldInv(w) && req in w.requests && w.requests[req].FinishSeen?
    ensures var f := w.requests[req];
            var v := Step(w, FinishCommits(req, now));
            var stored := f.runId in v.db.runs && v.requests[req] == Replied(RunReply(v.db.runs[f.runId]));
            stored <==> f.runId in w.db.runs && (w.db.runs[f.runId].finishedAt.None? || f.seen.finishedAt.Some?)
  {
    hide ReplayInv, OneOpenRun, QuestionsNameCards, LogsAnswer, SetsSound, SnapshotSound, CountCorrect;
    assert RequestSound(w.db, w.requests[req]);
    FinishNeverRefused(w.db, w.requests[req].runId, now);
  }

  /** Two finishes that both read the run open: the second answers with an
      unfinished, unscored run although the stored one is finished. */
  lemma DoubleFinishIsStale(w: World, run: string, now: int, later: int)
    requires WorldInv(w) && run in w.db.runs && w.db.runs[run].finishedAt.None? && 1 !in w.requests && 2 !in w.requests
    ensures var v := Exec(w,
        [FinishArrives(1, run), FinishArrives(2, run), FinishCommits(1, now), FinishCommits(2, later)]);
            && run in v.db.runs && v.db.runs[run].finishedAt == Some(now)
            && 2 in v.requests && v.requests[2] == Replied(RunReply(w.db.runs[run]))
  {
    hide ReplayInv, OneOpenRun, QuestionsNameCards, LogsAnswer, SetsSound, SnapshotSound, CountCorrect, ScoreSound;
    FinishNeverRefused(w.db, run, now);
    var e1, e2, e3, e4 := FinishArrives(1, run), FinishArrives(2, run), FinishCommits(1, now), FinishCommits(2, later);
    var w1 := Step(w, e1);
    var w2 := Step(w1, e2);
    var w3 := Step(w2, e3);
    assert w2.db == w.db && w2.requests[1] == FinishSeen(run, w.db.runs[run])
        && w2.requests[2] == FinishSeen(run, w.db.runs[run]);
    assert w3.db.runs[run].finishedAt == Some(now) && w3.requests[2] == w2.requests[2];
    ExecFour(w, e1, e2, e3, e4);
  }

  lemma ExecFour(w: World, a: Event, b: Event, c: Event, d: Event)
    ensures Exec(w, [a, b, c, d]) == Step(Step(Step(Step(w, a), b), c), d)
  {
    hide Step;
    assert [a, b, c, d][1..] == [b, c, d] && [b, c, d][1..] == [c, d] && [c, d][1..] == [d];
    assert Exec(w, [a, b, c, d]) == Exec(Step(w, a), [b, c, d]);
    assert Exec(Step(w, a), [b, c, d]) == Exec(Step(Step(w, a), b), [c, d]);
    var x := Step(Step(w, a), b);
    assert Exec(x, [c, d]) == Exec(Step(x, c), [d]);
    var y := Step(x, c);
    assert Exec(y, [d]) == Exec(Step(y, d), [d][1..]);
  }
}
