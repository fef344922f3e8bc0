/** Answers already on their way when a run is finished: which of them can
    still land, and how far the score then falls short. */
module LateAnswers {
  import opened Text
  import opened Sequences
  import opened Srs
  import opened Store
  import opened RunInvariant
  import opened ReplayInvariant
  import opened Protocol

  // ----- answers that land after the score ----------------------------------

  /** Whether this event writes a new right answer to `run`. */
  predicate LandsRight(w: World, e: Event, run: string) {
    e.AnswerInserts? && e.req in w.requests
    && var a := w.requests[e.req];
    a.AnswerTimed? && a.runId == run && a.rating == Ingat && run in w.db.runs && !Answered(w.db.logs, run, a.cardId)
  }

  ghost function LateRight(w: World, es: seq<Event>, run: string): nat
    decreases |es|
  {
    if es == [] then 0
    else (if LandsRight(w, es[0], run) then 1 else 0) + LateRight(Step(w, es[0]), es[1..], run)
  }

  lemma CountAppend(logs: seq<Log>, l: Log, run: string)
    ensures CountCorrect(logs + [l], run)
        == CountCorrect(logs, run) + (if l.run == Some(run) && l.rating == Ingat then 1 else 0)
  {
    assert (logs + [l])[..|logs|] == logs;
  }

  lemma {:induction false} CountDetached(logs: seq<Log>, gone: string, run: string)
    requires gone != run
    ensures CountCorrect(Detach(logs, gone), run) == CountCorrect(logs, run)
  {
    if logs != [] {
      var d := Detach(logs, gone);
      CountDetached(logs[..|logs| - 1], gone, run);
      assert d[..|logs| - 1] == Detach(logs[..|logs| - 1], gone);
      hide Detach;
    }
  }

  lemma CountStep(t: Tables, tx: Tx, run: string)
    requires run in Apply(t, tx).0.runs && run in t.runs
    ensures CountCorrect(Apply(t, tx).0.logs, run) == CountCorrect(t.logs, run) +
              (if tx.TxInsertAnswer? && tx.runId == run && tx.rating == Ingat
                  && !Answered(t.logs, run, tx.cardId) then 1 else 0)
  {
    hide CountCorrect, StartRun, FinishRun, DiscardRun, CreateCard, UpdateCard, DeleteCards,
         RestoreCards, PurgeCards, Rate, SaveSet, DeleteSet, InsertAnswer;
    match tx {
      case TxRate(id, rating, today) => CountRated(t, id, rating, today, run);
      case TxInsertAnswer(r, card, rating, interval, format, day) =>
        CountInserted(t, r, card, rating, interval, format, day, run);
      case TxDiscardRun(gone) => CountDiscarded(t, gone, run);
      case _ => LogsUntouched(t, tx);
    }
  }

  lemma CountRated(t: Tables, id: string, rating: Rating, today: string, run: string)
    ensures CountCorrect(Rate(t, id, rating, today).0.logs, run) == CountCorrect(t.logs, run)
  {
    var u := Rate(t, id, rating, today).0;
    hide CountCorrect, Next, Calendar.ToTimePtr, Calendar.FromTimePtr, IntervalDays;
    if u != t { CountAppend(t.logs, u.logs[|t.logs|], run); }
  }

  lemma CountInserted(t: Tables, r: string, card: string, rating: Rating, interval: nat, format: Format, day: string,
              run: string)
    requires run in t.runs
    ensures CountCorrect(InsertAnswer(t, r, card, rating, interval, format, day).0.logs, run)
         == CountCorrect(t.logs, run) + (if r == run && rating == Ingat && !Answered(t.logs, run, card) then 1 else 0)
  {
    var u := InsertAnswer(t, r, card, rating, interval, format, day).0;
    hide CountCorrect, Answered;
    if u.logs != t.logs { CountAppend(t.logs, u.logs[|t.logs|], run); }
  }

  lemma CountDiscarded(t: Tables, gone: string, run: string)
    requires run in DiscardRun(t, gone).0.runs
    ensures CountCorrect(DiscardRun(t, gone).0.logs, run) == CountCorrect(t.logs, run)
  {
    hide CountCorrect, Detach;
    if gone in t.runs { CountDetached(t.logs, gone, run); }
  }

  lemma LogsUntouched(t: Tables, tx: Tx)
    requires !tx.TxRate? && !tx.TxInsertAnswer? && !tx.TxDiscardRun?
    ensures Apply(t, tx).0.logs == t.logs
  {
    hide NewSchedule, Calendar.ToTimePtr, AskedOk, DrawOk, Snapshot, Without, Distinct, IsOpen, CountCorrect,
         Purgeable, Live;
  }

  lemma ScoreStep(w: World, e: Event, run: string)
    requires run in w.db.runs && run in Step(w, e).db.runs
    ensures CountCorrect(Step(w, e).db.logs, run)
        == CountCorrect(w.db.logs, run) + (if LandsRight(w, e, run) then 1 else 0)
  {
    StepRunsTx(w, e);
    hide Step, Apply, CountCorrect, Answered;
    if TxOf(w, e).Some? { CountStep(w.db, TxOf(w, e).value, run); }
  }

  lemma RunStillThere(t: Tables, u: Tables, v: Tables, run: string)
    requires RunsSound(t) && Later(t, u) && Later(u, v) && run in t.runs && t.runs[run].finishedAt.Some?
        && run in v.runs
    ensures run in u.runs && u.runs[run] == t.runs[run]
  {
    hide LogsKept, SnapshotSound, ScoreSound;
  }

  /** A finished run's score is never rewritten, so it falls short of the right
      answers on record by exactly the right answers that land after it: the
      two agree if and only if none does. */
  lemma {:induction false} ScoreMissesLateAnswers(w: World, es: seq<Event>, run: string)
    requires WorldInv(w) && run in w.db.runs && w.db.runs[run].finishedAt.Some?
    requires run in Exec(w, es).db.runs
    ensures var t := Exec(w, es).db;
            && t.runs[run] == w.db.runs[run]
            && CountCorrect(t.logs, run) - t.runs[run].correct
                == CountCorrect(w.db.logs, run) - w.db.runs[run].correct + LateRight(w, es, run)
    decreases |es|
  {
    hide Step, WorldInv, Later, LandsRight, CountCorrect;
    if es != [] {
      var v := Step(w, es[0]);
      StepPreserves(w, es[0]);
      EveryRun(v, es[1..]);
      WorldRunsSound(w);
      RunStillThere(w.db, v.db, Exec(w, es).db, run);
      ScoreStep(w, es[0], run);
      ScoreMissesLateAnswers(v, es[1..], run);
    }
  }

  // ----- what can still land ------------------------------------------------

  /** The card a request will log as remembered on `run`, if it will. */
  function RightCard(t: Tables, r: Request, run: string): Option<string> {
    match r
    case AnswerOpen(on, card, body) =>
      if on != run || run !in t.questions then None
      else
        var q := FindQuestion(t.questions[run], card);
        if q.Some? && Grade(q.value, body) == Some(Ingat) then Some(card) else None
    case AnswerGraded(on, card, rating, _, _) => if on == run && rating == Ingat then Some(card) else None
    case AnswerTimed(on, card, rating, _, _, _) => if on == run && rating == Ingat then Some(card) else None
    case _ => None
  }

  /** A right answer on its way to a question not answered yet. */
  predicate CanLand(w: World, q: nat, run: string) {
    && q in w.requests
    && RightCard(w.db, w.requests[q], run).Some?
    && !Answered(w.db.logs, run, RightCard(w.db, w.requests[q], run).value)
  }

  function LandableCards(w: World, run: string): set<string> {
    set q | q in w.requests && CanLand(w, q, run) :: RightCard(w.db, w.requests[q], run).value
  }

  predicate Finished(t: Tables, run: string) {
    run in t.runs && t.runs[run].finishedAt.Some?
  }

  lemma AnsweredStays(t: Tables, tx: Tx, run: string, card: string)
    requires Answered(t.logs, run, card) && run in Apply(t, tx).0.runs
    ensures Answered(Apply(t, tx).0.logs, run, card)
  {
    var i :| 0 <= i < |t.logs| && t.logs[i].run == Some(run) && t.logs[i].card == card;
    var u := Apply(t, tx).0;
    if tx.TxDiscardRun? {
      hide PurgeCards, StartRun;
      assert u.logs[i] == t.logs[i];
    } else if tx.TxRate? || tx.TxInsertAnswer? {
      RunsUntouched(t, tx);
      hide Apply;
      assert u.logs[i] == t.logs[i];
    } else {
      LogsUntouched(t, tx);
      hide Apply;
    }
  }

  lemma AnsweredStaysInStep(w: World, e: Event, run: string, card: string)
    requires Answered(w.db.logs, run, card) && run in Step(w, e).db.runs
    ensures Answered(Step(w, e).db.logs, run, card)
  {
    StepRunsTx(w, e);
    hide Step, Apply, Answered;
    if TxOf(w, e).Some? { AnsweredStays(w.db, TxOf(w, e).value, run, card); }
  }

  lemma FinishedStays(w: World, e: Event, run: string)
    requires WorldInv(w) && Finished(w.db, run) && run in Step(w, e).db.runs
    ensures var v := Step(w, e);
            && WorldInv(v) && v.db.runs[run] == w.db.runs[run] && Finished(v.db, run)
            && run in w.db.questions && run in v.db.questions && v.db.questions[run] == w.db.questions[run]
  {
    StepPreserves(w, e);
    WorldRunsSound(w);
    hide Step, WorldInv, SnapshotSound, ScoreSound, LogsKept;
  }

  /** A finished run takes no new answer: what a request will log after a step
      it would have logged before it. */
  lemma NothingNewCanLand(w: World, e: Event, run: string, q: nat)
    requires WorldInv(w) && Finished(w.db, run) && run in Step(w, e).db.runs
    requires q in Step(w, e).requests && RightCard(Step(w, e).db, Step(w, e).requests[q], run).Some?
    ensures q in w.requests
        && RightCard(w.db, w.requests[q], run) == RightCard(Step(w, e).db, Step(w, e).requests[q], run)
  {
    FinishedStays(w, e, run);
    hide *;
    if e.Commit? || q != e.req {
      OtherRequestsKept(w, e, q);
      SameQuestionsSameCard(w.db, Step(w, e).db, w.requests[q], run);
    } else {
      OwnStepKeepsRight(w, e, run);
    }
  }

  lemma SameQuestionsSameCard(t: Tables, u: Tables, r: Request, run: string)
    requires run in t.questions && run in u.questions && u.questions[run] == t.questions[run]
    ensures RightCard(t, r, run) == RightCard(u, r, run)
  {
    hide FindQuestion, Grade;
  }

  /** The same for the request that moves. */
  lemma OwnStepKeepsRight(w: World, e: Event, run: string)
    requires Finished(w.db, run) && run in w.db.questions && run in Step(w, e).db.questions
    requires Step(w, e).db.questions[run] == w.db.questions[run]
    requires !e.Commit? && e.req in Step(w, e).requests
    requires RightCard(Step(w, e).db, Step(w, e).requests[e.req], run).Some?
    ensures e.req in w.requests
    ensures RightCard(w.db, w.requests[e.req], run) == RightCard(Step(w, e).db, Step(w, e).requests[e.req], run)
  {
    hide InsertAnswer, FinishRun, Grade, CurrentInterval, AnswerReplyFor, Apply, FindQuestion;
    match e
    case AnswerArrives(req, _, _, _) =>
    case AnswerReadsQuestion(req) =>
    case AnswerReadsSchedule(req) =>
    case AnswerInserts(req, _) =>
    case FinishArrives(req, _) =>
    case FinishCommits(req, _) =>
  }

  lemma LandableShrinks(w: World, e: Event, run: string)
    requires WorldInv(w) && Finished(w.db, run) && run in Step(w, e).db.runs
    ensures LandableCards(Step(w, e), run) <= LandableCards(w, run)
    ensures LandsRight(w, e, run) ==>
              w.requests[e.req].cardId in LandableCards(w, run) - LandableCards(Step(w, e), run)
  {
    var v := Step(w, e);
    hide Step, WorldInv, RightCard, Answered;
    forall c | c in LandableCards(v, run) ensures c in LandableCards(w, run) {
      var q :| q in v.requests && CanLand(v, q, run) && RightCard(v.db, v.requests[q], run).value == c;
      NothingNewCanLand(w, e, run, q);
      if Answered(w.db.logs, run, c) { AnsweredStaysInStep(w, e, run, c); }
      assert CanLand(w, q, run);
    }
    if LandsRight(w, e, run) { LandedIsAnswered(w, e, run); }
  }

  lemma LandedIsAnswered(w: World, e: Event, run: string)
    requires LandsRight(w, e, run)
    ensures CanLand(w, e.req, run) && RightCard(w.db, w.requests[e.req], run) == Some(w.requests[e.req].cardId)
    ensures Answered(Step(w, e).db.logs, run, w.requests[e.req].cardId)
  {
    var v := Step(w, e);
    assert v.db.logs[|w.db.logs|].card == w.requests[e.req].cardId && v.db.logs[|w.db.logs|].run == Some(run);
  }

  /** However the run goes on, at most the landable cards are missed. */
  lemma {:induction false} AtMostLandable(w: World, es: seq<Event>, run: string)
    requires WorldInv(w) && Finished(w.db, run) && run in Exec(w, es).db.runs
    ensures LateRight(w, es, run) <= |LandableCards(w, run)|
    decreases |es|
  {
    if es != [] {
      var v := Step(w, es[0]);
      RunSurvives(w, es, run);
      FinishedStays(w, es[0], run);
      LandableShrinks(w, es[0], run);
      hide Step, WorldInv, LandsRight, LandableCards, Finished, RunInv, ReplayInv, CanLand;
      AtMostLandable(v, es[1..], run);
      var before, after := LandableCards(w, run), LandableCards(v, run);
      if LandsRight(w, es[0], run) {
        var c := w.requests[es[0].req].cardId;
        CardinalityGrows(after, before - {c});
      } else {
        CardinalityGrows(after, before);
      }
    }
  }

  lemma RunSurvives(w: World, es: seq<Event>, run: string)
    requires WorldInv(w) && Finished(w.db, run) && es != [] && run in Exec(w, es).db.runs
    ensures run in Step(w, es[0]).db.runs
  {
    var v := Step(w, es[0]);
    StepPreserves(w, es[0]);
    EveryRun(v, es[1..]);
    WorldRunsSound(w);
    hide Step, WorldInv, Later;
    RunStillThere(w.db, v.db, Exec(w, es).db, run);
  }

  // ----- and all of it can --------------------------------------------------

  /** One request on its way to its end, nothing else moving. */
  lemma {:induction false} LandOne(w: World, q: nat, run: string) returns (es: seq<Event>)
    requires WorldInv(w) && Finished(w.db, run) && CanLand(w, q, run)
    ensures var v := Exec(w, es);
            && WorldInv(v) && Finished(v.db, run) && LateRight(w, es, run) == 1
            && LandableCards(v, run) == LandableCards(w, run) - {RightCard(w.db, w.requests[q], run).value}
    decreases match w.requests[q] case AnswerOpen(_, _, _) => 2 case AnswerGraded(_, _, _, _, _) => 1 case _ => 0
  {
    if w.requests[q].AnswerTimed? {
      es := [AnswerInserts(q, "")];
      Inserted(w, q, run);
    } else {
      var e := if w.requests[q].AnswerOpen? then AnswerReadsQuestion(q) else AnswerReadsSchedule(q);
      Advances(w, q, run, e);
      var v := Step(w, e);
      hide Step, CanLand, LandableCards, WorldInv, Finished, RightCard;
      var rest := LandOne(v, q, run);
      es := [e] + rest;
      assert es[1..] == rest;
    }
  }

  lemma Advances(w: World, q: nat, run: string, e: Event)
    requires WorldInv(w) && Finished(w.db, run) && CanLand(w, q, run) && !w.requests[q].AnswerTimed?
    requires e == if w.requests[q].AnswerOpen? then AnswerReadsQuestion(q) else AnswerReadsSchedule(q)
    ensures var v := Step(w, e);
            && v.db == w.db && WorldInv(v) && CanLand(v, q, run) && !LandsRight(w, e, run)
            && RightCard(v.db, v.requests[q], run) == RightCard(w.db, w.requests[q], run)
            && LandableCards(v, run) == LandableCards(w, run)
            && (w.requests[q].AnswerOpen? ==> v.requests[q].AnswerGraded?)
            && (w.requests[q].AnswerGraded? ==> v.requests[q].AnswerTimed?)
  {
    hide *;
    var v := Step(w, e);
    StepPreserves(w, e);
    Moves(w, q, run, e);
    SameLandable(w, v, q, run);
    SameCards(w, v, run);
  }

  lemma SameLandable(w: World, v: World, q: nat, run: string)
    requires v.db == w.db && q in w.requests && q in v.requests
    requires RightCard(v.db, v.requests[q], run) == RightCard(w.db, w.requests[q], run)
    ensures CanLand(v, q, run) == CanLand(w, q, run)
  {
  }

  lemma SameCards(w: World, v: World, run: string)
    requires v.db == w.db && v.requests.Keys == w.requests.Keys
    requires forall q :: q in w.requests ==> RightCard(v.db, v.requests[q], run) == RightCard(w.db, w.requests[q], run)
    ensures LandableCards(v, run) == LandableCards(w, run)
  {
    hide RightCard, LandableCards, CanLand;
    forall c | c in LandableCards(v, run) ensures c in LandableCards(w, run) {
      var q := LandableBy(v, run, c);
      SameLandable(w, v, q, run);
      IsLandable(w, q, run);
    }
    forall c | c in LandableCards(w, run) ensures c in LandableCards(v, run) {
      var q := LandableBy(w, run, c);
      SameLandable(w, v, q, run);
      IsLandable(v, q, run);
    }
  }

  lemma IsLandable(w: World, q: nat, run: string)
    requires CanLand(w, q, run)
    ensures RightCard(w.db, w.requests[q], run).value in LandableCards(w, run)
  {
    hide RightCard, Answered;
  }

  lemma LandableBy(w: World, run: string, c: string) returns (q: nat)
    requires c in LandableCards(w, run)
    ensures q in w.requests && CanLand(w, q, run) && RightCard(w.db, w.requests[q], run).value == c
  {
    hide RightCard, Answered;
    q :| q in w.requests && CanLand(w, q, run) && RightCard(w.db, w.requests[q], run).value == c;
  }

  lemma Moves(w: World, q: nat, run: string, e: Event)
    requires CanLand(w, q, run) && !w.requests[q].AnswerTimed?
    requires e == if w.requests[q].AnswerOpen? then AnswerReadsQuestion(q) else AnswerReadsSchedule(q)
    ensures var v := Step(w, e);
            && v.db == w.db && v.requests.Keys == w.requests.Keys && q in w.requests && !LandsRight(w, e, run)
            && (forall p :: p in w.requests && p != q ==> v.requests[p] == w.requests[p])
            && RightCard(v.db, v.requests[q], run) == RightCard(w.db, w.requests[q], run)
            && (w.requests[q].AnswerOpen? ==> v.requests[q].AnswerGraded?)
            && (w.requests[q].AnswerGraded? ==> v.requests[q].AnswerTimed?)
  {
    hide Grade, CurrentInterval, AnswerReplyFor, FindQuestion, Answered;
  }

  lemma Inserted(w: World, q: nat, run: string)
    requires WorldInv(w) && Finished(w.db, run) && CanLand(w, q, run) && w.requests[q].AnswerTimed?
    ensures var v := Exec(w, [AnswerInserts(q, "")]);
            && WorldInv(v) && Finished(v.db, run) && LateRight(w, [AnswerInserts(q, "")], run) == 1
            && LandableCards(v, run) == LandableCards(w, run) - {RightCard(w.db, w.requests[q], run).value}
  {
    hide *;
    var e := AnswerInserts(q, "");
    var v := Step(w, e);
    StepPreserves(w, e);
    Writes(w, q, run);
    OneStep(w, e, run);
    LandableShrinks(w, e, run);
    forall c | c in LandableCards(w, run) && c != w.requests[q].cardId ensures c in LandableCards(v, run) {
      var p := LandableBy(w, run, c);
      StillLandable(w, v, p, run);
      IsLandable(v, p, run);
    }
  }

  lemma OneStep(w: World, e: Event, run: string)
    ensures Exec(w, [e]) == Step(w, e) && LateRight(w, [e], run) == if LandsRight(w, e, run) then 1 else 0
  {
    hide Step, LandsRight;
    assert [e][1..] == [];
    assert Exec(Step(w, e), []) == Step(w, e) && LateRight(Step(w, e), [], run) == 0;
  }

  lemma StillLandable(w: World, v: World, p: nat, run: string)
    requires CanLand(w, p, run) && p in v.requests
    requires RightCard(v.db, v.requests[p], run) == RightCard(w.db, w.requests[p], run)
    requires var c := RightCard(w.db, w.requests[p], run).value;
             Answered(v.db.logs, run, c) ==> Answered(w.db.logs, run, c)
    ensures CanLand(v, p, run)
  {
  }

  lemma Writes(w: World, q: nat, run: string)
    requires Finished(w.db, run) && CanLand(w, q, run) && w.requests[q].AnswerTimed?
    ensures var e := AnswerInserts(q, "");
            var v := Step(w, e);
            var card := RightCard(w.db, w.requests[q], run).value;
            && LandsRight(w, e, run) && card == w.requests[q].cardId && v.requests.Keys == w.requests.Keys
            && v.db.runs == w.db.runs && v.db.questions == w.db.questions && run in v.db.runs && Finished(v.db, run)
            && q in w.requests && RightCard(w.db, w.requests[q], run).Some?
            && (forall p :: p in w.requests && p != q ==> v.requests[p] == w.requests[p])
            && (forall c :: c != card && Answered(v.db.logs, run, c) ==> Answered(w.db.logs, run, c))
            && (forall p :: p in w.requests && p != q ==>
                  RightCard(v.db, w.requests[p], run) == RightCard(w.db, w.requests[p], run))
  {
    var v := Step(w, AnswerInserts(q, ""));
    var card := w.requests[q].cardId;
    hide Grade, FindQuestion;
    forall c | c != card && Answered(v.db.logs, run, c) ensures Answered(w.db.logs, run, c) {
      var i :| 0 <= i < |v.db.logs| && v.db.logs[i].run == Some(run) && v.db.logs[i].card == c;
      assert i < |w.db.logs| && w.db.logs[i] == v.db.logs[i];
    }
  }

  lemma {:induction false} ExecConcat(w: World, a: seq<Event>, b: seq<Event>, run: string)
    ensures Exec(w, a + b) == Exec(Exec(w, a), b)
    ensures LateRight(w, a + b, run) == LateRight(w, a, run) + LateRight(Exec(w, a), b, run)
    decreases |a|
  {
    hide Step, LandsRight;
    if a == [] {
      assert a + b == b;
    } else {
      ExecConcat(Step(w, a[0]), a[1..], b, run);
      assert (a + b)[1..] == a[1..] + b;
    }
  }

  /** There is a way to go on in which every landable card is missed. */
  lemma {:induction false} AllCanLand(w: World, run: string) returns (es: seq<Event>)
    requires WorldInv(w) && Finished(w.db, run)
    ensures Finished(Exec(w, es).db, run) && LateRight(w, es, run) == |LandableCards(w, run)|
    decreases |LandableCards(w, run)|
  {
    var cards := LandableCards(w, run);
    if cards == {} {
      es := [];
    } else {
      var q :| q in w.requests && CanLand(w, q, run) && RightCard(w.db, w.requests[q], run).value in cards;
      hide Step, WorldInv, LandableCards, CanLand, RightCard, Finished, LateRight;
      var first := LandOne(w, q, run);
      var v := Exec(w, first);
      var rest := AllCanLand(v, run);
      ExecConcat(w, first, rest, run);
      es := first + rest;
    }
  }

  // ----- from the moment of finishing ---------------------------------------

  /** The stored score is the right answers on record. */
  predicate Exact(t: Tables, run: string) {
    run in t.runs && t.runs[run].correct == CountCorrect(t.logs, run)
  }

  /** A finish request about to commit, while its run is still open. */
  predicate AboutToFinish(w: World, req: nat, run: string) {
    && req in w.requests && w.requests[req].FinishSeen? && w.requests[req].runId == run
    && run in w.db.runs && w.db.runs[run].finishedAt.None?
  }

  /** At the commit nothing is missed, and nothing on its way is stopped. */
  lemma FinishScores(w: World, req: nat, run: string, now: int)
    requires WorldInv(w) && AboutToFinish(w, req, run)
    ensures var v := Step(w, FinishCommits(req, now));
            WorldInv(v) && Finished(v.db, run) && Exact(v.db, run) && LandableCards(v, run) == LandableCards(w, run)
  {
    hide *;
    var e := FinishCommits(req, now);
    var v := Step(w, e);
    StepPreserves(w, e);
    FinishGoes(w, req, run, now);
    Committed(w, req, run, now);
    forall c | c in LandableCards(v, run) ensures c in LandableCards(w, run) {
      var p := LandableBy(v, run, c);
      StillLandable(v, w, p, run);
      IsLandable(w, p, run);
    }
    forall c | c in LandableCards(w, run) ensures c in LandableCards(v, run) {
      var p := LandableBy(w, run, c);
      StillLandable(w, v, p, run);
      IsLandable(v, p, run);
    }
  }

  lemma FinishGoes(w: World, req: nat, run: string, now: int)
    requires WorldInv(w) && AboutToFinish(w, req, run)
    ensures FinishRun(w.db, run, now).1 == Done
  {
    WorldRunsSound(w);
    hide FinishRun, WorldInv, RunInv;
    FinishNeverRefused(w.db, run, now);
  }

  lemma Committed(w: World, req: nat, run: string, now: int)
    requires AboutToFinish(w, req, run) && FinishRun(w.db, run, now).1 == Done
    ensures var v := Step(w, FinishCommits(req, now));
            && Finished(v.db, run) && Exact(v.db, run) && v.requests.Keys == w.requests.Keys
            && v.db.logs == w.db.logs
            && forall p :: p in w.requests ==>
                 RightCard(v.db, v.requests[p], run) == RightCard(w.db, w.requests[p], run)
  {
    hide CountCorrect, FindQuestion, Grade;
  }

  /** The score falls short by at most the right answers on their way. */
  lemma ShortfallBound(w: World, req: nat, run: string, now: int, es: seq<Event>)
    requires WorldInv(w) && AboutToFinish(w, req, run)
    requires run in Exec(Step(w, FinishCommits(req, now)), es).db.runs
    ensures var t := Exec(Step(w, FinishCommits(req, now)), es).db;
            t.runs[run].correct <= CountCorrect(t.logs, run) <= t.runs[run].correct + |LandableCards(w, run)|
  {
    var v := Step(w, FinishCommits(req, now));
    FinishScores(w, req, run, now);
    hide Step, WorldInv, AboutToFinish, LandableCards, CountCorrect;
    ScoreMissesLateAnswers(v, es, run);
    AtMostLandable(v, es, run);
  }

  /** And it can fall short by all of them. */
  lemma ShortfallReached(w: World, req: nat, run: string, now: int) returns (es: seq<Event>)
    requires WorldInv(w) && AboutToFinish(w, req, run)
    ensures var t := Exec(Step(w, FinishCommits(req, now)), es).db;
            run in t.runs && CountCorrect(t.logs, run) == t.runs[run].correct + |LandableCards(w, run)|
  {
    var v := Step(w, FinishCommits(req, now));
    FinishScores(w, req, run, now);
    hide Step, WorldInv, AboutToFinish, LandableCards, CountCorrect;
    es := AllCanLand(v, run);
    ScoreMissesLateAnswers(v, es, run);
  }

  /** The score stays the right answers on record, whatever happens next, if
      and only if no right answer to an unanswered question is on its way. */
  lemma ScoreStaysExactIff(w: World, req: nat, run: string, now: int)
    requires WorldInv(w) && AboutToFinish(w, req, run)
    ensures (forall es :: run in Exec(Step(w, FinishCommits(req, now)), es).db.runs ==>
               Exact(Exec(Step(w, FinishCommits(req, now)), es).db, run))
            <==> forall q :: !CanLand(w, q, run)
  {
    var v := Step(w, FinishCommits(req, now));
    hide Step, WorldInv, AboutToFinish, LandableCards, CountCorrect, CanLand, Exec;
    if q :| CanLand(w, q, run) {
      IsLandable(w, q, run);
      var es := ShortfallReached(w, req, run, now);
      assert !Exact(Exec(v, es).db, run);
    } else {
      NothingLandable(w, run);
      forall es | run in Exec(v, es).db.runs ensures Exact(Exec(v, es).db, run) {
        ShortfallBound(w, req, run, now, es);
      }
    }
  }

  lemma NothingLandable(w: World, run: string)
    requires forall q :: !CanLand(w, q, run)
    ensures LandableCards(w, run) == {}
  {
    hide CanLand;
  }

  /** The answer requests that have read this run and not been replied to. */
  function AnswersPending(w: World, run: string): set<nat> {
    set q | q in w.requests && !w.requests[q].Replied? && !w.requests[q].FinishSeen? && w.requests[q].runId == run
  }

  lemma NotMoreThanPending(w: World, run: string)
    ensures |LandableCards(w, run)| <= |AnswersPending(w, run)|
  {
    forall c | c in LandableCards(w, run) ensures exists q :: q in AnswersPending(w, run) && NamesCard(w, q, c) {
      var q := LandableBy(w, run, c);
      assert q in AnswersPending(w, run) && NamesCard(w, q, c);
    }
    hide LandableCards, AnswersPending, CanLand;
    ImageNotLarger(w, AnswersPending(w, run), LandableCards(w, run));
  }

  predicate NamesCard(w: World, q: nat, card: string) {
    match (if q in w.requests then w.requests[q] else Replied(Internal))
    case AnswerOpen(_, c, _) => c == card
    case AnswerGraded(_, c, _, _, _) => c == card
    case AnswerTimed(_, c, _, _, _, _) => c == card
    case _ => false
  }

  lemma {:induction false} ImageNotLarger(w: World, qs: set<nat>, cards: set<string>)
    requires forall c :: c in cards ==> exists q :: q in qs && NamesCard(w, q, c)
    ensures |cards| <= |qs|
    decreases |qs|
  {
    if cards != {} {
      var c :| c in cards;
      var q :| q in qs && NamesCard(w, q, c);
      forall d | d in cards - {c} ensures exists p :: p in qs - {q} && NamesCard(w, p, d) {
        var p :| p in qs && NamesCard(w, p, d);
        assert p in qs - {q};
      }
      hide NamesCard;
      ImageNotLarger(w, qs - {q}, cards - {c});
    }
  }

  /** Read, graded, timed; then the run is finished; then the answer lands. */
  lemma LateAnswerLands(w: World, run: string, card: string, now: int, day: string)
    requires WorldInv(w) && run in w.db.runs && w.db.runs[run].finishedAt.None? && 1 !in w.requests && 2 !in w.requests
    requires run in w.db.questions && Asks(w.db.questions[run], card) && !Answered(w.db.logs, run, card)
    requires FindQuestion(w.db.questions[run], card).value.choice.None?
    ensures var t := Exec(w,
        [AnswerArrives(1, run, card, Body(Some(Ingat), None)), AnswerReadsQuestion(1), AnswerReadsSchedule(1),
                              FinishArrives(2, run), FinishCommits(2, now), AnswerInserts(1, day)]).db;
            && run in t.runs && t.runs[run].finishedAt == Some(now)
            && CountCorrect(t.logs, run) == t.runs[run].correct + 1
  {
    var e1 := AnswerArrives(1, run, card, Body(Some(Ingat), None));
    var e5, e6 := FinishCommits(2, now), AnswerInserts(1, day);
    var x := Step(Step(Step(w, e1), AnswerReadsQuestion(1)), AnswerReadsSchedule(1));
    var y := Step(x, FinishArrives(2, run));
    hide *;
    GetsReady(w, run, card);
    Overtaken(x, run, card);
    FinishScores(y, 2, run, now);
    OneLateLog(y, run, card, now, day);
    ExecSix(w, e1, AnswerReadsQuestion(1), AnswerReadsSchedule(1), FinishArrives(2, run), e5, e6);
  }

  /** A remembered answer to `card` about to be written. */
  predicate ReadyToWrite(w: World, run: string, card: string) {
    && 1 in w.requests && w.requests[1].AnswerTimed?
    && w.requests[1].runId == run && w.requests[1].cardId == card && w.requests[1].rating == Ingat
    && run in w.db.runs && w.db.runs[run].finishedAt.None? && !Answered(w.db.logs, run, card)
  }

  lemma GetsReady(w: World, run: string, card: string)
    requires WorldInv(w) && run in w.db.runs && w.db.runs[run].finishedAt.None? && 1 !in w.requests && 2 !in w.requests
    requires run in w.db.questions && Asks(w.db.questions[run], card) && !Answered(w.db.logs, run, card)
    requires FindQuestion(w.db.questions[run], card).value.choice.None?
    ensures var x := Step(Step(Step(w, AnswerArrives(1, run, card, Body(Some(Ingat), None))), AnswerReadsQuestion(1)),
                          AnswerReadsSchedule(1));
            WorldInv(x) && ReadyToWrite(x, run, card) && 2 !in x.requests
  {
    hide *;
    var e1 := AnswerArrives(1, run, card, Body(Some(Ingat), None));
    StepPreserves(w, e1);
    Arrives(w, run, card);
    var a := Step(w, e1);
    StepPreserves(a, AnswerReadsQuestion(1));
    Graded(a, run, card);
    StepPreserves(Step(a, AnswerReadsQuestion(1)), AnswerReadsSchedule(1));
  }

  lemma Arrives(w: World, run: string, card: string)
    requires run in w.db.runs && w.db.runs[run].finishedAt.None? && 1 !in w.requests
    ensures var body := Body(Some(Ingat), None);
            Step(w, AnswerArrives(1, run, card, body)) == World(w.db, w.requests[1 := AnswerOpen(run, card, body)])
  {
  }

  lemma Graded(a: World, run: string, card: string)
    requires 1 in a.requests && a.requests[1] == AnswerOpen(run, card, Body(Some(Ingat), None)) && 2 !in a.requests
    requires run in a.db.runs && a.db.runs[run].finishedAt.None?
    requires run in a.db.questions && Asks(a.db.questions[run], card) && !Answered(a.db.logs, run, card)
    requires FindQuestion(a.db.questions[run], card).value.choice.None?
    ensures var x := Step(Step(a, AnswerReadsQuestion(1)), AnswerReadsSchedule(1));
            ReadyToWrite(x, run, card) && 2 !in x.requests
  {
    hide Answered, FindQuestion, CurrentInterval;
  }

  lemma Overtaken(x: World, run: string, card: string)
    requires WorldInv(x) && ReadyToWrite(x, run, card) && 2 !in x.requests
    ensures var y := Step(x, FinishArrives(2, run));
            WorldInv(y) && ReadyToWrite(y, run, card) && AboutToFinish(y, 2, run)
  {
    hide *;
    StepPreserves(x, FinishArrives(2, run));
    FinishReads(x, run, card);
  }

  lemma FinishReads(x: World, run: string, card: string)
    requires ReadyToWrite(x, run, card) && 2 !in x.requests
    ensures var y := Step(x, FinishArrives(2, run)); ReadyToWrite(y, run, card) && AboutToFinish(y, 2, run)
  {
    hide Answered;
  }

  lemma OneLateLog(y: World, run: string, card: string, now: int, day: string)
    requires ReadyToWrite(y, run, card) && AboutToFinish(y, 2, run)
    requires Exact(Step(y, FinishCommits(2, now)).db, run) && Finished(Step(y, FinishCommits(2, now)).db, run)
    ensures var t := Step(Step(y, FinishCommits(2, now)), AnswerInserts(1, day)).db;
            && run in t.runs && t.runs[run].finishedAt == Some(now)
            && CountCorrect(t.logs, run) == t.runs[run].correct + 1
  {
    var v := Step(y, FinishCommits(2, now));
    var a := y.requests[1];
    var l := Log(card, Ingat, a.interval, a.interval, SetRun, Some(run), a.format, day);
    CountAppend(v.db.logs, l, run);
    hide CountCorrect, Answered;
    assert v.db.logs == y.db.logs && v.requests[1] == a;
    assert Step(v, AnswerInserts(1, day)).db == v.db.(logs := v.db.logs + [l]);
  }

  lemma ExecSix(w: World, a: Event, b: Event, c: Event, d: Event, e: Event, f: Event)
    ensures Exec(w, [a, b, c, d, e, f]) == Step(Step(Step(Step(Step(Step(w, a), b), c), d), e), f)
  {
    hide Step;
    assert [a, b, c, d, e, f] == [a, b, c, d] + [e, f] && [e, f] == [e] + [f];
    ExecConcat(w, [a, b, c, d], [e, f], "");
    ExecFour(w, a, b, c, d);
    var x := Exec(w, [a, b, c, d]);
    ExecConcat(x, [e], [f], "");
    OneStep(x, e, "");
    OneStep(Step(x, e), f, "");
  }
}
