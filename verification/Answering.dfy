/** What answering a question brings about: the reply and the log row, in terms
    of the rows and of what was sent. */
module Answering {
  import opened Text
  import opened Sequences
  import opened Calendar
  import opened Srs
  import opened Choices
  import opened Store
  import opened RunInvariant
  import opened ReplayInvariant
  import opened Protocol
  import opened LoggedDays

  /** The question of a run that asks this card; there is at most one. */
  ghost predicate AskedAs(t: Tables, run: string, card: string, q: Question) {
    run in t.questions && q in t.questions[run] && q.card == card
  }

  /** What the body says of a question: the word sent for plain recall, the
      option picked for a choice. */
  predicate Means(q: Question, body: Body, rating: Rating) {
    if q.choice.None? then body.rating == Some(rating)
    else
      && body.choice.Some? && 0 <= body.choice.value < CHOICE_COUNT == |q.choice.value.options|
      && q.choice.value.correctIndex < CHOICE_COUNT
      && (rating == Ingat <==>
            q.choice.value.options[body.choice.value] == q.choice.value.options[q.choice.value.correctIndex])
  }

  /** The days a live card's schedule stands on; none for a card in the trash. */
  predicate StandsOn(t: Tables, card: string, n: nat) {
    if Live(t, card) && Parse(LastReview(t, card)).Some? && card in t.schedules
    then DaysOff(t.schedules[card], DayOf(LastReview(t, card)), n)
    else n == 0
  }

  lemma GradeMeans(q: Question, body: Body)
    requires WellAsked(q)
    ensures match Grade(q, body)
            case Some(rating) => Means(q, body, rating)
            case None => forall rating :: !Means(q, body, rating)
  {
    hide Distinct;
    if q.choice.Some? && body.choice.Some? && 0 <= body.choice.value < CHOICE_COUNT {
      DistinctOptions(q.choice.value, body.choice.value);
    }
  }

  lemma DistinctOptions(c: Choice, picked: nat)
    requires |c.options| == CHOICE_COUNT && Distinct(c.options)
    requires c.correctIndex < CHOICE_COUNT && picked < CHOICE_COUNT
    ensures picked == c.correctIndex <==> c.options[picked] == c.options[c.correctIndex]
  {
    RightIndexIsRightText(c, c.options[c.correctIndex], Elements(c.options), picked);
  }

  lemma IntervalStandsOn(t: Tables, card: string)
    requires ReplayInv(t) && RealDays(t)
    ensures StandsOn(t, card, CurrentInterval(t, card))
  {
    if Live(t, card) && card in t.schedules {
      IntervalIsDays(t, card);
    }
    hide ReplayInv, RealDays, LastReview, DaysOff, Parse, DayOf;
  }

  lemma FoundIsTheOne(t: Tables, run: string, card: string, q: Question)
    requires RunsSound(t) && run in t.runs && AskedAs(t, run, card, q)
    ensures FindQuestion(t.questions[run], card) == Some(q) && WellAsked(q) && Asks(t.questions[run], card)
  {
    var qs := t.questions[run];
    assert SnapshotSound(qs) by { hide SnapshotSound, ScoreSound; }
    hide RunsSound, WellAsked;
    var i :| 0 <= i < |qs| && qs[i] == q;
    FindsTheQuestion(qs, i);
  }

  /** What the reply tells: the rating, and for a choice the card's back as it
      is now and the option that was right. */
  predicate Tells(t: Tables, q: Question, rating: Rating, reply: Reply) {
    && reply.AnswerReply? && reply.rating == rating
    && (q.choice.None? ==> reply.back == None && reply.correctIndex == None)
    && (q.choice.Some? ==>
          && reply.correctIndex == Some(q.choice.value.correctIndex)
          && reply.back == if q.card in t.cards then Some(t.cards[q.card].back) else None)
  }

  function FormatOf(q: Question): Format {
    if q.choice.Some? then MultipleChoice else Recall
  }

  lemma Graded(v: World, req: nat, run: string, card: string, q: Question, rating: Rating)
    requires WorldInv(v) && req in v.requests && v.requests[req].AnswerOpen?
    requires v.requests[req].runId == run && v.requests[req].cardId == card
    requires run in v.db.runs && AskedAs(v.db, run, card, q) && Means(q, v.requests[req].body, rating)
    ensures var g := Step(v, AnswerReadsQuestion(req));
            && req in g.requests && g.requests[req].AnswerGraded?
            && var a := g.requests[req];
               && a.runId == run && a.cardId == card && a.rating == rating && a.format == FormatOf(q)
               && Tells(v.db, q, rating, a.reply)
  {
    WorldRunsSound(v);
    FoundIsTheOne(v.db, run, card, q);
    GradeMeans(q, v.requests[req].body);
    hide WorldInv, RunsSound, RunInv, FindQuestion, Grade, WellAsked;
    assert Grade(q, v.requests[req].body) == Some(rating) by { hide Step; OneMeaning(q, v.requests[req].body); }
    hide Means;
  }

  lemma OneMeaning(q: Question, body: Body)
    ensures forall a, b :: Means(q, body, a) && Means(q, body, b) ==> a == b
  {
  }

  /** The request has this answer: it can only be told so, and its insert adds
      this row, once, as long as the run is there and the card unanswered. */
  ghost predicate Carries(t: Tables, x: World, req: nat, run: string, q: Question, rating: Rating, day: string) {
    && req in x.requests && req in Step(x, AnswerInserts(req, day)).requests
    && (x.requests[req].Replied? ==>
          x.requests[req].reply == Internal || Tells(t, q, rating, x.requests[req].reply))
    && (x.requests[req].AnswerTimed? ==>
          var told := Step(x, AnswerInserts(req, day)).requests[req];
          told.Replied? && if run in x.db.runs then Tells(t, q, rating, told.reply) else told.reply == Internal)
    && var after := Step(x, AnswerInserts(req, day)).db.logs;
       if x.requests[req].AnswerTimed? && run in x.db.runs && !Answered(x.db.logs, run, q.card)
       then exists n :: after == x.db.logs + [Log(q.card, rating, n, n, SetRun, Some(run), FormatOf(q), day)]
       else after == x.db.logs
  }

  /** From the question read to the reply and the log row, however the others
      interleave: what is told and what is logged is what the body meant of the
      question, and a body that means nothing is refused and logs nothing. */
  lemma AnsweredAsMeant(v: World, req: nat, run: string, card: string, q: Question, es: seq<Event>, day: string)
    requires WorldInv(v) && req in v.requests && v.requests[req].AnswerOpen?
    requires v.requests[req].runId == run && v.requests[req].cardId == card
    requires run in v.db.runs && AskedAs(v.db, run, card, q)
    ensures var body := v.requests[req].body;
            var x := Exec(Step(v, AnswerReadsQuestion(req)), es);
            && (forall rating :: Means(q, body, rating) ==> Carries(v.db, x, req, run, q, rating, day))
            && ((forall rating :: !Means(q, body, rating)) ==>
                  && req in x.requests && x.requests[req] == Replied(BadRequest)
                  && Step(x, AnswerInserts(req, day)) == x)
  {
    var body := v.requests[req].body;
    hide *;
    forall rating | Means(q, body, rating)
      ensures Carries(v.db, Exec(Step(v, AnswerReadsQuestion(req)), es), req, run, q, rating, day)
    {
      MeantIsCarried(v, req, run, card, q, rating, es, day);
    }
    if forall rating :: !Means(q, body, rating) {
      Refused(v, req, run, card, q);
      var g := Step(v, AnswerReadsQuestion(req));
      RepliedStays(g, es, req);
      RepliedLogsNothing(Exec(g, es), req, day);
    }
  }

  lemma MeantIsCarried(v: World, req: nat, run: string, card: string, q: Question, rating: Rating, es: seq<Event>,
                       day: string)
    requires WorldInv(v) && req in v.requests && v.requests[req].AnswerOpen?
    requires v.requests[req].runId == run && v.requests[req].cardId == card
    requires run in v.db.runs && AskedAs(v.db, run, card, q) && Means(q, v.requests[req].body, rating)
    ensures Carries(v.db, Exec(Step(v, AnswerReadsQuestion(req)), es), req, run, q, rating, day)
  {
    var g := Step(v, AnswerReadsQuestion(req));
    Graded(v, req, run, card, q, rating);
    assert q.card == card;
    hide WorldInv, Step, Exec, Means, Tells, AskedAs, FormatOf;
    GradedStays(g, es, req);
    InsertsExactly(Exec(g, es), req, day, g.requests[req]);
  }

  lemma InsertsExactly(x: World, req: nat, day: string, a: Request)
    requires a.AnswerGraded? && req in x.requests && SameAnswer(a, x.requests[req])
    ensures req in Step(x, AnswerInserts(req, day)).requests
    ensures x.requests[req].AnswerTimed? ==>
              Step(x, AnswerInserts(req, day)).requests[req]
                == Replied(if a.runId in x.db.runs then a.reply else Internal)
    ensures var after := Step(x, AnswerInserts(req, day)).db.logs;
            if x.requests[req].AnswerTimed? && a.runId in x.db.runs && !Answered(x.db.logs, a.runId, a.cardId)
            then exists n ::
              after == x.db.logs + [Log(a.cardId, a.rating, n, n, SetRun, Some(a.runId), a.format, day)]
            else after == x.db.logs
  {
    hide Answered;
    if x.requests[req].AnswerTimed? && a.runId in x.db.runs && !Answered(x.db.logs, a.runId, a.cardId) {
      var n := x.requests[req].interval;
      assert Step(x, AnswerInserts(req, day)).db.logs
          == x.db.logs + [Log(a.cardId, a.rating, n, n, SetRun, Some(a.runId), a.format, day)];
    }
  }

  /** Who is turned away: arriving and reading the question with nothing in
      between, a request is told exactly what is wrong with it. */
  lemma TurnedAwayIff(w: World, req: nat, run: string, card: string, body: Body)
    requires WorldInv(w) && req !in w.requests
    ensures var t := w.db;
            var g := Step(Step(w, AnswerArrives(req, run, card, body)), AnswerReadsQuestion(req));
            var finished := run in t.runs && t.runs[run].finishedAt.Some?;
            var asked := exists q :: AskedAs(t, run, card, q);
            var meant := exists q, rating :: AskedAs(t, run, card, q) && Means(q, body, rating);
            && req in g.requests && g.db == t
            && (g.requests[req] == Replied(NotFound) <==> run !in t.runs || (!finished && !asked))
            && (g.requests[req] == Replied(Conflict) <==> finished)
            && (g.requests[req] == Replied(BadRequest) <==> run in t.runs && !finished && asked && !meant)
            && (g.requests[req].AnswerGraded? <==> run in t.runs && !finished && meant)
  {
    var t := w.db;
    var v := Step(w, AnswerArrives(req, run, card, body));
    if run in t.runs && t.runs[run].finishedAt.None? {
      ArrivedSound(w, AnswerArrives(req, run, card, body));
      assert v == w.(requests := w.requests[req := AnswerOpen(run, card, body)]) by { hide WorldInv; }
      if q :| AskedAs(t, run, card, q) {
        OneQuestion(w, run, card, q);
        hide WorldInv, Step, AskedAs;
        if rating :| Means(q, body, rating) {
          Graded(v, req, run, card, q, rating);
        } else {
          Refused(v, req, run, card, q);
        }
        SameDb(v, req);
      } else {
        NotAsked(v, req, run, card);
      }
    }
  }

  lemma Refused(v: World, req: nat, run: string, card: string, q: Question)
    requires WorldInv(v) && req in v.requests && v.requests[req].AnswerOpen?
    requires v.requests[req].runId == run && v.requests[req].cardId == card
    requires run in v.db.runs && AskedAs(v.db, run, card, q)
    requires forall rating :: !Means(q, v.requests[req].body, rating)
    ensures req in Step(v, AnswerReadsQuestion(req)).requests
    ensures Step(v, AnswerReadsQuestion(req)).requests[req] == Replied(BadRequest)
  {
    WorldRunsSound(v);
    FoundIsTheOne(v.db, run, card, q);
    GradeMeans(q, v.requests[req].body);
    hide WorldInv, RunsSound, RunInv, FindQuestion, Grade, WellAsked, Means;
  }

  lemma {:induction false} RepliedStays(w: World, es: seq<Event>, req: nat)
    requires req in w.requests && w.requests[req].Replied?
    ensures req in Exec(w, es).requests && Exec(w, es).requests[req] == w.requests[req]
    decreases |es|
  {
    if es != [] {
      RepliedStep(w, es[0], req);
      hide Step;
      RepliedStays(Step(w, es[0]), es[1..], req);
    }
  }

  lemma RepliedStep(w: World, e: Event, req: nat)
    requires req in w.requests && w.requests[req].Replied?
    ensures req in Step(w, e).requests && Step(w, e).requests[req] == w.requests[req]
  {
    hide InsertAnswer, FinishRun, Grade, CurrentInterval, AnswerReplyFor, Apply, FindQuestion;
  }

  lemma RepliedLogsNothing(x: World, req: nat, day: string)
    requires req in x.requests && x.requests[req].Replied?
    ensures Step(x, AnswerInserts(req, day)) == x
  {
  }

  /** The interval logged with an answer is the days the card's schedule stood
      on when the request read it. */
  lemma AnswerLogsItsInterval(w: World, req: nat, es: seq<Event>, day: string)
    requires WorldInv(w) && RealDays(w.db) && req in w.requests && w.requests[req].AnswerGraded?
    ensures var a := w.requests[req];
            var x := Exec(Step(w, AnswerReadsSchedule(req)), es);
            var after := Step(x, AnswerInserts(req, day)).db.logs;
            || after == x.db.logs
            || exists n :: StandsOn(w.db, a.cardId, n)
                 && after == x.db.logs + [Log(a.cardId, a.rating, n, n, SetRun, Some(a.runId), a.format, day)]
  {
    var a := w.requests[req];
    var n := CurrentInterval(w.db, a.cardId);
    IntervalStandsOn(w.db, a.cardId) by { hide Sound, RealDays, StandsOn, CurrentInterval; }
    hide WorldInv, StandsOn, CurrentInterval, RealDays, Exec;
    var y := Step(w, AnswerReadsSchedule(req));
    assert y.requests[req] == AnswerTimed(a.runId, a.cardId, a.rating, a.format, a.reply, n);
    GradedStays(y, es, req);
    TimedInserts(Exec(y, es), req, day, y.requests[req]);
  }

  lemma TimedInserts(x: World, req: nat, day: string, a: Request)
    requires a.AnswerTimed? && req in x.requests && SameAnswer(a, x.requests[req])
    ensures var after := Step(x, AnswerInserts(req, day)).db.logs;
            || after == x.db.logs
            || after == x.db.logs
                 + [Log(a.cardId, a.rating, a.interval, a.interval, SetRun, Some(a.runId), a.format, day)]
  {
    hide Answered;
  }

  /** A finish is turned away exactly when its run is not there; otherwise it
      goes by the run as it is. */
  lemma FinishTurnedAwayIff(w: World, req: nat, run: string)
    requires req !in w.requests
    ensures var v := Step(w, FinishArrives(req, run));
            && req in v.requests && v.db == w.db
            && (v.requests[req] == Replied(NotFound) <==> run !in w.db.runs)
            && (run in w.db.runs ==> v.requests[req] == FinishSeen(run, w.db.runs[run]))
  {
  }

  lemma ArrivedSound(w: World, e: Event)
    requires WorldInv(w)
    ensures WorldInv(Step(w, e))
  {
    StepPreserves(w, e);
  }

  lemma OneQuestion(w: World, run: string, card: string, q: Question)
    requires WorldInv(w) && run in w.db.runs && AskedAs(w.db, run, card, q)
    ensures forall p :: AskedAs(w.db, run, card, p) ==> p == q
  {
    WorldRunsSound(w);
    forall p | AskedAs(w.db, run, card, p) ensures p == q {
      FoundIsTheOne(w.db, run, card, p);
      FoundIsTheOne(w.db, run, card, q);
    }
  }

  lemma SameDb(v: World, req: nat)
    ensures Step(v, AnswerReadsQuestion(req)).db == v.db
  {
  }

  lemma NotAsked(v: World, req: nat, run: string, card: string)
    requires req in v.requests && v.requests[req].AnswerOpen?
    requires v.requests[req].runId == run && v.requests[req].cardId == card
    requires forall q :: !AskedAs(v.db, run, card, q)
    ensures var g := Step(v, AnswerReadsQuestion(req));
            req in g.requests && g.db == v.db && g.requests[req] == Replied(NotFound)
  {
    if run in v.db.questions {
      var found := FindQuestion(v.db.questions[run], card);
      assert found.Some? ==> AskedAs(v.db, run, card, found.value);
    }
    hide FindQuestion;
  }
}
