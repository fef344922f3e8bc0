/** One account's tables, and every transaction the server runs on them as a
    function from tables to tables. Random draws, fresh ids and clocks are
    arguments; a transaction that fails leaves the tables as they were. */
module Store {
  import opened Text
  import opened Sequences
  import opened Calendar
  import opened Srs
  import opened Choices

  datatype Card = Card(
    domain: Option<string>,
    categories: set<string>,
    front: string,
    back: string,
    deletedAt: Option<int>,
    captured: string)  // the local day createSchedule was given

  datatype ScheduleRow = ScheduleRow(stage: nat, nextReview: Option<int>, lapses: nat, state: State)

  datatype Source = DueQueue | SetRun
  datatype Format = Recall | MultipleChoice

  datatype Log = Log(
    card: string,
    rating: Rating,
    before: nat,
    after: nat,
    source: Source,
    run: Option<string>,
    format: Format,
    day: string)

  datatype ReviewSet = ReviewSet(
    fixed: bool,
    questionCount: nat,
    isChoice: bool,
    domains: set<string>,
    categories: set<string>,
    pinned: seq<string>,
    archived: bool)

  datatype Run = Run(setId: string, runDate: string, finishedAt: Option<int>, total: nat, correct: nat)

  datatype Question = Question(card: string, choice: Option<Choice>)

  datatype Tables = Tables(
    cards: map<string, Card>,
    schedules: map<string, ScheduleRow>,
    logs: seq<Log>,
    sets: map<string, ReviewSet>,
    runs: map<string, Run>,
    questions: map<string, seq<Question>>,  // by run, in position order
    issued: set<string>)                    // every run id ever generated: uuids do not repeat

  const EMPTY := Tables(map[], map[], [], map[], map[], map[], {})

  datatype Outcome = Done | Missing | Refused | Resumed(run: string)

  // ----- cards --------------------------------------------------------------

  predicate Live(t: Tables, id: string) {
    id in t.cards && t.cards[id].deletedAt.None?
  }

  function ToSchedule(id: string, row: ScheduleRow): Schedule {
    Schedule(id, row.stage, FromTimePtr(row.nextReview), row.lapses, row.state)
  }

  function CreateCard(t: Tables, id: string, card: Card, today: string): (Tables, Outcome) {
    var first := NewSchedule(id, today);
    var due := ToTimePtr(first.nextReview);
    if id in t.cards || due.Err? then (t, Refused)
    else
      var row := ScheduleRow(first.stage, due.value, 0, first.state);
      (t.(cards := t.cards[id := card.(deletedAt := None, captured := today)],
          schedules := if id in t.schedules then t.schedules else t.schedules[id := row]), Done)
  }

  function UpdateCard(t: Tables, id: string, card: Card): (Tables, Outcome) {
    if !Live(t, id) then (t, Missing)
    else
      (t.(cards := t.cards[id := t.cards[id].(domain := card.domain, categories := card.categories,
          front := card.front, back := card.back)]), Done)
  }

  function DeleteCards(t: Tables, ids: set<string>, now: int): (Tables, Outcome) {
    (t.(cards := map id | id in t.cards ::
                   if id in ids && t.cards[id].deletedAt.None? then t.cards[id].(deletedAt := Some(now))
                       else t.cards[id]), Done)
  }

  function RestoreCards(t: Tables, ids: set<string>): (Tables, Outcome) {
    (t.(cards := map id | id in t.cards ::
                   if id in ids then t.cards[id].(deletedAt := None) else t.cards[id]), Done)
  }

  predicate HasLog(t: Tables, id: string) {
    exists i :: 0 <= i < |t.logs| && t.logs[i].card == id
  }

  predicate Asks(qs: seq<Question>, id: string) {
    exists i :: 0 <= i < |qs| && qs[i].card == id
  }

  predicate HasQuestion(t: Tables, id: string) {
    exists r :: r in t.questions && Asks(t.questions[r], id)
  }

  predicate Purgeable(t: Tables, id: string, cutoff: int) {
    && id in t.cards
    && t.cards[id].deletedAt.Some? && t.cards[id].deletedAt.value < cutoff
    && !HasLog(t, id)
    && !HasQuestion(t, id)
  }

  function Without(ids: seq<string>, gone: set<string>): (kept: seq<string>)
    ensures forall x :: x in kept <==> x in ids && x !in gone
    ensures Distinct(ids) ==> Distinct(kept)
  {
    if ids == [] then []
    else if ids[0] in gone then Without(ids[1..], gone)
    else [ids[0]] + Without(ids[1..], gone)
  }

  /** PurgeDeletedCards, with the cascades to the schedule and to pinned cards. */
  function PurgeCards(t: Tables, cutoff: int): (Tables, Outcome) {
    var gone := set id | id in t.cards && Purgeable(t, id, cutoff);
    (t.(cards := t.cards - gone,
        schedules := t.schedules - gone,
        sets := map s | s in t.sets :: t.sets[s].(pinned := Without(t.sets[s].pinned, gone))), Done)
  }

  // ----- reviews ------------------------------------------------------------

  /** What handleRate writes, from the row it read: the schedule and the log
      row commit together or not at all. */
  function RateWrite(t: Tables, id: string, read: ScheduleRow, rating: Rating, today: string): (Tables, Outcome) {
    var current := ToSchedule(id, read);
    var next := Next(current, rating, today);
    var due := ToTimePtr(next.nextReview);
    if due.Err? then (t, Refused)
    else if id !in t.schedules then (t, Missing)
    else
      var row := ScheduleRow(next.stage, due.value, next.lapses, next.state);
      var log := Log(id, rating, IntervalDays(current), IntervalDays(next), DueQueue, None, Recall, today);
      (t.(schedules := t.schedules[id := row], logs := t.logs + [log]), Done)
  }

  /** handleRate with nothing in between: read, then write. */
  function Rate(t: Tables, id: string, rating: Rating, today: string): (Tables, Outcome) {
    if !Live(t, id) || id !in t.schedules then (t, Missing)
    else RateWrite(t, id, t.schedules[id], rating, today)
  }

  // ----- review sets --------------------------------------------------------

  /** Creating, editing, archiving and unarchiving a set with its pinned cards. */
  function SaveSet(t: Tables, id: string, s: ReviewSet): (Tables, Outcome) {
    if (forall i :: 0 <= i < |s.pinned| ==> s.pinned[i] in t.cards) && Distinct(s.pinned)
        && (s.fixed || s.questionCount > 0)
    then (t.(sets := t.sets[id := s]), Done)
    else (t, Refused)
  }

  function DeleteSet(t: Tables, id: string): (Tables, Outcome) {
    if id !in t.sets then (t, Missing)
    else if exists r :: r in t.runs && t.runs[r].setId == id then (t, Refused)
    else (t.(sets := t.sets - {id}), Done)
  }

  // ----- runs ---------------------------------------------------------------

  predicate IsOpen(t: Tables, r: string, setId: string) {
    r in t.runs && t.runs[r].setId == setId && t.runs[r].finishedAt.None?
  }

  /** The draw scope: OR inside domains and inside categories, AND between. */
  predicate InScope(c: Card, domains: set<string>, categories: set<string>) {
    && (domains == {} || (c.domain.Some? && c.domain.value in domains))
    && (categories == {} || c.categories * categories != {})
  }

  function Eligibles(t: Tables, s: ReviewSet): set<string> {
    set id | id in t.cards && Live(t, id) && InScope(t.cards[id], s.domains, s.categories)
  }

  function LiveOnly(t: Tables, ids: seq<string>): (kept: seq<string>)
    ensures forall x :: x in kept <==> x in ids && Live(t, x)
    ensures Distinct(ids) ==> Distinct(kept)
  {
    if ids == [] then []
    else if Live(t, ids[0]) then [ids[0]] + LiveOnly(t, ids[1..])
    else LiveOnly(t, ids[1..])
  }

  /** What drawQuestions may return. */
  predicate DrawOk(t: Tables, s: ReviewSet, draw: seq<string>) {
    if s.fixed then draw == LiveOnly(t, s.pinned)
    else
      && Distinct(draw)
      && Elements(draw) <= Eligibles(t, s)
      && |draw| == if |Eligibles(t, s)| < s.questionCount then |Eligibles(t, s)| else s.questionCount
  }

  /** Distinct non-empty backs of live cards inside a scope. */
  function LiveBacks(t: Tables, domains: set<string>, categories: set<string>): set<string> {
    set id | id in t.cards && Live(t, id) && t.cards[id].back != "" && InScope(t.cards[id], domains, categories) ::
        t.cards[id].back
  }

  function BacksOf(t: Tables, draw: seq<string>): map<string, string> {
    map id | id in Elements(draw) && Live(t, id) :: t.cards[id].back
  }

  /** What buildChoices may return. */
  ghost predicate AskedOk(t: Tables, s: ReviewSet, draw: seq<string>, asked: map<string, Choice>) {
    var backs := BacksOf(t, draw);
    var account := LiveBacks(t, {}, {});
    && (forall q :: q in asked <==> s.isChoice && q in draw && Askable(q, backs, account))
    && (forall q :: q in asked ==> q in backs && IsChoice(asked[q], backs[q], account))
  }

  function Snapshot(draw: seq<string>, asked: map<string, Choice>): (qs: seq<Question>)
    ensures |qs| == |draw|
  {
    seq(|draw|, i requires 0 <= i < |draw| =>
        Question(draw[i], if draw[i] in asked then Some(asked[draw[i]]) else None))
  }

  /** What store.StartRun writes once it has drawn: refused by the foreign key
      when the set is gone, by the unique index when a run of it is open. */
  ghost function StartWrite(t: Tables, setId: string, runId: string, draw: seq<string>, asked: map<string, Choice>,
                            runDate: string): (Tables, Outcome) {
    if setId !in t.sets || runId in t.issued || exists r :: IsOpen(t, r, setId) then (t, Refused)
    else
      (t.(runs := t.runs[runId := Run(setId, runDate, None, 0, 0)],
          questions := t.questions[runId := Snapshot(draw, asked)],
          issued := t.issued + {runId}), Done)
  }

  /** store.StartRun with nothing in between: read, draw, then write. */
  ghost function StartRun(t: Tables, setId: string, runId: string, draw: seq<string>, asked: map<string, Choice>,
                          runDate: string): (Tables, Outcome) {
    if setId !in t.sets || t.sets[setId].archived then (t, Missing)
    else if exists r :: IsOpen(t, r, setId) then
      var r :| IsOpen(t, r, setId);
      (t, Resumed(r))
    else if draw == [] || !DrawOk(t, t.sets[setId], draw) || !AskedOk(t, t.sets[setId], draw, asked) then (t, Refused)
    else StartWrite(t, setId, runId, draw, asked, runDate)
  }

  predicate Answered(logs: seq<Log>, run: string, card: string) {
    exists i :: 0 <= i < |logs| && logs[i].run == Some(run) && logs[i].card == card
  }

  /** InsertSetAnswer: refused when the run is gone, ignored when answered. */
  function InsertAnswer(t: Tables, run: string, card: string, rating: Rating, interval: nat, format: Format,
              day: string): (Tables, Outcome) {
    if run !in t.runs then (t, Refused)
    else if Answered(t.logs, run, card) then (t, Done)
    else (t.(logs := t.logs + [Log(card, rating, interval, interval, SetRun, Some(run), format, day)]), Done)
  }

  function CountCorrect(logs: seq<Log>, run: string): nat {
    if logs == [] then 0
    else
      var l := logs[|logs| - 1];
      CountCorrect(logs[..|logs| - 1], run) + (if l.run == Some(run) && l.rating == Ingat then 1 else 0)
  }

  /** FinishRun: both counts recomputed; the CHECK constraint last. */
  function FinishRun(t: Tables, run: string, now: int): (Tables, Outcome) {
    if run !in t.runs || t.runs[run].finishedAt.Some? || run !in t.questions then (t, Missing)
    else
      var total, correct := |t.questions[run]|, CountCorrect(t.logs, run);
      if correct > total then (t, Refused)
      else (t.(runs := t.runs[run := t.runs[run].(finishedAt := Some(now), total := total, correct := correct)]), Done)
  }

  function Detach(logs: seq<Log>, run: string): (ls: seq<Log>)
    ensures |ls| == |logs|
    ensures forall i :: 0 <= i < |logs| ==> ls[i] == if logs[i].run == Some(run) then logs[i].(run := None) else logs[i]
  {
    seq(|logs|, i requires 0 <= i < |logs| => if logs[i].run == Some(run) then logs[i].(run := None) else logs[i])
  }

  /** DeleteRun: the snapshot cascades, the answers stay with no run. */
  function DiscardRun(t: Tables, run: string): (Tables, Outcome) {
    if run !in t.runs then (t, Missing)
    else (t.(runs := t.runs - {run}, questions := t.questions - {run}, logs := Detach(t.logs, run)), Done)
  }

  // ----- one transaction ----------------------------------------------------

  datatype Tx =
    | TxCreateCard(id: string, card: Card, today: string)
    | TxUpdateCard(id: string, card: Card)
    | TxDeleteCards(ids: set<string>, now: int)
    | TxRestoreCards(ids: set<string>)
    | TxPurge(cutoff: int)
    | TxRate(id: string, rating: Rating, today: string)
    | TxSaveSet(setId: string, set_: ReviewSet)
    | TxDeleteSet(setId: string)
    | TxStartRun(setId: string, runId: string, draw: seq<string>, asked: map<string, Choice>, runDate: string)
    | TxInsertAnswer(runId: string, cardId: string, rating: Rating, interval: nat, format: Format, day: string)
    | TxFinishRun(runId: string, now: int)
    | TxDiscardRun(runId: string)

  ghost function Apply(t: Tables, tx: Tx): (Tables, Outcome) {
    match tx
    case TxCreateCard(id, card, today) => CreateCard(t, id, card, today)
    case TxUpdateCard(id, card) => UpdateCard(t, id, card)
    case TxDeleteCards(ids, now) => DeleteCards(t, ids, now)
    case TxRestoreCards(ids) => RestoreCards(t, ids)
    case TxPurge(cutoff) => PurgeCards(t, cutoff)
    case TxRate(id, rating, today) => Rate(t, id, rating, today)
    case TxSaveSet(setId, s) => SaveSet(t, setId, s)
    case TxDeleteSet(setId) => DeleteSet(t, setId)
    case TxStartRun(setId, runId, draw, asked, runDate) => StartRun(t, setId, runId, draw, asked, runDate)
    case TxInsertAnswer(run, card, rating, interval, format, day) =>
        InsertAnswer(t, run, card, rating, interval, format, day)
    case TxFinishRun(run, now) => FinishRun(t, run, now)
    case TxDiscardRun(run) => DiscardRun(t, run)
  }
}
