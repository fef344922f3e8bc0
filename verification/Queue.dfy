/** The due queue over the tables: what ListDueCards returns, and that the
    daily cap starves no card. */
module Queue {
  import opened Text
  import opened Sequences
  import opened Calendar
  import opened Srs
  import opened Store

  predicate Scheduled(t: Tables, id: string) {
    Live(t, id) && id in t.schedules && t.schedules[id].state == Learning && t.schedules[id].nextReview.Some?
  }

  function DayDue(t: Tables, id: string): int
    requires Scheduled(t, id)
  {
    t.schedules[id].nextReview.value
  }

  predicate IsDue(t: Tables, id: string, day: int) {
    Scheduled(t, id) && DayDue(t, id) <= day
  }

  /** ORDER BY next_review_date, id. */
  predicate QueueBefore(t: Tables, a: string, b: string) {
    && Scheduled(t, a) && Scheduled(t, b)
    && (DayDue(t, a) < DayDue(t, b) || (DayDue(t, a) == DayDue(t, b) && LexLt(a, b)))
  }

  /** What CountDueCards counts. */
  function DueSet(t: Tables, day: int): set<string> {
    set id | id in t.cards && IsDue(t, id, day)
  }

  /** What ListDueCards returns: the first `limit` due cards in queue order. */
  ghost predicate IsDueList(t: Tables, day: int, limit: nat, ids: seq<string>) {
    && (forall i :: 0 <= i < |ids| ==> IsDue(t, ids[i], day))
    && (forall i, j :: 0 <= i < j < |ids| ==> QueueBefore(t, ids[i], ids[j]))
    && |ids| == (if |DueSet(t, day)| < limit then |DueSet(t, day)| else limit)
    && (forall x, i :: x in DueSet(t, day) && x !in ids && 0 <= i < |ids| ==> QueueBefore(t, ids[i], x))
  }

  /** On the rows: each listed card is live and being learned with its date
      come, the oldest date first and the lower id on ties, and a card with its
      date come is missing only from a full list, with none younger on it. */
  lemma DueOnRows(t: Tables, day: int, limit: nat, ids: seq<string>, i: nat, j: nat, x: string)
    requires IsDueList(t, day, limit, ids) && i < j < |ids| && x in t.cards && x in t.schedules
    ensures ids[i] in t.cards && ids[j] in t.cards && ids[i] in t.schedules && ids[j] in t.schedules
    ensures var a, b, c := t.schedules[ids[i]], t.schedules[ids[j]], t.schedules[x];
            var due := t.cards[x].deletedAt.None? && c.state == Learning && c.nextReview.Some?
                       && c.nextReview.value <= day;
            && t.cards[ids[i]].deletedAt.None? && a.state == Learning
            && a.nextReview.Some? && b.nextReview.Some? && a.nextReview.value <= b.nextReview.value <= day
            && (a.nextReview == b.nextReview ==> LexLt(ids[i], ids[j]))
            && (x in ids ==> due)
            && (due && x !in ids ==>
                  && |ids| == limit && b.nextReview.value <= c.nextReview.value
                  && (b.nextReview == c.nextReview ==> LexLt(ids[j], x)))
  {
    assert QueueBefore(t, ids[i], ids[j]) && IsDue(t, ids[i], day) && IsDue(t, ids[j], day);
    if IsDue(t, x, day) && x !in ids {
      assert x in DueSet(t, day) && QueueBefore(t, ids[j], x);
      FullList(t, day, limit, ids, x);
    }
  }

  lemma FullList(t: Tables, day: int, limit: nat, ids: seq<string>, x: string)
    requires IsDueList(t, day, limit, ids) && x in DueSet(t, day) && x !in ids
    ensures |ids| == limit
  {
    DueListDistinct(t, day, limit, ids);
    hide QueueBefore, IsDue, DueSet;
    if |ids| == |DueSet(t, day)| {
      CardinalityGrows(Elements(ids), DueSet(t, day));
    }
  }

  lemma QueueTotal(t: Tables, a: string, b: string)
    requires Scheduled(t, a) && Scheduled(t, b)
    ensures QueueBefore(t, a, b) || a == b || QueueBefore(t, b, a)
    ensures !(QueueBefore(t, a, b) && QueueBefore(t, b, a))
    ensures QueueBefore(t, a, b) ==> a != b
  {
    LexTotal(a, b);
  }

  lemma DueListDistinct(t: Tables, day: int, limit: nat, ids: seq<string>)
    requires IsDueList(t, day, limit, ids)
    ensures Distinct(ids) && Elements(ids) <= DueSet(t, day) && |Elements(ids)| == |ids|
  {
    forall i, j | 0 <= i < j < |ids| ensures ids[i] != ids[j] {
      QueueTotal(t, ids[i], ids[j]);
    }
    DistinctCount(ids);
  }

  // ----- no starvation ------------------------------------------------------

  /** The cards a due card still has in front of it. */
  function Ahead(t: Tables, x: string): set<string>
    requires Scheduled(t, x)
  {
    set id | id in t.cards && QueueBefore(t, id, x)
  }

  /** A due card is shown exactly when fewer than `limit` are ahead of it. */
  lemma ShownIff(t: Tables, x: string, day: int, limit: nat, shown: seq<string>)
    requires IsDue(t, x, day) && IsDueList(t, day, limit, shown)
    ensures x in shown <==> |Ahead(t, x)| < limit
    ensures x !in shown ==> Elements(shown) <= Ahead(t, x) && |shown| == limit
  {
    DueListDistinct(t, day, limit, shown);
    assert x in DueSet(t, day);
    if x in shown {
      var k :| 0 <= k < |shown| && shown[k] == x;
      forall a | a in Ahead(t, x) ensures a in Elements(shown) - {x} {
        QueueTotal(t, a, x);
        assert a in DueSet(t, day);
      }
      CardinalityGrows(Ahead(t, x), Elements(shown) - {x});
      assert |Elements(shown) - {x}| == |shown| - 1;
    } else {
      if |shown| < limit { CardinalityGrows(Elements(shown), DueSet(t, day)); }
      CardinalityGrows(Elements(shown), Ahead(t, x));
    }
  }

  predicate KeysInv(t: Tables) {
    t.schedules.Keys == t.cards.Keys
  }

  lemma KeysPreserved(t: Tables, tx: Tx)
    requires KeysInv(t)
    ensures KeysInv(Apply(t, tx).0)
  {
    hide Next, NewSchedule, ToTimePtr, FromTimePtr, IntervalDays, AskedOk, DrawOk, Snapshot, CountCorrect, Answered,
         Without, Distinct, IsOpen, Purgeable, Detach;
    var u := Apply(t, tx).0;
    assert u.cards.Keys == u.schedules.Keys;
  }

  /** The column a date `k` days on is stored as. */
  lemma StoredDay(today: string, k: int)
    requires Parse(today).Some?
    ensures ToTimePtr(AddDays(today, k)) == if InRange(DayOf(today) + k) then Ok(Some(DayOf(today) + k)) else Err
  {
    hide Parse, AddDays, FromTime, InRange, DayOf;
    AddDaysIs(today, k);
    FromTimeParse(DayOf(today) + k);
    hide ToTime;
    TimeRoundTrips("", DayOf(today) + k);
  }

  /** A review on `today` leaves the card unscheduled or due strictly later. */
  predicate DueAfter(row: ScheduleRow, day: int) {
    row.state == Learning && row.nextReview.Some? ==> row.nextReview.value > day
  }

  lemma NextIsLater(cur: Schedule, rating: Rating, today: string)
    requires Parse(today).Some?
    ensures var next := Next(cur, rating, today);
            var due := ToTimePtr(next.nextReview);
            && (due.Ok? && due.value.Some? ==> due.value.value > DayOf(today))
            && (InRange(DayOf(today) + 180) ==> due.Ok?)
  {
    hide Parse, AddDays, DayOf, InRange, ToTimePtr;
    EmptyDate();
    SmallerInRange(today);
    StoredDay(today, LADDER[0]);
    assert LADDER[0] in LADDER;
    if cur.stage + 1 < |LADDER| {
      assert LADDER[cur.stage + 1] in LADDER;
      StoredDay(today, LADDER[cur.stage + 1]);
    }
  }

  lemma RatedIsLater(t: Tables, id: string, rating: Rating, today: string)
    requires Parse(today).Some?
    ensures var (u, out) := Rate(t, id, rating, today);
            && u.cards == t.cards && u.schedules.Keys == t.schedules.Keys
            && (forall y :: y in t.schedules && y != id ==> u.schedules[y] == t.schedules[y])
            && (out == Done ==> id in u.schedules && DueAfter(u.schedules[id], DayOf(today)))
            && (out != Done ==> u == t)
            && (InRange(DayOf(today) + 180) && Live(t, id) && id in t.schedules ==> out == Done)
  {
    hide Parse, DayOf, InRange, Next, ToTimePtr, FromTimePtr, IntervalDays;
    if Live(t, id) && id in t.schedules { NextIsLater(ToSchedule(id, t.schedules[id]), rating, today); }
  }

  lemma EmptyDate()
    ensures ToTimePtr("") == Ok(None)
  {
  }

  lemma SmallerInRange(today: string)
    requires Parse(today).Some?
    ensures InRange(DayOf(today) + 180) ==> forall k :: k in LADDER ==> InRange(DayOf(today) + k)
  {
    FromTimeDayOf(today);
    var day := DayOf(today);
    hide *;
    SmallerDays(day);
  }

  lemma SmallerDays(day: int)
    requires InRange(day)
    ensures InRange(day + 180) ==> forall k :: k in LADDER ==> InRange(day + k)
  {
  }

  /** Between rounds: anything but restoring cards, and nothing that reviews
      or deletes `x` itself. */
  predicate Quiet(tx: Tx, x: string) {
    && !tx.TxRestoreCards?
    && !(tx.TxRate? && tx.id == x)
    && !(tx.TxDeleteCards? && x in tx.ids)
  }

  function TxDay(tx: Tx, day: int): int {
    if (tx.TxCreateCard? || tx.TxRate?) && Parse(tx.today).Some? then DayOf(tx.today) else day
  }

  predicate DatedFrom(tx: Tx, day: int) {
    tx.TxCreateCard? || tx.TxRate? ==> Parse(tx.today).Some? && day <= DayOf(tx.today)
  }

  /** Every schedule after a quiet transaction is one from before, or is due
      after the day it was written on; and nothing comes back to life. */
  lemma QuietRows(t: Tables, tx: Tx, x: string, day: int, y: string)
    requires KeysInv(t) && Quiet(tx, x) && DatedFrom(tx, day)
    ensures var u := Apply(t, tx).0;
            && (x in t.cards && Live(t, x) ==> Live(u, x) && x in u.schedules && u.schedules[x] == t.schedules[x])
            && (Live(u, y) && y in u.schedules ==>
                  || DueAfter(u.schedules[y], TxDay(tx, day))
                  || (Live(t, y) && u.schedules[y] == t.schedules[y]))
  {
    hide Parse, DayOf, AddDays, ToTimePtr, AskedOk, DrawOk, Snapshot, CountCorrect, Detach, InRange;
    match tx
    case TxRate(_, _, _) =>
      hide Rate, PurgeCards, StartRun;
      RatedIsLater(t, tx.id, tx.rating, tx.today);
    case TxCreateCard(_, _, _) =>
      hide Rate, PurgeCards, StartRun;
      StoredDay(tx.today, LADDER[0]);
    case TxPurge(_) => hide Rate, CreateCard, Without, HasLog, HasQuestion, StartRun;
    case _ => hide Rate, PurgeCards, CreateCard;
  }

  lemma QuietKeepsOrder(t: Tables, tx: Tx, x: string, day: int)
    requires KeysInv(t) && Quiet(tx, x) && DatedFrom(tx, day) && IsDue(t, x, day)
    ensures var u := Apply(t, tx).0;
            && KeysInv(u) && IsDue(u, x, TxDay(tx, day))
            && Ahead(u, x) <= Ahead(t, x)
  {
    hide Apply, Quiet, Parse, DayOf;
    KeysPreserved(t, tx);
    QuietRows(t, tx, x, day, x);
    var u := Apply(t, tx).0;
    forall y | y in Ahead(u, x) ensures y in Ahead(t, x) {
      QuietRows(t, tx, x, day, y);
      assert u.schedules[y] == t.schedules[y];
    }
  }

  // ----- rounds -------------------------------------------------------------

  function RateAll(t: Tables, ids: seq<string>, ratings: seq<Rating>, today: string): Tables
    requires |ids| == |ratings|
    decreases |ids|
  {
    if ids == [] then t else RateAll(Rate(t, ids[0], ratings[0], today).0, ids[1..], ratings[1..], today)
  }

  lemma {:induction false} RateAllMovesOnly(t: Tables, ids: seq<string>, ratings: seq<Rating>, today: string)
    requires |ids| == |ratings| && Parse(today).Some? && InRange(DayOf(today) + 180)
    requires forall i :: 0 <= i < |ids| ==> Live(t, ids[i]) && ids[i] in t.schedules
    ensures var u := RateAll(t, ids, ratings, today);
            && u.cards == t.cards && u.schedules.Keys == t.schedules.Keys
            && (forall y :: y in t.schedules && y !in ids ==> u.schedules[y] == t.schedules[y])
            && (forall y :: y in t.schedules && y in ids ==> DueAfter(u.schedules[y], DayOf(today)))
    decreases |ids|
  {
    hide Rate, Parse, DayOf, InRange, DueAfter;
    if ids != [] {
      RatedIsLater(t, ids[0], ratings[0], today);
      var v := Rate(t, ids[0], ratings[0], today).0;
      assert forall i :: 0 <= i < |ids| ==> Live(v, ids[i]);
      RateAllMovesOnly(v, ids[1..], ratings[1..], today);
      var u := RateAll(t, ids, ratings, today);
      assert ids == [ids[0]] + ids[1..];
      forall y | y in t.schedules && y in ids ensures DueAfter(u.schedules[y], DayOf(today)) {
        if y !in ids[1..] { assert y == ids[0]; assert u.schedules[y] == v.schedules[y]; }
      }
    }
  }

  datatype Beat = Between(tx: Tx) | Round(today: string, shown: seq<string>, ratings: seq<Rating>)

  /** A run of quiet transactions and rounds, the day never going back, each
      round showing ListDueCards and rating all of it, until `x` is shown. */
  ghost predicate Fair(t: Tables, beats: seq<Beat>, x: string, day: int, limit: nat)
    decreases |beats|
  {
    beats == [] ||
    match beats[0]
    case Between(tx) => Quiet(tx, x) && DatedFrom(tx, day) && Fair(Apply(t, tx).0, beats[1..], x, TxDay(tx, day), limit)
    case Round(today, shown, ratings) =>
      && |shown| == |ratings|
      && Parse(today).Some? && day <= DayOf(today) && InRange(DayOf(today) + 180)
      && IsDueList(t, DayOf(today), limit, shown)
      && (x in shown || Fair(RateAll(t, shown, ratings, today), beats[1..], x, DayOf(today), limit))
  }

  function Rounds(beats: seq<Beat>): nat {
    if beats == [] then 0 else (if beats[0].Round? then 1 else 0) + Rounds(beats[1..])
  }

  /** `x` is among the cards shown in one of the first `n` rounds. */
  predicate ShownBy(beats: seq<Beat>, x: string, n: nat) {
    beats != [] && n > 0 &&
    match beats[0]
    case Between(_) => ShownBy(beats[1..], x, n)
    case Round(_, shown, _) => x in shown || ShownBy(beats[1..], x, n - 1)
  }

  /** A round that does not show `x` takes exactly `limit` cards out of its way. */
  lemma RoundAdvances(t: Tables, x: string, today: string, limit: nat, shown: seq<string>, ratings: seq<Rating>)
    requires KeysInv(t) && |shown| == |ratings| && Parse(today).Some? && InRange(DayOf(today) + 180)
    requires IsDue(t, x, DayOf(today)) && IsDueList(t, DayOf(today), limit, shown) && x !in shown
    ensures var u := RateAll(t, shown, ratings, today);
            && KeysInv(u) && IsDue(u, x, DayOf(today))
            && Ahead(u, x) <= Ahead(t, x) - Elements(shown)
            && |Ahead(u, x)| <= |Ahead(t, x)| - limit
  {
    hide Parse, DayOf, InRange, RateAll;
    ShownIff(t, x, DayOf(today), limit, shown);
    DueListDistinct(t, DayOf(today), limit, shown);
    RateAllMovesOnly(t, shown, ratings, today);
    hide IsDueList;
    var u := RateAll(t, shown, ratings, today);
    forall y | y in Ahead(u, x) ensures y in Ahead(t, x) && y !in Elements(shown) {
      assert y in shown ==> DueAfter(u.schedules[y], DayOf(today));
    }
    CardinalityGrows(Ahead(u, x), Ahead(t, x) - Elements(shown));
    assert |Ahead(t, x) - Elements(shown)| == |Ahead(t, x)| - |Elements(shown)|;
  }

  /** `n` rounds of `limit` cards are enough for fewer than `n * limit` ahead. */
  lemma {:induction false} ShownInTime(t: Tables, beats: seq<Beat>, x: string, day: int, limit: nat, n: nat, most: nat)
    requires limit > 0 && KeysInv(t) && IsDue(t, x, day) && Fair(t, beats, x, day, limit)
    requires most == n * limit && |Ahead(t, x)| < most && Rounds(beats) >= n
    ensures ShownBy(beats, x, n)
    decreases |beats|
  {
    hide Apply, RateAll, KeysInv, Parse, DayOf, InRange, IsDueList, Quiet, DatedFrom, TxDay, Ahead, Scheduled, DayDue;
    OneRoundLess(n, limit);
    match beats[0]
    case Between(tx) =>
      QuietKeepsOrder(t, tx, x, day);
      var u := Apply(t, tx).0;
      CardinalityGrows(Ahead(u, x), Ahead(t, x));
      ShownInTime(u, beats[1..], x, TxDay(tx, day), limit, n, most);
    case Round(today, shown, ratings) =>
      if x !in shown {
        StillDue(t, x, day, DayOf(today));
        RoundAdvances(t, x, today, limit, shown, ratings);
        ShownInTime(RateAll(t, shown, ratings, today), beats[1..], x, DayOf(today), limit, n - 1, most - limit);
      }
  }

  lemma StillDue(t: Tables, x: string, day: int, later: int)
    requires IsDue(t, x, day) && day <= later
    ensures IsDue(t, x, later)
  {
  }

  lemma OneRoundLess(n: nat, limit: nat)
    ensures n > 0 ==> n * limit - limit == (n - 1) * limit
    ensures n * limit > 0 ==> n > 0
  {
  }

  /** No starvation under the daily cap: with k cards ahead of it, a due card
      is shown by round k / limit + 1. */
  lemma NoStarvation(t: Tables, beats: seq<Beat>, x: string, day: int, limit: nat)
    requires limit > 0 && KeysInv(t) && IsDue(t, x, day) && Fair(t, beats, x, day, limit)
    requires Rounds(beats) > |Ahead(t, x)| / limit
    ensures ShownBy(beats, x, |Ahead(t, x)| / limit + 1)
  {
    hide KeysInv, Fair, Rounds, ShownBy, Ahead, Scheduled, DayDue;
    RoundsEnough(|Ahead(t, x)|, limit);
    ShownInTime(t, beats, x, day, limit, |Ahead(t, x)| / limit + 1, (|Ahead(t, x)| / limit + 1) * limit);
  }

  lemma RoundsEnough(k: nat, limit: nat)
    requires limit > 0
    ensures k < (k / limit + 1) * limit
  {
    assert (k / limit + 1) * limit == k / limit * limit + limit;
  }
}
