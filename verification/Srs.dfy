/** The spaced-repetition engine: the ladder, the two ratings, the replay of a
    card's history, and the capped due queue. */
module Srs {
  import opened Text
  import opened Calendar

  const LADDER: seq<nat> := [1, 3, 7, 14, 30, 90, 180]
  const TOP := 6
  const DEFAULT_DUE_LIMIT := 10

  datatype Rating = Ingat | Lupa
  datatype State = Learning | Mastered

  datatype Schedule = Schedule(
    cardId: string,
    stage: nat,
    nextReview: string,  // empty once mastered
    lapses: nat,
    state: State)

  function NewSchedule(cardId: string, today: string): Schedule {
    Schedule(cardId, 0, AddDays(today, LADDER[0]), 0, Learning)
  }

  function Next(cur: Schedule, rating: Rating, today: string): Schedule {
    if rating == Lupa then
      cur.(stage := 0, lapses := cur.lapses + 1, state := Learning, nextReview := AddDays(today, LADDER[0]))
    else if cur.stage + 1 >= |LADDER| then
      cur.(stage := TOP, state := Mastered, nextReview := "")
    else
      cur.(stage := cur.stage + 1, state := Learning, nextReview := AddDays(today, LADDER[cur.stage + 1]))
  }

  function Master(cur: Schedule): Schedule {
    cur.(state := Mastered, nextReview := "")
  }

  /** The rung a schedule sits on, in days; zero when it is not scheduled. */
  function IntervalDays(s: Schedule): nat {
    if s.state != Learning || s.nextReview == "" then 0
    else if s.stage >= |LADDER| then 0
    else LADDER[s.stage]
  }

  // ----- replay -------------------------------------------------------------

  /** One review of a card: the outcome and the local day it belongs to. */
  datatype Review = Review(rating: Rating, day: string)

  function Replay(cardId: string, captured: string, history: seq<Review>): Schedule {
    if history == [] then NewSchedule(cardId, captured)
    else
      var last := history[|history| - 1];
      Next(Replay(cardId, captured, history[..|history| - 1]), last.rating, last.day)
  }

  /** How many reviews in a row, counted from the latest, were remembered. */
  function Streak(history: seq<Review>): (n: nat)
    ensures n <= |history|
  {
    if history == [] || history[|history| - 1].rating == Lupa then 0
    else 1 + Streak(history[..|history| - 1])
  }

  function Forgotten(history: seq<Review>): nat {
    if history == [] then 0
    else Forgotten(history[..|history| - 1]) + (if history[|history| - 1].rating == Lupa then 1 else 0)
  }

  function LastDay(captured: string, history: seq<Review>): string {
    if history == [] then captured else history[|history| - 1].day
  }

  /** A replay in closed form: only the current streak, the number of lapses
      and the last day matter. Mastered is exactly seven in a row. */
  lemma {:induction false} ReplayClosedForm(cardId: string, captured: string, history: seq<Review>)
    ensures Replay(cardId, captured, history) ==
            var streak := Streak(history);
            if streak > TOP then Schedule(cardId, TOP, "", Forgotten(history), Mastered)
            else Schedule(cardId, streak, AddDays(LastDay(captured, history), LADDER[streak]), Forgotten(history),
                Learning)
  {
    hide AddDays;
    if history != [] {
      ReplayClosedForm(cardId, captured, history[..|history| - 1]);
    }
  }

  /** `Master` leaves the stage alone, so it breaks "mastered is the top
      rung", and remembering such a card puts it back to learning; both
      happen exactly below the top. */
  lemma MasterBelowTop(cardId: string, captured: string, history: seq<Review>, today: string)
    ensures var m := Master(Replay(cardId, captured, history));
            && (m.stage != TOP <==> Streak(history) < TOP)
            && (Next(m, Ingat, today).state == Learning <==> Streak(history) < TOP)
  {
    hide AddDays;
    ReplayClosedForm(cardId, captured, history);
  }

  // ----- the due queue ------------------------------------------------------

  predicate Eligible(s: Schedule, today: string) {
    s.state == Learning && s.nextReview != "" && LexLe(s.nextReview, today)
  }

  /** Oldest date first, then card id. */
  predicate Before(a: Schedule, b: Schedule) {
    LexLt(a.nextReview, b.nextReview) || (a.nextReview == b.nextReview && LexLt(a.cardId, b.cardId))
  }

  lemma BeforeTotal(a: Schedule, b: Schedule)
    ensures !(Before(a, b) && Before(b, a))
    ensures a.cardId != b.cardId ==> Before(a, b) || Before(b, a)
  {
    LexTotal(a.nextReview, b.nextReview);
    LexTotal(a.cardId, b.cardId);
  }

  lemma BeforeTrans(a: Schedule, b: Schedule, c: Schedule)
    ensures Before(a, b) && Before(b, c) ==> Before(a, c)
    ensures !Before(b, a) && !Before(c, b) ==> !Before(c, a)
  {
    LexTotal(a.nextReview, b.nextReview);
    LexTotal(b.nextReview, c.nextReview);
    LexTotal(a.nextReview, c.nextReview);
    LexTotal(a.cardId, b.cardId);
    LexTotal(b.cardId, c.cardId);
    LexTotal(a.cardId, c.cardId);
    if LexLt(a.nextReview, b.nextReview) && LexLt(b.nextReview, c.nextReview) {
      LexTrans(a.nextReview, b.nextReview, c.nextReview);
    }
    if LexLt(a.cardId, b.cardId) && LexLt(b.cardId, c.cardId) { LexTrans(a.cardId, b.cardId, c.cardId); }
  }

  function Filter(s: seq<Schedule>, today: string): seq<Schedule> {
    if s == [] then []
    else if Eligible(s[|s| - 1], today) then Filter(s[..|s| - 1], today) + [s[|s| - 1]]
    else Filter(s[..|s| - 1], today)
  }

  /** sort.SliceStable by `Before`: an element goes in front of its equals
      that came after it. */
  function Insert(x: Schedule, s: seq<Schedule>): seq<Schedule> {
    if s == [] || !Before(s[0], x) then [x] + s else [s[0]] + Insert(x, s[1..])
  }

  function SortStable(s: seq<Schedule>): seq<Schedule> {
    if s == [] then [] else Insert(s[0], SortStable(s[1..]))
  }

  ghost predicate Sorted(s: seq<Schedule>) {
    forall i, j :: 0 <= i < j < |s| ==> !Before(s[j], s[i])
  }

  lemma {:induction false} InsertSorts(x: Schedule, s: seq<Schedule>)
    requires Sorted(s)
    ensures Sorted(Insert(x, s)) && multiset(Insert(x, s)) == multiset(s) + multiset{x}
  {
    if s != [] {
      assert s == [s[0]] + s[1..];
      if !Before(s[0], x) {
        forall j | 0 <= j < |s| ensures !Before(s[j], x) { BeforeTrans(x, s[0], s[j]); BeforeTotal(x, x); }
      } else {
        InsertSorts(x, s[1..]);
        BeforeTotal(s[0], x);
        var r := Insert(x, s[1..]);
        forall j | 0 <= j < |r| ensures !Before(r[j], s[0]) {
          assert r[j] in multiset(r);
          assert r[j] == x || r[j] in s[1..];
        }
      }
    }
  }

  lemma {:induction false} SortSorts(s: seq<Schedule>)
    ensures Sorted(SortStable(s)) && multiset(SortStable(s)) == multiset(s)
  {
    if s != [] {
      SortSorts(s[1..]);
      InsertSorts(s[0], SortStable(s[1..]));
      assert s == [s[0]] + s[1..];
    }
  }

  lemma {:induction false} FilterMembers(s: seq<Schedule>, today: string, x: Schedule)
    ensures multiset(Filter(s, today))[x] == if Eligible(x, today) then multiset(s)[x] else 0
  {
    if s != [] {
      FilterMembers(s[..|s| - 1], today, x);
      assert s == s[..|s| - 1] + [s[|s| - 1]];
    }
  }

  /** One schedule per card: the id names the row. */
  ghost predicate OneRowPerCard(s: seq<Schedule>) {
    forall x, y :: x in s && y in s && x.cardId == y.cardId ==> x == y
  }

  function Cap(limit: int): (n: nat)
    ensures n > 0
  {
    if limit <= 0 then DEFAULT_DUE_LIMIT else limit
  }

  function Take(s: seq<Schedule>, n: nat): seq<Schedule> {
    if |s| > n then s[..n] else s
  }

  function DueSpec(schedules: seq<Schedule>, today: string, limit: int): seq<Schedule> {
    Take(SortStable(Filter(schedules, today)), Cap(limit))
  }

  method Due(schedules: seq<Schedule>, today: string, limit: int) returns (due: seq<Schedule>)
    ensures due == DueSpec(schedules, today, limit)
  {
    var cap := limit;
    if cap <= 0 { cap := DEFAULT_DUE_LIMIT; }
    due := [];
    for i := 0 to |schedules|
      invariant due == Filter(schedules[..i], today)
    {
      assert schedules[..i + 1][..i] == schedules[..i];
      var s := schedules[i];
      if s.state != Learning || s.nextReview == "" { continue; }
      if LexLe(s.nextReview, today) { due := due + [s]; }
    }
    assert schedules[..|schedules|] == schedules;
    due := SortStable(due);
    if |due| > cap { due := due[..cap]; }
  }

  lemma FilterIn(s: seq<Schedule>, today: string, x: Schedule)
    ensures x in Filter(s, today) <==> x in s && Eligible(x, today)
  {
    FilterMembers(s, today, x);
    assert x in s <==> x in multiset(s);
    assert x in Filter(s, today) <==> x in multiset(Filter(s, today));
  }

  lemma TakeSmallest(sorted: seq<Schedule>, n: nat, i: nat, x: Schedule)
    requires Sorted(sorted)
    ensures var due := Take(sorted, n);
            && Sorted(due)
            && multiset(sorted) == multiset(due) + multiset(sorted[|due|..])
            && (i < |due| && x in multiset(sorted) - multiset(due) ==> !Before(x, due[i]))
  {
    var due := Take(sorted, n);
    var rest := sorted[|due|..];
    assert sorted == due + rest;
    if i < |due| && x in multiset(rest) {
      var k :| 0 <= k < |rest| && rest[k] == x;
      assert sorted[|due| + k] == x && sorted[i] == due[i];
    }
  }

  /** The queue is the `limit` smallest eligible schedules: sorted, nothing
      invented, nothing duplicated, and nothing left out comes first. */
  lemma DueIsSmallest(schedules: seq<Schedule>, today: string, limit: int, x: Schedule, i: nat)
    ensures var due := DueSpec(schedules, today, limit);
            var all := multiset(Filter(schedules, today));
            && Sorted(due)
            && multiset(due) <= all
            && (var cap := if limit <= 0 then 10 else limit; |due| == if |all| < cap then |all| else cap)
            && (i < |due| && x in all - multiset(due) ==> !Before(x, due[i]))
    ensures x in Filter(schedules, today) <==> x in schedules && Eligible(x, today)
  {
    hide Before, Eligible, Sorted;
    var found := Filter(schedules, today);
    SortSorts(found);
    FilterIn(schedules, today, x);
    TakeSmallest(SortStable(found), Cap(limit), i, x);
    assert |SortStable(found)| == |multiset(SortStable(found))| == |multiset(found)|;
  }

  lemma SameHead(s: seq<Schedule>, t: seq<Schedule>)
    requires s != [] && t != [] && Sorted(s) && Sorted(t) && OneRowPerCard(s)
    requires s[0] in t && t[0] in s
    ensures s[0] == t[0]
  {
    var i :| 0 <= i < |t| && t[i] == s[0];
    var j :| 0 <= j < |s| && s[j] == t[0];
    assert s[0] in s;
    BeforeTotal(s[0], t[0]);
    hide Before;
  }

  lemma Tail(s: seq<Schedule>)
    requires s != []
    ensures Sorted(s) ==> Sorted(s[1..])
    ensures OneRowPerCard(s) ==> OneRowPerCard(s[1..])
    ensures multiset(s[1..]) == multiset(s) - multiset{s[0]}
  {
    hide Before;
    assert s == [s[0]] + s[1..];
  }

  lemma {:induction false} SortedUnique(s: seq<Schedule>, t: seq<Schedule>)
    requires Sorted(s) && Sorted(t) && multiset(s) == multiset(t) && OneRowPerCard(s)
    ensures s == t
  {
    hide Before, Sorted, OneRowPerCard;
    assert |s| == |multiset(s)| == |multiset(t)| == |t|;
    if s != [] {
      assert s[0] in multiset(t) && t[0] in multiset(s);
      SameHead(s, t);
      Tail(s);
      Tail(t);
      SortedUnique(s[1..], t[1..]);
      assert s == [s[0]] + s[1..] && t == [t[0]] + t[1..];
    }
  }

  /** The same queue for every order of the same cards. */
  lemma DueIgnoresOrder(a: seq<Schedule>, b: seq<Schedule>, today: string, limit: int)
    requires OneRowPerCard(a) && multiset(a) == multiset(b)
    ensures DueSpec(a, today, limit) == DueSpec(b, today, limit)
  {
    hide Before, Eligible, Sorted;
    var fa, fb := Filter(a, today), Filter(b, today);
    forall x ensures multiset(fa)[x] == multiset(fb)[x] {
      FilterMembers(a, today, x);
      FilterMembers(b, today, x);
    }
    SortSorts(fa);
    SortSorts(fb);
    assert OneRowPerCard(SortStable(fa)) by {
      forall x | x in SortStable(fa) ensures x in a {
        assert x in multiset(SortStable(fa)) && x in multiset(fa);
        FilterIn(a, today, x);
      }
    }
    SortedUnique(SortStable(fa), SortStable(fb));
  }
}
