/** srs.Due over the account's schedules and ListDueCards over its rows are the
    same queue: date text in one, date columns in the other. */
module Agreement {
  import opened Text
  import opened Sequences
  import opened Calendar
  import opened Srs
  import opened Store
  import opened Queue

  function CardIds(s: seq<Schedule>): (ids: seq<string>)
    ensures |ids| == |s| && forall i :: 0 <= i < |s| ==> ids[i] == s[i].cardId
  {
    seq(|s|, i requires 0 <= i < |s| => s[i].cardId)
  }

  /** `s` holds the schedule of every live card, once, in any order. */
  ghost predicate Lists(t: Tables, s: seq<Schedule>) {
    && Distinct(CardIds(s))
    && (forall i :: 0 <= i < |s| ==>
        Live(t, s[i].cardId) && s[i].cardId in t.schedules && s[i] == ToSchedule(s[i].cardId, t.schedules[s[i].cardId]))
    && (forall id :: id in t.cards && Live(t, id) && id in t.schedules ==> id in CardIds(s))
  }

  predicate DatesStored(t: Tables) {
    forall id :: id in t.schedules && t.schedules[id].nextReview.Some? ==> InRange(t.schedules[id].nextReview.value)
  }

  /** Stored dates always are representable: every transaction keeps it so. */
  lemma DatesStayStored(t: Tables, tx: Tx)
    requires DatesStored(t)
    ensures DatesStored(Apply(t, tx).0)
  {
    hide InRange, Next, NewSchedule, FromTimePtr, IntervalDays, AskedOk, DrawOk, Snapshot, CountCorrect, Answered,
         Without, Distinct, IsOpen, Purgeable, Detach, Live;
  }

  lemma EligibleIsDue(t: Tables, id: string, day: int)
    requires Live(t, id) && id in t.schedules && DatesStored(t) && InRange(day)
    ensures Eligible(ToSchedule(id, t.schedules[id]), FromTime(day)) <==> IsDue(t, id, day)
  {
    hide FromTime, InRange, LexLe;
    var row := t.schedules[id];
    if row.nextReview.Some? {
      FromTimeOrder(row.nextReview.value, day);
      FromTimeParse(row.nextReview.value);
    }
  }

  lemma BeforeIsQueueBefore(t: Tables, a: string, b: string)
    requires Scheduled(t, a) && Scheduled(t, b) && DatesStored(t)
    ensures Before(ToSchedule(a, t.schedules[a]), ToSchedule(b, t.schedules[b])) <==> QueueBefore(t, a, b)
  {
    hide FromTime, InRange, LexLt;
    var x, y := DayDue(t, a), DayDue(t, b);
    FromTimeOrder(x, y);
    FromTimeOrder(y, x);
    if FromTime(x) == FromTime(y) { FromTimeInjective(x, y); }
  }

  lemma ListedByIndex(t: Tables, s: seq<Schedule>, x: Schedule)
    requires Lists(t, s)
    ensures x in s ==> Live(t, x.cardId) && x.cardId in t.schedules && x == ToSchedule(x.cardId, t.schedules[x.cardId])
  {
  }

  lemma CardIdsIn(s: seq<Schedule>, id: string)
    ensures id in CardIds(s) <==> exists x :: x in s && x.cardId == id
  {
    if id in CardIds(s) {
      var i :| 0 <= i < |s| && CardIds(s)[i] == id;
      assert s[i] in s;
    }
    if x :| x in s && x.cardId == id {
      var i :| 0 <= i < |s| && s[i] == x;
      assert CardIds(s)[i] == id;
    }
  }

  /** Any reordering of listed schedules lists no card twice. */
  lemma StillDistinct(s: seq<Schedule>, g: seq<Schedule>)
    requires Distinct(CardIds(s)) && OneRowPerCard(s) && multiset(g) <= multiset(s)
    ensures Distinct(CardIds(g))
  {
    assert Distinct(s) by {
      forall i, j | 0 <= i < j < |s| ensures s[i] != s[j] { assert CardIds(s)[i] != CardIds(s)[j]; }
    }
    forall i, j | 0 <= i < j < |g| ensures CardIds(g)[i] != CardIds(g)[j] {
      if g[i].cardId == g[j].cardId {
        assert g[i] in multiset(s) && g[j] in multiset(s);
        assert g[i] == g[j];
        TwiceInMultiset(g, i, j);
        OnceInMultiset(s, g[i]);
      }
    }
  }

  lemma ListedOnce(t: Tables, s: seq<Schedule>)
    requires Lists(t, s)
    ensures OneRowPerCard(s)
  {
    forall x, y | x in s && y in s && x.cardId == y.cardId ensures x == y {
      ListedByIndex(t, s, x);
      ListedByIndex(t, s, y);
    }
  }

  /** The due queue in text, seen as ids over the rows. */
  lemma FilterIsDueSet(t: Tables, s: seq<Schedule>, day: int)
    requires Lists(t, s) && DatesStored(t) && InRange(day)
    ensures var f := Filter(s, FromTime(day));
            && Distinct(CardIds(f)) && Elements(CardIds(f)) == DueSet(t, day) && |f| == |DueSet(t, day)|
            && multiset(f) <= multiset(s)
  {
    hide InRange, FromTime, Eligible, IsDue, Live;
    var today := FromTime(day);
    var f := Filter(s, today);
    forall x ensures multiset(f)[x] <= multiset(s)[x] { FilterMembers(s, today, x); }
    ListedOnce(t, s);
    StillDistinct(s, f);
    forall id ensures id in CardIds(f) <==> id in DueSet(t, day) {
      CardIdsIn(f, id);
      CardIdsIn(s, id);
      DueSetMember(t, s, id, day);
      if id in CardIds(f) {
        var x :| x in f && x.cardId == id;
        FilterIn(s, today, x);
      }
      if id in DueSet(t, day) {
        var x :| x in s && x.cardId == id && Eligible(x, today);
        FilterIn(s, today, x);
      }
    }
    DistinctCount(CardIds(f));
  }

  lemma DueSetMember(t: Tables, s: seq<Schedule>, id: string, day: int)
    requires Lists(t, s) && DatesStored(t) && InRange(day)
    ensures id in DueSet(t, day) <==> exists x :: x in s && x.cardId == id && Eligible(x, FromTime(day))
  {
    hide InRange, FromTime, Eligible, DatesStored;
    if id in DueSet(t, day) {
      CardIdsIn(s, id);
      var x :| x in s && x.cardId == id;
      ListedByIndex(t, s, x);
      EligibleIsDue(t, id, day);
    }
    if x :| x in s && x.cardId == id && Eligible(x, FromTime(day)) {
      ListedByIndex(t, s, x);
      EligibleIsDue(t, id, day);
    }
  }

  /** A schedule from the queue is a due row's. */
  lemma QueuedRow(t: Tables, s: seq<Schedule>, day: int, x: Schedule)
    requires Lists(t, s) && DatesStored(t) && InRange(day) && x in Filter(s, FromTime(day))
    ensures x in s && IsDue(t, x.cardId, day) && x == ToSchedule(x.cardId, t.schedules[x.cardId])
  {
    hide FromTime, InRange, Eligible, IsDue, FromTimePtr;
    FilterIn(s, FromTime(day), x);
    ListedByIndex(t, s, x);
    EligibleIsDue(t, x.cardId, day);
  }

  lemma QueuedOrder(t: Tables, s: seq<Schedule>, day: int, x: Schedule, y: Schedule)
    requires Lists(t, s) && DatesStored(t) && InRange(day) && x in Filter(s, FromTime(day))
        && y in Filter(s, FromTime(day))
    requires !Before(y, x) && x.cardId != y.cardId
    ensures IsDue(t, x.cardId, day) && IsDue(t, y.cardId, day) && QueueBefore(t, x.cardId, y.cardId)
  {
    hide FromTime, InRange, Lists, DatesStored, Filter, Before, ToSchedule;
    QueuedRow(t, s, day, x);
    QueuedRow(t, s, day, y);
    BeforeIsQueueBefore(t, y.cardId, x.cardId);
    QueueTotal(t, x.cardId, y.cardId);
  }

  lemma QueueFacts(t: Tables, s: seq<Schedule>, day: int, limit: int)
    requires Lists(t, s) && DatesStored(t) && InRange(day)
    ensures var due := DueSpec(s, FromTime(day), limit);
            && Distinct(CardIds(due)) && Sorted(due)
            && |due| == (if |DueSet(t, day)| < Cap(limit) then |DueSet(t, day)| else Cap(limit))
            && (forall i :: 0 <= i < |due| ==> due[i] in Filter(s, FromTime(day)))
  {
    hide DatesStored, FromTime, InRange, DueSet, Before, Filter, DueSpec, Lists, Eligible, OneRowPerCard;
    var today := FromTime(day);
    var due := DueSpec(s, today, limit);
    FilterIsDueSet(t, s, day);
    ListedOnce(t, s);
    assert Distinct(CardIds(s)) by { AllListed(t, s); }
    DueIsSmallest(s, today, limit, Schedule("", 0, "", 0, Learning), 0);
    StillDistinct(s, due);
    forall i | 0 <= i < |due| ensures due[i] in Filter(s, today) {
      assert due[i] in multiset(due) && due[i] in multiset(Filter(s, today));
    }
  }

  lemma AllListed(t: Tables, s: seq<Schedule>)
    requires Lists(t, s)
    ensures Distinct(CardIds(s))
  {
  }

  /** srs.Due's answer is a ListDueCards answer. */
  lemma DueIsDueList(t: Tables, s: seq<Schedule>, day: int, limit: int)
    requires Lists(t, s) && DatesStored(t) && InRange(day)
    ensures IsDueList(t, day, Cap(limit), CardIds(DueSpec(s, FromTime(day), limit)))
  {
    hide Lists, DatesStored, InRange, FromTime, Before, QueueBefore, Filter, DueSpec, IsDue, DueSet, Cap;
    QueueFacts(t, s, day, limit);
    var due := DueSpec(s, FromTime(day), limit);
    var ids := CardIds(due);
    forall i | 0 <= i < |ids| ensures IsDue(t, ids[i], day) {
      QueuedRow(t, s, day, due[i]);
    }
    forall i, j | 0 <= i < j < |ids| ensures QueueBefore(t, ids[i], ids[j]) {
      QueuedOrder(t, s, day, due[i], due[j]);
    }
    forall id, i | id in DueSet(t, day) && id !in ids && 0 <= i < |ids| ensures QueueBefore(t, ids[i], id) {
      LeftOutIsLater(t, s, day, limit, id, i);
    }
  }

  lemma LeftOutIsLater(t: Tables, s: seq<Schedule>, day: int, limit: int, id: string, i: nat)
    requires Lists(t, s) && DatesStored(t) && InRange(day)
    requires var due := DueSpec(s, FromTime(day), limit);
             id in DueSet(t, day) && id !in CardIds(due) && i < |due|
    ensures var x := DueSpec(s, FromTime(day), limit)[i].cardId;
            IsDue(t, x, day) && IsDue(t, id, day) && QueueBefore(t, x, id)
  {
    hide DatesStored, InRange, FromTime, Before, QueueBefore, Filter, DueSpec, IsDue, DueSet, Lists;
    var today := FromTime(day);
    var due := DueSpec(s, today, limit);
    DueSetMember(t, s, id, day);
    var x :| x in s && x.cardId == id && Eligible(x, today);
    FilterIn(s, today, x);
    CardIdsIn(due, id);
    assert x !in due && x in Filter(s, today);
    assert x in multiset(Filter(s, today)) && x !in multiset(due);
    DueIsSmallest(s, today, limit, x, i);
    assert due[i] in multiset(due) && due[i] in multiset(Filter(s, today));
    assert due[i].cardId == CardIds(due)[i];
    QueuedOrder(t, s, day, due[i], x);
  }

  // ----- the answer is unique -----------------------------------------------

  lemma MemberOfBoth(t: Tables, day: int, limit: nat, a: seq<string>, b: seq<string>, x: string, y: string)
    requires IsDueList(t, day, limit, a) && IsDueList(t, day, limit, b)
    requires x in a && x !in b && y in b
    ensures y in a
  {
    hide QueueBefore, Scheduled;
    var i :| 0 <= i < |a| && a[i] == x;
    var j :| 0 <= j < |b| && b[j] == y;
    assert IsDue(t, a[i], day) && IsDue(t, b[j], day);
    DueListDistinct(t, day, limit, a);
    DueListDistinct(t, day, limit, b);
    assert x in Elements(a) && y in Elements(b);
    QueueTotal(t, x, y);
  }

  lemma SameMembers(t: Tables, day: int, limit: nat, a: seq<string>, b: seq<string>)
    requires IsDueList(t, day, limit, a) && IsDueList(t, day, limit, b)
    ensures Elements(a) == Elements(b)
  {
    DueListDistinct(t, day, limit, a);
    DueListDistinct(t, day, limit, b);
    assert |a| == |b|;
    hide IsDueList;
    if x :| x in Elements(a) && x !in Elements(b) {
      forall y | y in Elements(b) ensures y in Elements(a) { MemberOfBoth(t, day, limit, a, b, x, y); }
      CardinalityGrows(Elements(b), Elements(a));
    } else {
      CardinalityGrows(Elements(a), Elements(b));
    }
  }

  ghost predicate InQueueOrder(t: Tables, a: seq<string>) {
    (forall i :: 0 <= i < |a| ==> Scheduled(t, a[i])) && forall i, j :: 0 <= i < j < |a| ==> QueueBefore(t, a[i], a[j])
  }

  lemma SameList(t: Tables, a: seq<string>, b: seq<string>)
    requires InQueueOrder(t, a) && InQueueOrder(t, b) && Elements(a) == Elements(b)
    ensures a == b
  {
    var less := (x, y) => QueueBefore(t, x, y);
    forall x, y ensures !(less(x, y) && less(y, x)) {
      if Scheduled(t, x) && Scheduled(t, y) { QueueTotal(t, x, y); }
    }
    hide QueueBefore, Scheduled;
    assert forall x :: x in a <==> x in Elements(a);
    assert forall x :: x in b <==> x in Elements(b);
    OrderedSame(a, b, less);
  }

  /** The two queues are the same list, and the same count. */
  lemma DueAgreesWithRows(t: Tables, s: seq<Schedule>, day: int, limit: int, rows: seq<string>)
    requires Lists(t, s) && DatesStored(t) && InRange(day)
    requires IsDueList(t, day, Cap(limit), rows)
    ensures CardIds(DueSpec(s, FromTime(day), limit)) == rows
    ensures |Filter(s, FromTime(day))| == |DueSet(t, day)|
  {
    hide Lists, DatesStored, FromTime, InRange, Filter, DueSpec, DueSet;
    DueIsDueList(t, s, day, limit);
    FilterIsDueSet(t, s, day);
    var ids := CardIds(DueSpec(s, FromTime(day), limit));
    SameMembers(t, day, Cap(limit), ids, rows);
    SameList(t, ids, rows);
  }
}
