/** The fixed-window limiter: a map of windows, an amortised sweep, and what
    they add up to over every sequence of calls. Times are integer instants;
    the clock is an argument and never goes back. */
module RateLimiting {
  import opened Text

  datatype Window = Window(count: nat, reset: int)

  datatype Limiter = Limiter(hits: map<string, Window>, lastSweep: Option<int>)

  /** What the limiter decides for one key from its own window alone. */
  function Admit(w: Option<Window>, limit: int, perWind: int, now: int): (Window, bool) {
    if w.None? || now > w.value.reset then (Window(1, now + perWind), true)
    else if w.value.count >= limit then (w.value, false)
    else (w.value.(count := w.value.count + 1), true)
  }

  function Lookup(m: map<string, Window>, key: string): Option<Window> {
    if key in m then Some(m[key]) else None
  }

  function Sweep(l: Limiter, perWind: int, now: int): Limiter {
    if l.lastSweep.None? || now - l.lastSweep.value >= perWind then
      Limiter(map k | k in l.hits && now <= l.hits[k].reset :: l.hits[k], Some(now))
    else l
  }

  function Allow(l: Limiter, limit: int, perWind: int, key: string, now: int): (Limiter, bool) {
    var s := Sweep(l, perWind, now);
    var (w, ok) := Admit(Lookup(s.hits, key), limit, perWind, now);
    (s.(hits := s.hits[key := w]), ok)
  }

  class RateLimiter {
    var hits: map<string, Window>
    var lastSweep: Option<int>  // None is the zero time: always a window ago
    const limit: int
    const perWind: int

    constructor (limit: int, perWind: int)
      ensures this.limit == limit && this.perWind == perWind && State() == Limiter(map[], None)
    {
      hits, lastSweep := map[], None;
      this.limit, this.perWind := limit, perWind;
    }

    function State(): Limiter
      reads this
    {
      Limiter(hits, lastSweep)
    }

    /** The sweep's loop over the map, in whatever order it comes. */
    method DropExpired(now: int)
      modifies this
      ensures hits == map k | k in old(hits) && now <= old(hits)[k].reset :: old(hits)[k]
      ensures lastSweep == old(lastSweep)
    {
      ghost var before := hits;
      var rest := hits.Keys;
      while rest != {}
        invariant rest <= hits.Keys
        invariant forall k :: k in hits <==> k in before && (k in rest || now <= before[k].reset)
        invariant forall k :: k in hits ==> hits[k] == before[k]
        invariant lastSweep == old(lastSweep)
        decreases |rest|
      {
        var k :| k in rest;
        rest := rest - {k};
        if now > hits[k].reset { hits := hits - {k}; }
      }
    }

    method Check(key: string, now: int) returns (ok: bool)
      modifies this
      ensures (State(), ok) == Allow(old(State()), limit, perWind, key, now)
    {
      if lastSweep.None? || now - lastSweep.value >= perWind {
        DropExpired(now);
        lastSweep := Some(now);
      }
      if key !in hits || now > hits[key].reset {
        hits := hits[key := Window(1, now + perWind)];
        return true;
      }
      if hits[key].count >= limit {
        assert hits[key := hits[key]] == hits;
        return false;
      }
      hits := hits[key := hits[key].(count := hits[key].count + 1)];
      return true;
    }
  }

  // ----- runs ---------------------------------------------------------------

  datatype Call = Call(key: string, at: int)

  predicate ClockForward(calls: seq<Call>) {
    forall i, j :: 0 <= i < j < |calls| ==> calls[i].at <= calls[j].at
  }

  const FRESH := Limiter(map[], None)

  function After(calls: seq<Call>, limit: int, perWind: int): Limiter {
    if calls == [] then FRESH
    else
      var last := calls[|calls| - 1];
      Allow(After(calls[..|calls| - 1], limit, perWind), limit, perWind, last.key, last.at).0
  }

  function Answer(calls: seq<Call>, i: nat, limit: int, perWind: int): bool
    requires i < |calls|
  {
    Allow(After(calls[..i], limit, perWind), limit, perWind, calls[i].key, calls[i].at).1
  }

  // ----- against a limiter that never sweeps --------------------------------

  function PlainAfter(calls: seq<Call>, limit: int, perWind: int): map<string, Window> {
    if calls == [] then map[]
    else
      var last := calls[|calls| - 1];
      var before := PlainAfter(calls[..|calls| - 1], limit, perWind);
      before[last.key := Admit(Lookup(before, last.key), limit, perWind, last.at).0]
  }

  function PlainAnswer(calls: seq<Call>, i: nat, limit: int, perWind: int): bool
    requires i < |calls|
  {
    Admit(Lookup(PlainAfter(calls[..i], limit, perWind), calls[i].key), limit, perWind, calls[i].at).1
  }

  /** The swept map holds some of the plain windows, and misses only expired ones. */
  predicate Matches(hits: map<string, Window>, plain: map<string, Window>, now: int) {
    && (forall k :: k in hits ==> k in plain && hits[k] == plain[k])
    && (forall k :: k in plain && k !in hits ==> now > plain[k].reset)
  }

  lemma AllowMatches(l: Limiter, plain: map<string, Window>, limit: int, perWind: int, key: string, then_: int,
              now: int)
    requires then_ <= now && Matches(l.hits, plain, then_)
    ensures var w := Admit(Lookup(plain, key), limit, perWind, now);
            Matches(Allow(l, limit, perWind, key, now).0.hits, plain[key := w.0], now)
                && Allow(l, limit, perWind, key, now).1 == w.1
  {
    var s := Sweep(l, perWind, now);
    assert Matches(s.hits, plain, now);
  }

  function LastAt(calls: seq<Call>, now: int): int {
    if calls == [] then now else calls[|calls| - 1].at
  }

  lemma {:induction false} AfterMatches(calls: seq<Call>, limit: int, perWind: int, now: int)
    requires ClockForward(calls)
    ensures Matches(After(calls, limit, perWind).hits, PlainAfter(calls, limit, perWind), LastAt(calls, now))
  {
    if calls != [] {
      var init, last := calls[..|calls| - 1], calls[|calls| - 1];
      AfterMatches(init, limit, perWind, last.at);
      AllowMatches(After(init, limit, perWind), PlainAfter(init, limit, perWind), limit, perWind, last.key,
          LastAt(init, last.at), last.at);
    }
  }

  /** Sweeping changes no answer, on any call of any run. */
  lemma SweepIsInvisible(calls: seq<Call>, i: nat, limit: int, perWind: int)
    requires ClockForward(calls) && i < |calls|
    ensures Answer(calls, i, limit, perWind) == PlainAnswer(calls, i, limit, perWind)
  {
    var init := calls[..i];
    AfterMatches(init, limit, perWind, calls[i].at);
    AllowMatches(After(init, limit, perWind), PlainAfter(init, limit, perWind), limit, perWind, calls[i].key,
        LastAt(init, calls[i].at), calls[i].at);
  }

  // ----- bounded memory -----------------------------------------------------

  lemma {:induction false} SweptRecently(calls: seq<Call>, limit: int, perWind: int, k: string)
    requires ClockForward(calls) && calls != [] && perWind > 0
    ensures var l := After(calls, limit, perWind);
            && l.lastSweep.Some? && calls[|calls| - 1].at - perWind < l.lastSweep.value <= calls[|calls| - 1].at
            && (k in l.hits ==> l.lastSweep.value <= l.hits[k].reset <= calls[|calls| - 1].at + perWind)
  {
    if |calls| > 1 {
      SweptRecently(calls[..|calls| - 1], limit, perWind, k);
    } else {
      assert calls[..0] == [];
    }
  }

  /** After every call the map holds only windows opened within the last two
      window lengths (a window opens perWind before its reset). */
  lemma MemoryBounded(calls: seq<Call>, limit: int, perWind: int, k: string)
    requires ClockForward(calls) && calls != [] && perWind > 0
    requires k in After(calls, limit, perWind).hits
    ensures var openedAt := After(calls, limit, perWind).hits[k].reset - perWind;
            var now := calls[|calls| - 1].at;
            now - 2 * perWind < openedAt <= now
  {
    SweptRecently(calls, limit, perWind, k);
  }

  // ----- how many get through -----------------------------------------------

  /** The calls of one key that get through at a time in [from, to]. */
  function Admitted(calls: seq<Call>, key: string, from: int, to: int, limit: int, perWind: int): nat {
    if calls == [] then 0
    else
      var i := |calls| - 1;
      Admitted(calls[..i], key, from, to, limit, perWind) +
      (if calls[i].key == key && from <= calls[i].at <= to && Answer(calls, i, limit, perWind) then 1 else 0)
  }

  function PlainAdmitted(calls: seq<Call>, key: string, from: int, to: int, limit: int, perWind: int): nat {
    if calls == [] then 0
    else
      var i := |calls| - 1;
      PlainAdmitted(calls[..i], key, from, to, limit, perWind) +
      (if calls[i].key == key && from <= calls[i].at <= to && PlainAnswer(calls, i, limit, perWind) then 1 else 0)
  }

  lemma {:induction false} SameAdmitted(calls: seq<Call>, key: string, from: int, to: int, limit: int, perWind: int)
    requires ClockForward(calls)
    ensures Admitted(calls, key, from, to, limit, perWind) == PlainAdmitted(calls, key, from, to, limit, perWind)
  {
    if calls != [] {
      SameAdmitted(calls[..|calls| - 1], key, from, to, limit, perWind);
      SweepIsInvisible(calls, |calls| - 1, limit, perWind);
    }
  }

  lemma {:induction false} NoneBefore(calls: seq<Call>, key: string, from: int, to: int, limit: int, perWind: int)
    requires forall i :: 0 <= i < |calls| ==> calls[i].at < from
    ensures PlainAdmitted(calls, key, from, to, limit, perWind) == 0
  {
    if calls != [] { NoneBefore(calls[..|calls| - 1], key, from, to, limit, perWind); }
  }

  /** Where the key stands: the current window, and how many of the interval's
      admissions there can have been by the time it opened. */
  predicate Tally(w: Option<Window>, admitted: nat, from: int, to: int, limit: int, perWind: int, now: int) {
    match w
    case None => admitted == 0
    case Some(w) =>
      var openedAt := w.reset - perWind;
      && 1 <= w.count <= limit && openedAt <= now
      && (openedAt < from ==> admitted <= w.count - 1)
      && (from <= openedAt <= to ==> admitted <= limit - 1 + w.count)
      && admitted <= 2 * limit - 1
  }

  lemma TallyStep(w: Option<Window>, admitted: nat, from: int, limit: int, perWind: int, last: int, now: int)
    requires limit >= 1 && perWind >= 0 && last <= now
    requires Tally(w, admitted, from, from + perWind, limit, perWind, last) && (now < from ==> admitted == 0)
    ensures var (v, ok) := Admit(w, limit, perWind, now);
            Tally(Some(v), admitted + (if ok && from <= now <= from + perWind then 1 else 0), from, from + perWind,
                limit, perWind, now)
  {
  }

  lemma {:induction false} TallyHolds(calls: seq<Call>, key: string, from: int, limit: int, perWind: int, now: int)
    requires ClockForward(calls) && limit >= 1 && perWind >= 0
    ensures Tally(Lookup(PlainAfter(calls, limit, perWind), key),
        PlainAdmitted(calls, key, from, from + perWind, limit, perWind),
                  from, from + perWind, limit, perWind, LastAt(calls, now))
  {
    if calls != [] {
      var init, last := calls[..|calls| - 1], calls[|calls| - 1];
      TallyHolds(init, key, from, limit, perWind, last.at);
      if last.at < from { NoneBefore(init, key, from, from + perWind, limit, perWind); }
      hide Tally, Admit;
      var plain := PlainAfter(init, limit, perWind);
      if last.key == key {
        TallyStep(Lookup(plain, key), PlainAdmitted(init, key, from, from + perWind, limit, perWind), from, limit,
            perWind, LastAt(init, last.at), last.at);
      } else {
        TallyLater(Lookup(plain, key), PlainAdmitted(init, key, from, from + perWind, limit, perWind), from,
            from + perWind, limit, perWind, LastAt(init, last.at), last.at);
      }
    }
  }

  lemma TallyLater(w: Option<Window>, admitted: nat, from: int, to: int, limit: int, perWind: int, last: int, now: int)
    requires Tally(w, admitted, from, to, limit, perWind, last) && last <= now
    ensures Tally(w, admitted, from, to, limit, perWind, now)
  {
  }

  /** In any closed interval one window long, one key gets through at most
      2 * limit - 1 times: two windows can meet in it, but then the first one
      opened before it. */
  lemma AtMostTwiceLessOne(calls: seq<Call>, key: string, from: int, limit: int, perWind: int)
    requires ClockForward(calls) && limit >= 1 && perWind >= 0
    ensures Admitted(calls, key, from, from + perWind, limit, perWind) <= 2 * limit - 1
  {
    SameAdmitted(calls, key, from, from + perWind, limit, perWind);
    TallyHolds(calls, key, from, limit, perWind, 0);
  }

  // ----- who is refused -----------------------------------------------------

  /** The admissions of the current window are all on record. */
  lemma {:induction false} WindowOnRecord(calls: seq<Call>, key: string, from: int, to: int, limit: int, perWind: int)
    requires ClockForward(calls) && limit >= 1 && forall i :: 0 <= i < |calls| ==> calls[i].at <= to
    ensures var w := Lookup(PlainAfter(calls, limit, perWind), key);
            w.Some? ==>
              && w.value.reset - perWind <= LastAt(calls, to)
              && (w.value.reset - perWind >= from ==>
                    w.value.count <= PlainAdmitted(calls, key, from, to, limit, perWind))
  {
    if calls != [] {
      var init, last := calls[..|calls| - 1], calls[|calls| - 1];
      WindowOnRecord(init, key, from, to, limit, perWind);
      assert calls == init + [last];
      OneMore(init, last, from, to, limit, perWind);
      if last.key != key { OtherKey(init, last, key, from, to, limit, perWind); }
      hide PlainAfter, PlainAdmitted;
    }
  }

  lemma OtherKey(calls: seq<Call>, c: Call, key: string, from: int, to: int, limit: int, perWind: int)
    requires c.key != key
    ensures Lookup(PlainAfter(calls + [c], limit, perWind), key) == Lookup(PlainAfter(calls, limit, perWind), key)
    ensures PlainAdmitted(calls + [c], key, from, to, limit, perWind)
         == PlainAdmitted(calls, key, from, to, limit, perWind)
  {
    var all := calls + [c];
    assert all[..|calls|] == calls && all[|calls|] == c;
  }

  /** A call is refused only when its key has used the whole limit within the
      last window: refused tries never add to the wait. */
  lemma RefusedOnlyWhenUsedUp(calls: seq<Call>, i: nat, limit: int, perWind: int)
    requires ClockForward(calls) && i < |calls| && limit >= 1 && !Answer(calls, i, limit, perWind)
    ensures var now := calls[i].at;
            Admitted(calls[..i], calls[i].key, now - perWind, now, limit, perWind) >= limit
  {
    var now := calls[i].at;
    SweepIsInvisible(calls, i, limit, perWind);
    WindowOnRecord(calls[..i], calls[i].key, now - perWind, now, limit, perWind);
    SameAdmitted(calls[..i], calls[i].key, now - perWind, now, limit, perWind);
  }

  lemma {:induction false} RefusedChangesNothing(a: seq<Call>, c: Call, b: seq<Call>, limit: int, perWind: int)
    requires !Admit(Lookup(PlainAfter(a, limit, perWind), c.key), limit, perWind, c.at).1
    ensures PlainAfter(a + [c] + b, limit, perWind) == PlainAfter(a + b, limit, perWind)
    decreases |b|
  {
    if b == [] {
      var plain := PlainAfter(a, limit, perWind);
      assert a + [c] + [] == a + [c] && a + [] == a && (a + [c])[..|a|] == a;
      assert plain[c.key := plain[c.key]] == plain;
    } else {
      var n := |b| - 1;
      RefusedChangesNothing(a, c, b[..n], limit, perWind);
      assert (a + [c] + b)[..|a| + 1 + n] == a + [c] + b[..n] && (a + b)[..|a| + n] == a + b[..n];
    }
  }

  /** Taking a refused call out of a run changes no other answer. */
  lemma RefusalLeavesNoTrace(calls: seq<Call>, i: nat, j: nat, limit: int, perWind: int)
    requires ClockForward(calls) && i < |calls| && j < |calls| && i != j && !Answer(calls, i, limit, perWind)
    ensures Answer(calls, j, limit, perWind)
         == Answer(calls[..i] + calls[i + 1..], if j < i then j else j - 1, limit, perWind)
  {
    var a, c, b := calls[..i], calls[i], calls[i + 1..];
    var k := if j < i then j else j - 1;
    hide *;
    ForwardWithout(calls, i);
    SweepIsInvisible(calls, i, limit, perWind);
    SweepIsInvisible(calls, j, limit, perWind);
    SweepIsInvisible(a + b, k, limit, perWind);
    if j < i {
      SamePrefix(a + b, calls, j, j, limit, perWind) by { assert (a + b)[..j] == calls[..j]; }
    } else {
      var n := j - i - 1;
      Removed(calls, i, j);
      RefusedPlainly(calls, i, limit, perWind);
      RefusedChangesNothing(a, c, b[..n], limit, perWind);
      SamePrefix(a + b, calls, k, j, limit, perWind);
    }
  }

  lemma Removed(calls: seq<Call>, i: nat, j: nat)
    requires i < j < |calls|
    ensures var a, b, n := calls[..i], calls[i + 1..], j - i - 1;
            calls[..j] == a + [calls[i]] + b[..n] && (a + b)[..j - 1] == a + b[..n] && (a + b)[j - 1] == calls[j]
  {
  }

  lemma ForwardWithout(calls: seq<Call>, i: nat)
    requires ClockForward(calls) && i < |calls|
    ensures ClockForward(calls[..i] + calls[i + 1..])
  {
  }

  lemma RefusedPlainly(calls: seq<Call>, i: nat, limit: int, perWind: int)
    requires i < |calls|
    ensures PlainAnswer(calls, i, limit, perWind)
         == Admit(Lookup(PlainAfter(calls[..i], limit, perWind), calls[i].key), limit, perWind, calls[i].at).1
  {
  }

  lemma SamePrefix(x: seq<Call>, y: seq<Call>, k: nat, j: nat, limit: int, perWind: int)
    requires k < |x| && j < |y| && x[k] == y[j]
    requires PlainAfter(x[..k], limit, perWind) == PlainAfter(y[..j], limit, perWind)
    ensures PlainAnswer(x, k, limit, perWind) == PlainAnswer(y, j, limit, perWind)
  {
  }

  // ----- and that many can --------------------------------------------------

  function Burst(key: string, at: int, n: nat): seq<Call> {
    seq(n, _ => Call(key, at))
  }

  lemma {:induction false} BurstAdmitted(calls: seq<Call>, key: string, at: int, n: nat, w: Window, from: int,
              to: int, limit: int, perWind: int)
    requires Lookup(PlainAfter(calls, limit, perWind), key) == Some(w) && at <= w.reset && w.count + n <= limit
    requires from <= at <= to
    ensures var all := calls + Burst(key, at, n);
            && Lookup(PlainAfter(all, limit, perWind), key) == Some(w.(count := w.count + n))
            && PlainAdmitted(all, key, from, to, limit, perWind)
                == PlainAdmitted(calls, key, from, to, limit, perWind) + n
    decreases n
  {
    hide PlainAfter, PlainAdmitted;
    if n == 0 {
      assert calls + Burst(key, at, 0) == calls;
    } else {
      var shorter := calls + Burst(key, at, n - 1);
      BurstAdmitted(calls, key, at, n - 1, w, from, to, limit, perWind);
      OneMore(shorter, Call(key, at), from, to, limit, perWind);
      assert calls + Burst(key, at, n) == shorter + [Call(key, at)];
    }
  }

  lemma OneMore(calls: seq<Call>, c: Call, from: int, to: int, limit: int, perWind: int)
    ensures var w := Admit(Lookup(PlainAfter(calls, limit, perWind), c.key), limit, perWind, c.at);
            && Lookup(PlainAfter(calls + [c], limit, perWind), c.key) == Some(w.0)
            && PlainAdmitted(calls + [c], c.key, from, to, limit, perWind) ==
               PlainAdmitted(calls, c.key, from, to, limit, perWind) + (if from <= c.at <= to && w.1 then 1 else 0)
  {
    var all := calls + [c];
    assert all[..|calls|] == calls && all[|calls|] == c;
  }

  /** One call, limit - 1 at the very end of its window, limit right after. */
  function Worst(key: string, limit: nat, perWind: int): seq<Call>
    requires limit >= 1
  {
    [Call(key, 0)] + Burst(key, perWind, limit - 1) + [Call(key, perWind + 1)] + Burst(key, perWind + 1, limit - 1)
  }

  lemma WorstForward(key: string, limit: nat, perWind: int)
    requires limit >= 1 && perWind >= 1
    ensures ClockForward(Worst(key, limit, perWind))
  {
    var w := Worst(key, limit, perWind);
    assert forall i :: 0 <= i < |w| ==> w[i].at == if i == 0 then 0 else if i < limit then perWind else perWind + 1;
  }

  lemma WorstPlain(key: string, limit: nat, perWind: int)
    requires limit >= 1 && perWind >= 1
    ensures PlainAdmitted(Worst(key, limit, perWind), key, perWind, 2 * perWind, limit, perWind) == 2 * limit - 1
  {
    hide PlainAdmitted, PlainAfter, Burst;
    var from, to := perWind, 2 * perWind;
    NoCalls(key, from, to, limit, perWind);
    OneMore([], Call(key, 0), from, to, limit, perWind);
    assert [] + [Call(key, 0)] == [Call(key, 0)];
    var a := [Call(key, 0)];
    BurstAdmitted(a, key, perWind, limit - 1, Window(1, perWind), from, to, limit, perWind);
    var b := a + Burst(key, perWind, limit - 1);
    OneMore(b, Call(key, perWind + 1), from, to, limit, perWind);
    BurstAdmitted(b + [Call(key, perWind + 1)], key, perWind + 1, limit - 1, Window(1, 2 * perWind + 1), from, to,
        limit, perWind);
  }

  /** The bound is reached, for every limit and every window. */
  lemma BoundIsReached(key: string, limit: nat, perWind: int)
    requires limit >= 1 && perWind >= 1
    ensures ClockForward(Worst(key, limit, perWind))
    ensures Admitted(Worst(key, limit, perWind), key, perWind, 2 * perWind, limit, perWind) == 2 * limit - 1
  {
    hide Admitted, PlainAdmitted, ClockForward, Worst;
    WorstForward(key, limit, perWind);
    WorstPlain(key, limit, perWind);
    SameAdmitted(Worst(key, limit, perWind), key, perWind, 2 * perWind, limit, perWind);
  }

  lemma NoCalls(key: string, from: int, to: int, limit: int, perWind: int)
    ensures Lookup(PlainAfter([], limit, perWind), key) == None && PlainAdmitted([], key, from, to, limit, perWind) == 0
  {
  }
}
