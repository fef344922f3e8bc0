/** What a start asks, on the rows: the scope of a random set, the order of a
    fixed one, and the backs that can stand as wrong options. */
module Draws {
  import opened Text
  import opened Sequences
  import opened Choices
  import opened Store

  /** OR inside the domains and inside the categories, AND between them; an
      empty choice leaves everything in. */
  ghost predicate Fits(t: Tables, id: string, domains: set<string>, categories: set<string>) {
    && id in t.cards && t.cards[id].deletedAt.None?
    && (domains != {} ==> exists d :: d in domains && t.cards[id].domain == Some(d))
    && (categories != {} ==> exists c :: c in categories && c in t.cards[id].categories)
  }

  lemma FitsIsInScope(t: Tables, id: string, domains: set<string>, categories: set<string>)
    ensures Fits(t, id, domains, categories)
       <==> id in t.cards && Live(t, id) && InScope(t.cards[id], domains, categories)
  {
    if id in t.cards {
      var both := t.cards[id].categories * categories;
      if c :| c in categories && c in t.cards[id].categories { assert c in both; }
      if both != {} { var c :| c in both; assert c in categories && c in t.cards[id].categories; }
    }
  }

  /** A random set draws different live cards inside its scope, as many as it
      asks for, or all there are when there are fewer. */
  lemma RandomDraw(t: Tables, s: ReviewSet, draw: seq<string>, all: set<string>)
    requires !s.fixed && DrawOk(t, s, draw)
    requires forall id :: id in all <==> Fits(t, id, s.domains, s.categories)
    ensures Distinct(draw) && forall i :: 0 <= i < |draw| ==> draw[i] in all
    ensures if |all| <= s.questionCount then Elements(draw) == all else |draw| == s.questionCount
  {
    forall id ensures id in all <==> id in Eligibles(t, s) { FitsIsInScope(t, id, s.domains, s.categories); }
    hide Fits, InScope;
    assert all == Eligibles(t, s);
    DistinctCount(draw);
    if |all| <= s.questionCount { CardinalityGrows(Elements(draw), all); }
    forall i | 0 <= i < |draw| ensures draw[i] in all { assert draw[i] in Elements(draw); }
  }

  /** `a` comes before `b` in the list. */
  ghost predicate Precedes(list: seq<string>, a: string, b: string) {
    exists p, q :: 0 <= p < q < |list| && list[p] == a && list[q] == b
  }

  lemma {:induction false} LiveInOrder(t: Tables, pinned: seq<string>, i: nat, j: nat)
    requires i < j < |LiveOnly(t, pinned)|
    ensures Precedes(pinned, LiveOnly(t, pinned)[i], LiveOnly(t, pinned)[j])
  {
    var live, rest := LiveOnly(t, pinned), pinned[1..];
    hide Live;
    if Live(t, pinned[0]) && i == 0 {
      assert live[j] in LiveOnly(t, rest);
      var q :| 0 <= q < |rest| && rest[q] == live[j];
      assert pinned[0] == live[0] && pinned[q + 1] == live[j];
    } else {
      var k := if Live(t, pinned[0]) then 1 else 0;
      LiveInOrder(t, rest, i - k, j - k);
      var p, q :| 0 <= p < q < |rest| && rest[p] == live[i] && rest[q] == live[j];
      assert pinned[p + 1] == live[i] && pinned[q + 1] == live[j];
    }
  }

  /** A fixed set asks its pinned cards that are live, all of them, in the order
      they are pinned. */
  lemma FixedDraw(t: Tables, s: ReviewSet, draw: seq<string>)
    requires s.fixed && DrawOk(t, s, draw)
    ensures forall id :: id in draw <==> id in s.pinned && id in t.cards && t.cards[id].deletedAt.None?
    ensures forall i, j :: 0 <= i < j < |draw| ==> Precedes(s.pinned, draw[i], draw[j])
    ensures Distinct(s.pinned) ==> Distinct(draw)
  {
    forall i, j | 0 <= i < j < |draw| ensures Precedes(s.pinned, draw[i], draw[j]) { LiveInOrder(t, s.pinned, i, j); }
  }

  /** Wrong options come from the non-empty backs of live cards in the scope. */
  lemma PoolIsBacks(t: Tables, domains: set<string>, categories: set<string>, back: string)
    ensures back in LiveBacks(t, domains, categories)
       <==> back != "" && exists id :: Fits(t, id, domains, categories) && t.cards[id].back == back
  {
    if back in LiveBacks(t, domains, categories) {
      var id :| id in t.cards && Live(t, id) && t.cards[id].back != "" && InScope(t.cards[id], domains, categories)
        && t.cards[id].back == back;
      FitsIsInScope(t, id, domains, categories);
    }
    if id :| Fits(t, id, domains, categories) && t.cards[id].back == back { FitsIsInScope(t, id, domains, categories); }
  }

  /** What a start asks: one question per card drawn, in the order drawn, each
      a live card; of a random set inside its scope, of a fixed one as pinned. */
  lemma StartAsks(t: Tables, setId: string, runId: string, draw: seq<string>, asked: map<string, Choice>,
                  runDate: string)
    requires StartRun(t, setId, runId, draw, asked, runDate).1 == Done
    ensures var s, qs := t.sets[setId], StartRun(t, setId, runId, draw, asked, runDate).0.questions[runId];
            && |qs| == |draw| > 0 && setId in t.sets
            && (forall i :: 0 <= i < |qs| ==> qs[i].card == draw[i])
            && (!s.fixed ==> forall i :: 0 <= i < |qs| ==> Fits(t, qs[i].card, s.domains, s.categories))
            && (s.fixed ==> forall i, j :: 0 <= i < j < |qs| ==> Precedes(s.pinned, qs[i].card, qs[j].card))
            && (s.fixed ==> forall i :: 0 <= i < |qs| ==> Fits(t, qs[i].card, {}, {}))
  {
    var s := t.sets[setId];
    var u := StartRun(t, setId, runId, draw, asked, runDate).0;
    assert DrawOk(t, s, draw) && u.questions[runId] == Snapshot(draw, asked) by { hide DrawOk, AskedOk, Snapshot; }
    if s.fixed {
      FixedDraw(t, s, draw);
    } else {
      var all := Eligibles(t, s);
      forall id ensures id in all <==> Fits(t, id, s.domains, s.categories) {
        FitsIsInScope(t, id, s.domains, s.categories);
      }
      RandomDraw(t, s, draw, all);
    }
    hide DrawOk, AskedOk, StartRun, Precedes, Eligibles;
  }

  // ----- a saved set --------------------------------------------------------

  /** Saving a set goes through exactly when its pinned cards are there and
      different and, drawing at random, it asks for something; a start that
      follows asks by just that set, unless it was saved archived. */
  lemma SavedSetAsks(t: Tables, id: string, s: ReviewSet, runId: string, draw: seq<string>, asked: map<string, Choice>,
                     runDate: string)
    ensures var (u, out) := SaveSet(t, id, s);
            && (out == Done <==>
                  (forall i :: 0 <= i < |s.pinned| ==> s.pinned[i] in t.cards) && Distinct(s.pinned)
                  && (s.fixed || s.questionCount > 0))
            && (out != Done ==> u == t)
            && (out == Done ==>
                  && u.cards == t.cards && u.runs == t.runs
                  && (StartRun(u, id, runId, draw, asked, runDate).1 == Missing <==> s.archived)
                  && (StartRun(u, id, runId, draw, asked, runDate).1 == Done <==>
                        && !s.archived && runId !in t.issued && (forall r :: !IsOpen(t, r, id))
                        && draw != [] && DrawOk(t, s, draw) && AskedOk(t, s, draw, asked)))
  {
    var (u, out) := SaveSet(t, id, s);
    if out == Done {
      assert u == t.(sets := t.sets[id := s]);
      SameDraws(t, u, s, draw, asked);
      assert forall r :: IsOpen(u, r, id) <==> IsOpen(t, r, id);
    }
    hide DrawOk, AskedOk, SaveSet, IsOpen;
  }

  lemma {:induction false} SameLive(t: Tables, u: Tables, ids: seq<string>)
    requires u.cards == t.cards
    ensures LiveOnly(u, ids) == LiveOnly(t, ids)
  {
    if ids != [] { SameLive(t, u, ids[1..]); }
  }

  lemma SameScopes(t: Tables, u: Tables, s: ReviewSet, draw: seq<string>)
    requires u.cards == t.cards
    ensures Eligibles(u, s) == Eligibles(t, s) && BacksOf(u, draw) == BacksOf(t, draw)
    ensures LiveBacks(u, {}, {}) == LiveBacks(t, {}, {})
  {
    hide InScope;
  }

  lemma SameDraws(t: Tables, u: Tables, s: ReviewSet, draw: seq<string>, asked: map<string, Choice>)
    requires u.cards == t.cards
    ensures DrawOk(u, s, draw) <==> DrawOk(t, s, draw)
    ensures AskedOk(u, s, draw, asked) <==> AskedOk(t, s, draw, asked)
  {
    SameLive(t, u, s.pinned);
    SameScopes(t, u, s, draw);
    SameScopes(u, t, s, draw);
    hide DrawOk, InScope, LiveOnly;
    if AskedOk(u, s, draw, asked) { StillAsked(u, t, s, draw, asked); }
    if AskedOk(t, s, draw, asked) { StillAsked(t, u, s, draw, asked); }
    hide AskedOk;
    assert DrawOk(u, s, draw) <==> DrawOk(t, s, draw) by { DrawsAlike(t, u, s, draw); }
  }

  lemma DrawsAlike(t: Tables, u: Tables, s: ReviewSet, draw: seq<string>)
    requires LiveOnly(u, s.pinned) == LiveOnly(t, s.pinned) && Eligibles(u, s) == Eligibles(t, s)
    ensures DrawOk(u, s, draw) <==> DrawOk(t, s, draw)
  {
    hide LiveOnly, Eligibles, Distinct;
  }

  lemma StillAsked(t: Tables, u: Tables, s: ReviewSet, draw: seq<string>, asked: map<string, Choice>)
    requires AskedOk(t, s, draw, asked)
    requires BacksOf(u, draw) == BacksOf(t, draw) && LiveBacks(u, {}, {}) == LiveBacks(t, {}, {})
    ensures AskedOk(u, s, draw, asked)
  {
    hide BacksOf, LiveBacks, IsChoice, Askable;
  }

  /** Deleting a set goes through exactly when it is there and has no run. */
  lemma DeletedSetIsGone(t: Tables, id: string)
    ensures var (u, out) := DeleteSet(t, id);
            && (out == Done <==> id in t.sets && forall r :: r in t.runs ==> t.runs[r].setId != id)
            && (out == Missing <==> id !in t.sets)
            && (id in u.sets <==> id in t.sets && out != Done)
            && (forall x :: x != id ==> (x in u.sets <==> x in t.sets) && (x in t.sets ==> u.sets[x] == t.sets[x]))
            && u.cards == t.cards && u.runs == t.runs && u.logs == t.logs
  {
  }
}
