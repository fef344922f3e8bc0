/** Multiple-choice questions: wrap-around sampling of distinct distractors,
    the widening fallback, and what a choice promises. Random draws are
    arbitrary values. */
module Choices {
  import opened Text
  import opened Sequences

  const CHOICE_COUNT := 4
  const DISTRACTOR_POOL_SIZE := 300

  datatype Choice = Choice(options: seq<string>, correctIndex: nat)

  /** Four different options, the answer at `correctIndex` and the rest drawn
      from `backs`. */
  predicate IsChoice(c: Choice, correct: string, backs: set<string>) {
    && |c.options| == CHOICE_COUNT
    && Distinct(c.options)
    && c.correctIndex < CHOICE_COUNT
    && c.options[c.correctIndex] == correct
    && forall i :: 0 <= i < CHOICE_COUNT && i != c.correctIndex ==> c.options[i] in backs
  }

  /** Picking the right index is picking the right text, and nothing else is. */
  lemma RightIndexIsRightText(c: Choice, correct: string, backs: set<string>, picked: nat)
    requires IsChoice(c, correct, backs) && picked < CHOICE_COUNT
    ensures picked == c.correctIndex <==> c.options[picked] == correct
  {
    if picked < c.correctIndex {
      assert c.options[picked] != c.options[c.correctIndex];
    } else if c.correctIndex < picked {
      assert c.options[c.correctIndex] != c.options[picked];
    }
  }

  lemma WrapReaches(start: nat, k: nat, n: nat)
    requires start < n && k < n
    ensures var j := if k >= start then k - start else k + n - start;
            j < n && (start + j) % n == k
  {
    var j := if k >= start then k - start else k + n - start;
    if k < start { assert (start + j) == k + n; assert (k + n) % n == k; }
  }

  /** Fisher-Yates with arbitrary picks, as rand.Shuffle swaps in place. */
  method Shuffle(a: array<string>)
    modifies a
    ensures multiset(a[..]) == multiset(old(a[..]))
  {
    var i := a.Length - 1;
    while i > 0
      invariant -1 <= i < a.Length
      invariant multiset(a[..]) == multiset(old(a[..]))
    {
      var j: nat :| j <= i;
      a[i], a[j] := a[j], a[i];
      i := i - 1;
    }
  }

  function Wrapped(pool: seq<string>, start: nat, i: nat): string
    requires pool != []
  {
    pool[(start + i) % |pool|]
  }

  lemma WholePoolSeen(pool: seq<string>, start: nat, seen: set<string>)
    requires start < |pool| && forall j :: 0 <= j < |pool| ==> Wrapped(pool, start, j) in seen
    ensures Elements(pool) <= seen
  {
    forall x | x in Elements(pool) ensures x in seen {
      var k :| 0 <= k < |pool| && pool[k] == x;
      WrapReaches(start, k, |pool|);
      var j := if k >= start then k - start else k + |pool| - start;
      assert Wrapped(pool, start, j) in seen;
    }
  }

  /** The sampling loop: one pass over the pool from a random offset. */
  method Sample(correct: string, pool: seq<string>) returns (options: seq<string>)
    requires pool != []
    ensures 1 <= |options| <= CHOICE_COUNT && options[0] == correct && Distinct(options)
    ensures Elements(options) <= {correct} + Elements(pool)
    ensures |options| < CHOICE_COUNT ==> Elements(pool) <= Elements(options)
  {
    options := [correct];
    var seen := {correct};
    var start: nat :| start < |pool|;
    var i := 0;
    while i < |pool| && |options| < CHOICE_COUNT
      invariant 0 <= i <= |pool|
      invariant 1 <= |options| <= CHOICE_COUNT && options[0] == correct
      invariant Distinct(options) && seen == Elements(options)
      invariant seen <= {correct} + Elements(pool)
      invariant forall j :: 0 <= j < i ==> Wrapped(pool, start, j) in seen
    {
      var back := pool[(start + i) % |pool|];
      assert back == Wrapped(pool, start, i) && back in Elements(pool);
      if back !in seen {
        assert Elements(options + [back]) == Elements(options) + {back};
        seen := seen + {back};
        options := options + [back];
      }
      i := i + 1;
    }
    if |options| < CHOICE_COUNT { WholePoolSeen(pool, start, seen); }
  }

  /** Shuffles the options and finds where the answer went. */
  method Place(correct: string, options: seq<string>) returns (c: Choice)
    requires |options| == CHOICE_COUNT && Distinct(options) && correct in options
    ensures IsChoice(c, correct, Elements(options))
  {
    var a := new string[CHOICE_COUNT](n requires 0 <= n < CHOICE_COUNT => options[n]);
    assert a[..] == options;
    Shuffle(a);
    ghost var shuffled := a[..];
    ShuffledDistinct(options, shuffled);
    assert correct in Elements(options);
    var n := 0;
    while n < CHOICE_COUNT
      invariant 0 <= n <= CHOICE_COUNT && a[..] == shuffled
      invariant correct !in shuffled[..n]
    {
      if a[n] == correct {
        assert forall i :: 0 <= i < CHOICE_COUNT ==> shuffled[i] in Elements(options);
        return Choice(a[..], n);
      }
      n := n + 1;
    }
    assert false;
  }

  lemma ChoiceFrom(c: Choice, correct: string, a: set<string>, b: set<string>)
    requires IsChoice(c, correct, a) && a <= {correct} + b
    ensures IsChoice(c, correct, b)
  {
    forall i | 0 <= i < CHOICE_COUNT && i != c.correctIndex ensures c.options[i] in b {
      RightIndexIsRightText(c, correct, a, i);
    }
  }

  /** Succeeds exactly when the pool holds three different wrong answers, for
      every start offset and every shuffle. */
  method MakeChoice(correct: string, pool: seq<string>) returns (r: Option<Choice>)
    ensures r.Some? <==> |Elements(pool) - {correct}| >= CHOICE_COUNT - 1
    ensures r.Some? ==> IsChoice(r.value, correct, Elements(pool))
  {
    if |pool| == 0 {
      return None;
    }
    var options := Sample(correct, pool);
    DistinctCount(options);
    var wrong := Elements(options) - {correct};
    assert Elements(options) == wrong + {correct};
    if |options| < CHOICE_COUNT {
      CardinalityGrows(Elements(pool) - {correct}, wrong);
      return None;
    }
    CardinalityGrows(wrong, Elements(pool) - {correct});
    var c := Place(correct, options);
    ChoiceFrom(c, correct, Elements(options), Elements(pool));
    return Some(c);
  }

  // ----- the pool -----------------------------------------------------------

  /** What ListDistractorPool returns over the distinct backs it selects. */
  ghost predicate IsPool(pool: seq<string>, backs: set<string>) {
    && Distinct(pool)
    && Elements(pool) <= backs
    && |pool| == if |backs| < DISTRACTOR_POOL_SIZE then |backs| else DISTRACTOR_POOL_SIZE
  }

  /** The "fewer than four, then widen" test and the cap of 300 lose no
      question: the pool used has three wrong answers exactly when the account
      has. */
  lemma WideningLosesNothing(filtered: seq<string>, widened: seq<string>, inside: set<string>, account: set<string>,
              correct: string)
    requires inside <= account && IsPool(filtered, inside) && IsPool(widened, account)
    ensures var pool := if |filtered| < CHOICE_COUNT then widened else filtered;
            |Elements(pool) - {correct}| >= CHOICE_COUNT - 1 <==> |account - {correct}| >= CHOICE_COUNT - 1
  {
    DistinctCount(filtered);
    DistinctCount(widened);
    hide Distinct;
    var pool := if |filtered| < CHOICE_COUNT then widened else filtered;
    CardinalityGrows(Elements(pool), account);
    CardinalityGrows(Elements(pool) - {correct}, account - {correct});
    OneLess(Elements(pool), correct);
    hide Elements;
  }

  lemma OneLess(s: set<string>, x: string)
    ensures |s| - 1 <= |s - {x}| <= |s|
  {
    if x in s {
      assert s == (s - {x}) + {x};
    } else {
      assert s - {x} == s;
    }
  }

  /** A drawn card with an answer, when the account holds three others. */
  ghost predicate Askable(q: string, backs: map<string, string>, account: set<string>) {
    q in backs && backs[q] != "" && |account - {backs[q]}| >= CHOICE_COUNT - 1
  }

  /** Which cards are asked as multiple choice, and how. `backs` is what
      ListCardBacks returned for the drawn cards. */
  method BuildChoices(isChoiceSet: bool, questions: seq<string>, backs: map<string, string>,
                      filtered: seq<string>, widened: seq<string>,
                      ghost inside: set<string>, ghost account: set<string>)
    returns (out: map<string, Choice>)
    requires inside <= account && IsPool(filtered, inside) && IsPool(widened, account)
    ensures forall q :: q in out <==> isChoiceSet && q in questions && Askable(q, backs, account)
    ensures forall q :: q in out ==> q in backs && IsChoice(out[q], backs[q], account)
  {
    out := map[];
    if !isChoiceSet { return; }
    var pool := filtered;
    if |pool| < CHOICE_COUNT { pool := widened; }
    for i := 0 to |questions|
      invariant forall q :: q in out <==> q in questions[..i] && Askable(q, backs, account)
      invariant forall q :: q in out ==> q in backs && IsChoice(out[q], backs[q], account)
    {
      var q := questions[i];
      assert questions[..i + 1] == questions[..i] + [q];
      if q !in backs || backs[q] == "" { continue; }
      var c := MakeChoice(backs[q], pool);
      WideningLosesNothing(filtered, widened, inside, account, backs[q]);
      if c.Some? {
        ChoiceFrom(c.value, backs[q], Elements(pool), account);
        out := out[q := c.value];
      }
    }
    assert questions[..|questions|] == questions;
  }
}
