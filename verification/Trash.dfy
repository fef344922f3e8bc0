/** The sweep of the trash over all accounts, each in a transaction of its own
    that may fail. */
module TrashSweep {
  import opened Text
  import opened Sequences
  import opened Store
  import opened DatabaseTransactions

  /** One account: its card tables, and its notes by the time of deletion. */
  datatype Account = Account(tables: Tables, notes: map<string, Option<int>>)

  datatype PurgeResult = PurgeResult(accounts: nat, notes: nat, cards: nat)

  /** Where an account's transaction fails, if it does: in a statement, or when
      it commits. */
  datatype Outage = Never | InStatement | AtCommit

  predicate OldTrash(deletedAt: Option<int>, cutoff: int) {
    deletedAt.Some? && deletedAt.value < cutoff
  }

  /** PurgeDeletedNotes and PurgeDeletedCards in one transaction. */
  function Purged(a: Account, cutoff: int): Account {
    Account(PurgeCards(a.tables, cutoff).0, map id | id in a.notes && !OldTrash(a.notes[id], cutoff) :: a.notes[id])
  }

  /** Exactly the notes deleted before the cutoff go, and the cards of
      PurgeDeletedCards; the rest is as it was. */
  lemma PurgedRows(a: Account, cutoff: int)
    ensures var p := Purged(a, cutoff);
            && (forall n :: n in p.notes <==>
                  n in a.notes && !(a.notes[n].Some? && a.notes[n].value < cutoff))
            && (forall n :: n in p.notes ==> p.notes[n] == a.notes[n])
            && PurgedOnly(a.tables, p.tables, cutoff)
  {
    PurgedExactly(a.tables, cutoff);
    hide PurgedOnly, PurgeCards;
  }

  predicate Listed(accounts: map<string, Account>, users: seq<string>) {
    Distinct(users) && forall i :: 0 <= i < |users| ==> users[i] in accounts
  }

  /** The notes and cards a purge removes from an account. */
  function Lost(a: Account, cutoff: int): (set<string>, set<string>) {
    (a.notes.Keys - Purged(a, cutoff).notes.Keys, a.tables.cards.Keys - Purged(a, cutoff).tables.cards.Keys)
  }

  /** How many that is for the first `n` accounts. */
  function NotesGone(accounts: map<string, Account>, users: seq<string>, n: nat, cutoff: int): nat
    requires Listed(accounts, users) && n <= |users|
  {
    if n == 0 then 0
    else NotesGone(accounts, users, n - 1, cutoff) + |Lost(accounts[users[n - 1]], cutoff).0|
  }

  function CardsGone(accounts: map<string, Account>, users: seq<string>, n: nat, cutoff: int): nat
    requires Listed(accounts, users) && n <= |users|
  {
    if n == 0 then 0
    else CardsGone(accounts, users, n - 1, cutoff) + |Lost(accounts[users[n - 1]], cutoff).1|
  }

  /** The first `n` accounts are purged, the others are as they were. */
  predicate Swept(users: seq<string>, before: map<string, Account>, cutoff: int, after: map<string, Account>, n: nat)
    requires n <= |users|
  {
    && after.Keys == before.Keys
    && forall u :: u in before ==> after[u] == if u in users[..n] then Purged(before[u], cutoff) else before[u]
  }

  lemma SweptOneMore(users: seq<string>, before: map<string, Account>, cutoff: int, after: map<string, Account>, n: nat)
    requires Listed(before, users) && n < |users| && Swept(users, before, cutoff, after, n)
    ensures users[n] in after && after[users[n]] == before[users[n]]
    ensures Swept(users, before, cutoff, after[users[n] := Purged(before[users[n]], cutoff)], n + 1)
  {
    hide Purged;
    assert users[..n + 1] == users[..n] + [users[n]];
  }

  /** The accounts purged are those before the first whose transaction fails,
      so all are if and only if none fails. The rows counted are theirs, and
      those of the failing account too if it failed at its commit: the counters
      have moved by then. */
  method PurgeTrash(users: seq<string>, accounts: map<string, Account>, cutoff: int, fails: string -> Outage)
    returns (after: map<string, Account>, out: PurgeResult, failed: Option<string>)
    requires Listed(accounts, users)
    ensures out.accounts <= |users| && Swept(users, accounts, cutoff, after, out.accounts)
    ensures forall j :: 0 <= j < out.accounts ==> fails(users[j]) == Never
    ensures out.accounts < |users| ==> fails(users[out.accounts]) != Never
    ensures failed == if out.accounts < |users| then Some(users[out.accounts]) else None
    ensures failed.None? <==> forall j :: 0 <= j < |users| ==> fails(users[j]) == Never
    ensures var counted := if failed.Some? && fails(failed.value) == AtCommit then out.accounts + 1 else out.accounts;
            && out.notes == NotesGone(accounts, users, counted, cutoff)
            && out.cards == CardsGone(accounts, users, counted, cutoff)
  {
    hide *;
    after, out, failed := accounts, PurgeResult(0, 0, 0), None;
    NoneSwept(users, accounts, cutoff);
    for i := 0 to |users|
      invariant out.accounts == i && failed == None && Swept(users, accounts, cutoff, after, i)
      invariant forall j :: 0 <= j < i ==> fails(users[j]) == Never
      invariant out.notes == NotesGone(accounts, users, i, cutoff)
      invariant out.cards == CardsGone(accounts, users, i, cutoff)
    {
      var u := users[i];
      if fails(u) == InStatement { return after, out, Some(u); }
      SweptOneMore(users, accounts, cutoff, after, i);
      var a := after[u];
      OneMoreGone(accounts, users, i, cutoff);
      var p, lost := Purged(a, cutoff), Lost(a, cutoff);
      out := out.(notes := out.notes + |lost.0|, cards := out.cards + |lost.1|);
      if fails(u) == AtCommit { return after, out, Some(u); }
      after := after[u := p];
      out := out.(accounts := out.accounts + 1);
    }
  }

  lemma OneMoreGone(accounts: map<string, Account>, users: seq<string>, n: nat, cutoff: int)
    requires Listed(accounts, users) && n < |users|
    ensures users[n] in accounts
    ensures var lost := Lost(accounts[users[n]], cutoff);
            && NotesGone(accounts, users, n + 1, cutoff) == NotesGone(accounts, users, n, cutoff) + |lost.0|
            && CardsGone(accounts, users, n + 1, cutoff) == CardsGone(accounts, users, n, cutoff) + |lost.1|
  {
    hide Lost;
  }

  lemma NoneSwept(users: seq<string>, accounts: map<string, Account>, cutoff: int)
    requires Listed(accounts, users)
    ensures Swept(users, accounts, cutoff, accounts, 0)
    ensures NotesGone(accounts, users, 0, cutoff) == 0 && CardsGone(accounts, users, 0, cutoff) == 0
  {
  }
}
