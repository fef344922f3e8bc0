/** Offset paging end to end: the list query, the server's clamps and its
    empty-page total, and the client that walks until there is no next offset. */
module Paging {
  import opened Text
  import opened Sequences

  // ----- the query ----------------------------------------------------------

  datatype Note = Note(id: string, title: string, updatedAt: int, domain: Option<string>, categories: set<string>,
      deleted: bool)

  /** The query's filters; `like` stands for ILIKE on the title. */
  datatype Filter = Filter(deleted: bool, domains: set<string>, categories: set<string>, like: Option<string -> bool>)

  predicate Matches(n: Note, f: Filter) {
    && n.deleted == f.deleted
    && (f.domains == {} || (n.domain.Some? && n.domain.value in f.domains))
    && (f.categories == {} || n.categories * f.categories != {})
    && (f.like.None? || f.like.value(n.title))
  }

  /** ORDER BY updated_at DESC, id DESC. */
  predicate ListedBefore(a: Note, b: Note) {
    a.updatedAt > b.updatedAt || (a.updatedAt == b.updatedAt && LexLt(b.id, a.id))
  }

  /** All matching rows, in the query's order. */
  ghost predicate IsListing(rows: seq<Note>, table: set<Note>, f: Filter) {
    && (forall n :: n in rows <==> n in table && Matches(n, f))
    && (forall i, j :: 0 <= i < j < |rows| ==> ListedBefore(rows[i], rows[j]))
  }

  /** The primary key. */
  ghost predicate UniqueIds(table: set<Note>) {
    forall a, b :: a in table && b in table && a.id == b.id ==> a == b
  }

  lemma ListedTotal(a: Note, b: Note)
    ensures a.id != b.id ==> ListedBefore(a, b) || ListedBefore(b, a)
    ensures !(ListedBefore(a, b) && ListedBefore(b, a)) && (ListedBefore(a, b) ==> a != b)
  {
    LexTotal(a.id, b.id);
  }

  /** The id breaks every tie, so the order of the list is fixed and two pages
      of it can never disagree. */
  lemma ListingUnique(a: seq<Note>, b: seq<Note>, table: set<Note>, f: Filter)
    requires IsListing(a, table, f) && IsListing(b, table, f)
    ensures a == b
  {
    forall x, y ensures !(ListedBefore(x, y) && ListedBefore(y, x)) { ListedTotal(x, y); }
    hide ListedBefore;
    OrderedSame(a, b, ListedBefore);
  }

  ghost predicate Ordered(a: seq<Note>) {
    InOrder(a, ListedBefore)
  }

  lemma ListedTrans(a: Note, b: Note, c: Note)
    ensures ListedBefore(a, b) && ListedBefore(b, c) ==> ListedBefore(a, c)
  {
    if LexLt(c.id, b.id) && LexLt(b.id, a.id) { LexTrans(c.id, b.id, a.id); }
  }

  /** One more row in its place. */
  lemma {:induction false} Inserted(n: Note, rows: seq<Note>) returns (more: seq<Note>)
    requires Ordered(rows) && forall m :: m in rows ==> m.id != n.id
    ensures Ordered(more) && forall m :: m in more <==> m in rows || m == n
  {
    if rows == [] {
      more := [n];
    } else {
      var head, rest := rows[0], rows[1..];
      assert rows == [head] + rest && head in rows;
      ListedTotal(n, head);
      hide ListedBefore;
      if ListedBefore(n, head) {
        more := [n] + rows;
        forall j | 0 <= j < |rows| ensures ListedBefore(n, rows[j]) { ListedTrans(n, head, rows[j]); }
      } else {
        var tail := Inserted(n, rest);
        more := [head] + tail;
        forall j | 0 <= j < |tail| ensures ListedBefore(head, tail[j]) {
          assert tail[j] in tail;
          if tail[j] != n { var k :| 0 <= k < |rest| && rest[k] == tail[j]; assert rows[k + 1] == rest[k]; }
        }
      }
    }
  }

  /** With the id as tie-break a listing exists for every filter. */
  lemma {:induction false} ListingExists(table: set<Note>, f: Filter) returns (rows: seq<Note>)
    requires UniqueIds(table)
    ensures IsListing(rows, table, f)
    decreases |table|
  {
    if table == {} {
      rows := [];
    } else {
      var n :| n in table;
      rows := ListingExists(table - {n}, f);
      hide Matches, ListedBefore;
      if Matches(n, f) {
        assert Ordered(rows);
        rows := Inserted(n, rows);
      }
    }
  }

  lemma ListingDistinct(rows: seq<Note>, table: set<Note>, f: Filter)
    requires IsListing(rows, table, f)
    ensures Distinct(rows)
  {
    forall i, j | 0 <= i < j < |rows| ensures rows[i] != rows[j] { ListedTotal(rows[i], rows[j]); }
  }

  // ----- the server ---------------------------------------------------------

  const DEFAULT_LIMIT := 50
  const MAX_LIMIT := 200
  const MAX_OFFSET := 0x4000_0000

  /** A query parameter: None when it is absent or not a number. */
  function IntParam(raw: Option<int>, default: int, min: int, max: int): (n: int)
    requires min <= default <= max
    ensures min <= n <= max
  {
    if raw.None? then default else if raw.value < min then min else if raw.value > max then max else raw.value
  }

  /** LIMIT/OFFSET over the listing; every row carries the window count. */
  function ListRows<T>(all: seq<T>, limit: nat, offset: nat): seq<(T, nat)> {
    var lo := if offset < |all| then offset else |all|;
    var hi := if offset + limit < |all| then offset + limit else |all|;
    seq(hi - lo, i requires 0 <= i < hi - lo => (all[lo + i], |all|))
  }

  datatype Page<T> = Page(items: seq<T>, total: nat, limit: int, offset: int)

  function PageTotal<T>(rows: seq<(T, nat)>, offset: nat, top: seq<(T, nat)>): nat {
    if |rows| > 0 then rows[0].1
    else if offset == 0 then 0
    else if |top| == 0 then 0
    else top[0].1
  }

  function Serve<T>(all: seq<T>, rawLimit: Option<int>, rawOffset: Option<int>): Page<T> {
    var limit := IntParam(rawLimit, DEFAULT_LIMIT, 1, MAX_LIMIT);
    var offset := IntParam(rawOffset, 0, 0, MAX_OFFSET);
    var rows := ListRows(all, limit, offset);
    Page(seq(|rows|, i requires 0 <= i < |rows| => rows[i].0), PageTotal(rows, offset, ListRows(all, 1, 0)), limit,
        offset)
  }

  /** The total is the full match count at every offset, also past the end,
      and the items are the rows at the offset asked for, clamped. */
  lemma ServeIs<T>(all: seq<T>, rawLimit: Option<int>, rawOffset: Option<int>)
    ensures var p := Serve(all, rawLimit, rawOffset);
            && p.total == |all|
            && 1 <= p.limit <= 200 && 0 <= p.offset <= 0x4000_0000
            && (rawLimit.None? ==> p.limit == 50) && (rawOffset.None? ==> p.offset == 0)
            && (rawLimit.Some? ==>
                  if 1 <= rawLimit.value <= 200 then p.limit == rawLimit.value
                  else p.limit == (if rawLimit.value < 1 then 1 else 200))
            && (rawOffset.Some? ==>
                  if 0 <= rawOffset.value <= 0x4000_0000 then p.offset == rawOffset.value
                  else p.offset == (if rawOffset.value < 0 then 0 else 0x4000_0000))
            && p.items == if p.offset >= |all| then []
                else if p.offset + p.limit < |all| then all[p.offset..p.offset + p.limit] else all[p.offset..]
  {
  }

  // ----- the client ---------------------------------------------------------

  function Loaded<T>(pages: seq<Page<T>>): nat {
    if pages == [] then 0 else Loaded(pages[..|pages| - 1]) + |pages[|pages| - 1].items|
  }

  function NextOffset<T>(pages: seq<Page<T>>): Option<nat>
    requires pages != []
  {
    var loaded := Loaded(pages);
    if loaded < pages[|pages| - 1].total then Some(loaded) else None
  }

  function PageItems<T>(pages: seq<Page<T>>): (items: seq<T>)
    ensures |items| == Loaded(pages)
  {
    if pages == [] then [] else PageItems(pages[..|pages| - 1]) + pages[|pages| - 1].items
  }

  /** Ask, then ask from nextOffset until there is none. `ask` is the limit
      each request happens to carry. */
  function Walk<T>(all: seq<T>, ask: nat -> Option<int>, pages: seq<Page<T>>): seq<Page<T>>
    requires forall i :: 0 <= i < |pages| ==> pages[i].total == |all|
    decreases if Loaded(pages) < |all| then |all| - Loaded(pages) else 0, if pages == [] then 1 else 0
  {
    if pages != [] && NextOffset(pages) == None then pages
    else
      var from := if pages == [] then 0 else NextOffset(pages).value;
      var p := Serve(all, ask(|pages|), Some(from));
      ServeIs(all, ask(|pages|), Some(from));
      assert (pages + [p])[..|pages|] == pages;
      Walk(all, ask, pages + [p])
  }

  lemma OnePageMore<T>(pages: seq<Page<T>>, p: Page<T>)
    ensures PageItems(pages + [p]) == PageItems(pages) + p.items && Loaded(pages + [p]) == Loaded(pages) + |p.items|
  {
    assert (pages + [p])[..|pages|] == pages;
  }

  lemma {:induction false} WalkCompletes<T>(all: seq<T>, ask: nat -> Option<int>, pages: seq<Page<T>>)
    requires forall i :: 0 <= i < |pages| ==> pages[i].total == |all|
    requires |all| <= MAX_OFFSET + 1
    requires Loaded(pages) <= |all| && PageItems(pages) == all[..Loaded(pages)]
    ensures PageItems(Walk(all, ask, pages)) == all
    decreases |all| - Loaded(pages), if pages == [] then 1 else 0
  {
    if pages != [] && NextOffset(pages) == None {
      assert all[..|all|] == all;
    } else {
      var from := Loaded(pages);
      var p := Serve(all, ask(|pages|), Some(from));
      NextPage(all, ask(|pages|), from);
      OnePageMore(pages, p);
      hide Serve, PageItems, Loaded;
      assert all[..from] + p.items == all[..from + |p.items|];
      WalkCompletes(all, ask, pages + [p]);
    }
  }

  lemma NextPage<T>(all: seq<T>, limit: Option<int>, from: nat)
    requires from <= MAX_OFFSET && from <= |all|
    ensures var p := Serve(all, limit, Some(from));
            && p.total == |all| && |p.items| <= |all| - from && p.items == all[from..from + |p.items|]
            && (from < |all| ==> p.items != [])
  {
    ServeIs(all, limit, Some(from));
  }

  lemma {:induction false} WalkExtends<T>(all: seq<T>, ask: nat -> Option<int>, pages: seq<Page<T>>)
    requires forall i :: 0 <= i < |pages| ==> pages[i].total == |all|
    ensures PageItems(pages) <= PageItems(Walk(all, ask, pages))
    decreases if Loaded(pages) < |all| then |all| - Loaded(pages) else 0, if pages == [] then 1 else 0
  {
    if !(pages != [] && NextOffset(pages) == None) {
      var from := if pages == [] then 0 else NextOffset(pages).value;
      var p := Serve(all, ask(|pages|), Some(from));
      ServeIs(all, ask(|pages|), Some(from));
      OnePageMore(pages, p);
      WalkExtends(all, ask, pages + [p]);
    }
  }

  /** Asking one row at a time shows the row at the clamp twice. */
  lemma {:induction false} CrawlRepeats<T>(all: seq<T>, ask: nat -> Option<int>, pages: seq<Page<T>>)
    requires forall i :: 0 <= i < |pages| ==> pages[i].total == |all|
    requires |all| > MAX_OFFSET + 1 && forall i :: ask(i) == Some(1)
    requires Loaded(pages) <= MAX_OFFSET + 1 && PageItems(pages) == all[..Loaded(pages)]
    ensures Repeats(all, PageItems(Walk(all, ask, pages)))
    decreases MAX_OFFSET + 1 - Loaded(pages)
  {
    hide *;
    var p := Serve(all, Some(1), Some(Loaded(pages)));
    WalkStep(all, ask, pages);
    assert ask(|pages|) == Some(1);
    if Loaded(pages) == MAX_OFFSET + 1 {
      RowAgain(all, pages);
      WalkExtends(all, ask, pages + [p]);
      RepeatsStay(all, PageItems(pages + [p]), PageItems(Walk(all, ask, pages + [p])));
    } else {
      RowMore(all, pages);
      CrawlRepeats(all, ask, pages + [p]);
    }
  }

  /** The row at the clamp, and the same row again. */
  predicate Repeats<T(==)>(all: seq<T>, items: seq<T>) {
    |items| > MAX_OFFSET + 1 && |all| > MAX_OFFSET && items[MAX_OFFSET] == all[MAX_OFFSET] == items[MAX_OFFSET + 1]
  }

  lemma RepeatsStay<T>(all: seq<T>, items: seq<T>, more: seq<T>)
    requires Repeats(all, items) && items <= more
    ensures Repeats(all, more)
  {
  }

  lemma RowAgain<T>(all: seq<T>, pages: seq<Page<T>>)
    requires Loaded(pages) == MAX_OFFSET + 1 < |all| && PageItems(pages) == all[..MAX_OFFSET + 1]
    ensures Repeats(all, PageItems(pages + [Serve(all, Some(1), Some(MAX_OFFSET + 1))]))
  {
    var p := Serve(all, Some(1), Some(MAX_OFFSET + 1));
    OneRow(all, MAX_OFFSET + 1);
    OnePageMore(pages, p);
    hide Serve, PageItems, Loaded;
  }

  lemma RowMore<T>(all: seq<T>, pages: seq<Page<T>>)
    requires Loaded(pages) <= MAX_OFFSET < |all| - 1 && PageItems(pages) == all[..Loaded(pages)]
    ensures var next := pages + [Serve(all, Some(1), Some(Loaded(pages)))];
            Loaded(next) == Loaded(pages) + 1 && PageItems(next) == all[..Loaded(next)]
  {
    var from := Loaded(pages);
    var p := Serve(all, Some(1), Some(from));
    OneRow(all, from);
    OnePageMore(pages, p);
    hide Serve, PageItems, Loaded;
    assert all[..from] + [all[from]] == all[..from + 1];
  }

  lemma WalkStep<T>(all: seq<T>, ask: nat -> Option<int>, pages: seq<Page<T>>)
    requires forall i :: 0 <= i < |pages| ==> pages[i].total == |all|
    requires Loaded(pages) < |all|
    ensures var p := Serve(all, ask(|pages|), Some(Loaded(pages)));
            p.total == |all| && Walk(all, ask, pages) == Walk(all, ask, pages + [p])
  {
    ServeIs(all, ask(|pages|), Some(Loaded(pages)));
    hide Serve;
  }

  /** One row at the offset asked for, and at the clamp when that is beyond it. */
  lemma OneRow<T>(all: seq<T>, from: nat)
    requires from <= MAX_OFFSET + 1 < |all|
    ensures var p := Serve(all, Some(1), Some(from));
            p.items == [all[if from <= MAX_OFFSET then from else MAX_OFFSET]]
  {
  }

  /** Whatever limit each request is clamped to, the walk yields every row
      exactly once in the server's order, if and only if the list has at most
      2^30 + 1 rows: beyond that the server clamps the offset asked for. */
  lemma WalkYieldsEveryRowOnce<T(!new)>(all: seq<T>)
    requires Distinct(all)
    ensures (forall ask: nat -> Option<int> :: PageItems(Walk(all, ask, [])) == all) <==> |all| <= MAX_OFFSET + 1
  {
    if |all| <= MAX_OFFSET + 1 {
      forall ask: nat -> Option<int> ensures PageItems(Walk(all, ask, [])) == all { WalkCompletes(all, ask, []); }
    } else {
      var one := WalkRepeatsARow(all);
      hide Walk, PageItems, Distinct;
    }
  }

  /** Beyond that, asking one row at a time shows one row twice. */
  lemma WalkRepeatsARow<T(!new)>(all: seq<T>) returns (ask: nat -> Option<int>)
    requires Distinct(all) && |all| > MAX_OFFSET + 1
    ensures forall i :: ask(i) == Some(1)
    ensures Repeats(all, PageItems(Walk(all, ask, []))) && PageItems(Walk(all, ask, [])) != all
  {
    ask := i => Some(1);
    assert all[MAX_OFFSET] != all[MAX_OFFSET + 1];
    CrawlRepeats(all, ask, []);
    hide Walk, PageItems, Distinct;
  }

  // ----- the notes themselves -----------------------------------------------

  /** A note is listed when it is live, or in the trash for the trash list; when
      domains are chosen, in one of them; when categories are chosen, with one
      of them; and when a text is searched, if its title has it. */
  lemma ListedIff(rows: seq<Note>, table: set<Note>, f: Filter, n: Note)
    requires IsListing(rows, table, f)
    ensures n in rows <==>
      && n in table && n.deleted == f.deleted
      && (f.domains != {} ==> exists d :: d in f.domains && n.domain == Some(d))
      && (f.categories != {} ==> exists c :: c in f.categories && c in n.categories)
      && (f.like.Some? ==> f.like.value(n.title))
  {
    var both := n.categories * f.categories;
    if both != {} { var c :| c in both; assert c in f.categories && c in n.categories; }
    if c :| c in f.categories && c in n.categories { assert c in both; }
    hide ListedBefore;
  }

  /** A note moved to the trash leaves the list it was on and is on the trash
      list of the same filters, stamped with the time; nothing else moves. */
  lemma TrashedMoves(table: set<Note>, n: Note, now: int, f: Filter, before: seq<Note>, live: seq<Note>,
                     trash: seq<Note>)
    requires UniqueIds(table) && n in table && !n.deleted && !f.deleted
    requires IsListing(before, table, f)
    requires var after := table - {n} + {n.(deleted := true, updatedAt := now)};
             IsListing(live, after, f) && IsListing(trash, after, f.(deleted := true))
    ensures forall m :: m in live <==> m in before && m != n
    ensures n.(deleted := true, updatedAt := now) in trash <==> n in before
  {
    hide ListedBefore;
  }

  /** The newest first, and of those saved at one time the higher id. */
  lemma NewestFirst(rows: seq<Note>, table: set<Note>, f: Filter, i: nat, j: nat)
    requires IsListing(rows, table, f) && i < j < |rows|
    ensures rows[i].updatedAt >= rows[j].updatedAt
    ensures rows[i].updatedAt == rows[j].updatedAt ==> LexLt(rows[j].id, rows[i].id)
  {
    assert ListedBefore(rows[i], rows[j]);
  }

  /** What was saved after everything else heads the first page. */
  lemma SavedLastIsFirst(rows: seq<Note>, table: set<Note>, f: Filter, n: Note, limit: Option<int>)
    requires IsListing(rows, table, f) && n in rows
    requires forall m :: m in rows && m != n ==> m.updatedAt < n.updatedAt
    ensures var p := Serve(rows, limit, None); p.items != [] && p.items[0] == n
  {
    ServeIs(rows, limit, None);
    hide Serve, Matches;
    var k :| 0 <= k < |rows| && rows[k] == n;
    if k > 0 {
      NewestFirst(rows, table, f, 0, k);
      assert rows[0] in rows;
      ListedTotal(rows[0], n);
    }
  }

  /** End to end: walking the notes list by any limits shows every matching
      note exactly once, the newest first. */
  lemma NotesWalk(rows: seq<Note>, table: set<Note>, f: Filter, ask: nat -> Option<int>)
    requires IsListing(rows, table, f) && |rows| <= MAX_OFFSET + 1
    ensures var shown := PageItems(Walk(rows, ask, []));
            && IsListing(shown, table, f) && Distinct(shown)
            && forall i, j :: 0 <= i < j < |shown| ==>
                 && shown[i].updatedAt >= shown[j].updatedAt
                 && (shown[i].updatedAt == shown[j].updatedAt ==> LexLt(shown[j].id, shown[i].id))
  {
    ListingDistinct(rows, table, f);
    WalkYieldsEveryRowOnce(rows);
    hide Walk, PageItems;
    forall i, j | 0 <= i < j < |rows|
      ensures rows[i].updatedAt >= rows[j].updatedAt
      ensures rows[i].updatedAt == rows[j].updatedAt ==> LexLt(rows[j].id, rows[i].id)
    {
      NewestFirst(rows, table, f, i, j);
    }
  }
}
