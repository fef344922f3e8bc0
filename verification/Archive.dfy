/** The paths of an archive, in order: what they may be, and that nothing
    overwrites anything. */
module Archive {
  import opened Sequences
  import opened Naming
  import opened Text

  /** A note or a card, as far as its path goes: a card's title is its front. */
  datatype Item = Item(id: string, title: string, deleted: bool)

  /** The folder and the base name an item asks for. */
  datatype Wanted = Wanted(dir: string, base: string)

  /** An id in its 36-character text form. */
  predicate IsUuid(id: string) {
    |id| == 36 && forall i :: 0 <= i < 36 ==> '0' <= id[i] <= '9' || 'a' <= id[i] <= 'f' || id[i] == '-'
  }

  predicate Identified(items: seq<Item>) {
    forall i :: 0 <= i < |items| ==> IsUuid(items[i].id)
  }

  function Folder(kind: string, x: Item): string {
    if x.deleted then kind + "terhapus/" else kind
  }

  function Wants(u: Unicode, kind: string, items: seq<Item>): (w: seq<Wanted>)
    requires Identified(items)
    ensures |w| == |items|
  {
    seq(|items|, i requires 0 <= i < |items| => Wanted(Folder(kind, items[i]), Base(u, items[i].title, items[i].id)))
  }

  const TABLE_COUNT := 17

  function Tables(): (names: seq<string>)
    ensures |names| == TABLE_COUNT
  {
    ["user", "settings", "domains", "categories", "notes", "note-categories", "cards", "card-categories",
     "schedules", "reviews", "focus-sessions", "review-sets", "review-set-domains", "review-set-categories",
     "review-set-cards", "review-runs", "review-run-cards"]
  }

  function DataPaths(n: nat): (paths: seq<string>)
    requires n <= TABLE_COUNT
    ensures |paths| == n
  {
    seq(n, i requires 0 <= i < n => "data/" + Tables()[i] + ".json")
  }

  // ----- what naming in order means -----------------------------------------

  ghost predicate TakesFirstFree(w: Wanted, used: set<string>, path: string) {
    exists i: nat :: FirstFree(used, w.dir, w.base, i) && path == w.dir + NameAt(w.base, i)
  }

  /** Every path is the first free candidate given the paths before it. */
  ghost predicate NamedInOrder(want: seq<Wanted>, paths: seq<string>) {
    && |paths| == |want|
    && forall k :: 0 <= k < |want| ==> TakesFirstFree(want[k], Elements(paths[..k]), paths[k])
  }

  lemma FirstFreeUnique(w: Wanted, used: set<string>, a: string, b: string)
    requires TakesFirstFree(w, used, a) && TakesFirstFree(w, used, b)
    ensures a == b && a !in used
  {
    var i: nat :| FirstFree(used, w.dir, w.base, i) && a == w.dir + NameAt(w.base, i);
    var j: nat :| FirstFree(used, w.dir, w.base, j) && b == w.dir + NameAt(w.base, j);
    hide NameAt;
    assert i == j;
  }

  /** The requirement fixes the paths: no other list satisfies it. */
  lemma {:induction false} PathsDetermined(want: seq<Wanted>, a: seq<string>, b: seq<string>, k: nat)
    requires NamedInOrder(want, a) && NamedInOrder(want, b) && k <= |want|
    ensures a[..k] == b[..k]
  {
    hide TakesFirstFree;
    if k > 0 {
      PathsDetermined(want, a, b, k - 1);
      FirstFreeUnique(want[k - 1], Elements(a[..k - 1]), a[k - 1], b[k - 1]);
      assert a[..k] == a[..k - 1] + [a[k - 1]] && b[..k] == b[..k - 1] + [b[k - 1]];
    }
  }

  /** No file overwrites another, whatever the titles are. */
  lemma NamesDistinct(want: seq<Wanted>, paths: seq<string>)
    requires NamedInOrder(want, paths)
    ensures Distinct(paths)
  {
    hide TakesFirstFree;
    forall i, j | 0 <= i < j < |paths| ensures paths[i] != paths[j] {
      FirstFreeUnique(want[j], Elements(paths[..j]), paths[j], paths[j]);
      assert paths[..j][i] == paths[i];
    }
  }

  /** The part after the folder is one file name: nothing escapes the folder. */
  ghost predicate DirectlyIn(dir: string, path: string) {
    dir < path && '/' !in path[|dir|..]
  }

  lemma PlacedDirectly(w: Wanted, used: set<string>, path: string)
    requires TakesFirstFree(w, used, path) && '/' !in w.base
    ensures DirectlyIn(w.dir, path)
  {
    var i: nat :| FirstFree(used, w.dir, w.base, i) && path == w.dir + NameAt(w.base, i);
    assert path[|w.dir|..] == NameAt(w.base, i);
    var digits := Decimal(i);
    assert forall k :: 0 <= k < |digits| ==> IsDigit(digits[k]);
    assert '/' !in digits;
    hide Decimal;
    assert '/' !in NameAt(w.base, i);
  }

  // ----- the fixed files ----------------------------------------------------

  lemma TablesDistinct()
    ensures Distinct(Tables())
  {
  }

  /** The tables go to different files. */
  lemma DataPathsDistinct()
    ensures Distinct(DataPaths(TABLE_COUNT))
  {
    TablesDistinct();
    hide Tables;
    var paths := DataPaths(TABLE_COUNT);
    forall i, j | 0 <= i < j < |paths| ensures paths[i] != paths[j] {
      assert paths[i][5..|paths[i]| - 5] == Tables()[i] && paths[j][5..|paths[j]| - 5] == Tables()[j];
    }
  }

  // ----- the whole archive --------------------------------------------------

  lemma Extends(want: seq<Wanted>, paths: seq<string>, w: Wanted, path: string)
    requires NamedInOrder(want, paths) && TakesFirstFree(w, Elements(paths), path)
    ensures NamedInOrder(want + [w], paths + [path])
    ensures Elements(paths + [path]) == Elements(paths) + {path}
  {
    hide TakesFirstFree;
    var more := paths + [path];
    forall k | 0 <= k < |more| ensures TakesFirstFree((want + [w])[k], Elements(more[..k]), more[k]) {
      assert more[..k] == if k < |paths| then paths[..k] else paths;
    }
  }

  lemma Taken(w: Wanted, used: set<string>, i: nat)
    requires FirstFree(used, w.dir, w.base, i)
    ensures TakesFirstFree(w, used, w.dir + NameAt(w.base, i))
  {
  }

  function AllWanted(u: Unicode, notes: seq<Item>, cards: seq<Item>): (want: seq<Wanted>)
    requires Identified(notes) && Identified(cards)
    ensures |want| == |notes| + |cards|
  {
    Wants(u, "notes/", notes) + Wants(u, "cards/", cards)
  }

  /** The readme, the notes and cards each under the next free name, the tables. */
  ghost predicate IsArchive(u: Unicode, notes: seq<Item>, cards: seq<Item>, paths: seq<string>)
    requires Identified(notes) && Identified(cards)
  {
    && |paths| > TABLE_COUNT && paths[0] == "README.md"
    && NamedInOrder(AllWanted(u, notes, cards), paths[1..|paths| - TABLE_COUNT])
    && paths[|paths| - TABLE_COUNT..] == DataPaths(TABLE_COUNT)
  }

  lemma NothingNamed()
    ensures NamedInOrder([], []) && Elements<string>([]) == {}
  {
  }

  /** One entry per note, one per card and 18 fixed files, all paths different,
      each note and card a file directly in its own folder. */
  lemma ArchiveIsComplete(u: Unicode, notes: seq<Item>, cards: seq<Item>, paths: seq<string>)
    requires Facts(u) && Identified(notes) && Identified(cards) && IsArchive(u, notes, cards, paths)
    ensures |paths| == 18 + |notes| + |cards| && Distinct(paths)
    ensures Placed(notes, cards, paths[1..|paths| - TABLE_COUNT])  // 1: after the readme
  {
    hide *;
    Opened(u, notes, cards, paths);
    var named := paths[1..|paths| - TABLE_COUNT];
    AllPlaced(u, notes, cards, named);
    NamesDistinct(AllWanted(u, notes, cards), named);
    DataPathsDistinct();
    Apart(named);
  }

  lemma Opened(u: Unicode, notes: seq<Item>, cards: seq<Item>, paths: seq<string>)
    requires Identified(notes) && Identified(cards) && IsArchive(u, notes, cards, paths)
    ensures |paths| > TABLE_COUNT
    ensures var named := paths[1..|paths| - TABLE_COUNT];
            && |named| == |notes| + |cards| && |paths| == 18 + |named|
            && NamedInOrder(AllWanted(u, notes, cards), named)
            && paths == ["README.md"] + named + DataPaths(TABLE_COUNT)
  {
    hide DataPaths, Wants, Identified, TakesFirstFree;
    assert |paths[1..|paths| - TABLE_COUNT]| == |notes| + |cards|;
    hide NamedInOrder;
    Assembled(paths, "README.md", paths[1..|paths| - TABLE_COUNT], DataPaths(TABLE_COUNT));
  }

  lemma Assembled(paths: seq<string>, first: string, named: seq<string>, data: seq<string>)
    requires |data| < |paths| && paths[0] == first
    requires paths[1..|paths| - |data|] == named && paths[|paths| - |data|..] == data
    ensures paths == [first] + named + data
  {
  }

  /** Notes first, then cards, each directly in the folder of its kind and state. */
  ghost predicate Placed(notes: seq<Item>, cards: seq<Item>, named: seq<string>) {
    && |named| == |notes| + |cards|
    && (forall i :: 0 <= i < |notes| ==> DirectlyIn(Folder("notes/", notes[i]), named[i]))
    && (forall i :: 0 <= i < |cards| ==> DirectlyIn(Folder("cards/", cards[i]), named[|notes| + i]))
  }

  lemma AllPlaced(u: Unicode, notes: seq<Item>, cards: seq<Item>, named: seq<string>)
    requires Facts(u) && Identified(notes) && Identified(cards) && NamedInOrder(AllWanted(u, notes, cards), named)
    ensures Placed(notes, cards, named)
    ensures forall k :: 0 <= k < |named| ==> named[k] != "" && named[k][0] in "nc"
  {
    var want := AllWanted(u, notes, cards);
    forall k | 0 <= k < |want|
      ensures DirectlyIn(want[k].dir, named[k]) && named[k] != "" && named[k][0] in "nc"
    {
      var x := if k < |notes| then notes[k] else cards[k - |notes|];
      BaseHasNoSlash(u, x.title, x.id);
      PlacedDirectly(want[k], Elements(named[..k]), named[k]);
    }
    hide NamedInOrder, Facts, Base, DirectlyIn;
    forall i | 0 <= i < |notes| ensures DirectlyIn(Folder("notes/", notes[i]), named[i]) {
      assert want[i].dir == Folder("notes/", notes[i]);
    }
    forall i | 0 <= i < |cards| ensures DirectlyIn(Folder("cards/", cards[i]), named[|notes| + i]) {
      assert want[|notes| + i].dir == Folder("cards/", cards[i]);
    }
  }

  /** The titles and ids fix every path: there is no other archive. */
  lemma ArchiveIsDetermined(u: Unicode, notes: seq<Item>, cards: seq<Item>, a: seq<string>, b: seq<string>)
    requires Facts(u) && Identified(notes) && Identified(cards)
    requires IsArchive(u, notes, cards, a) && IsArchive(u, notes, cards, b)
    ensures a == b
  {
    hide *;
    Opened(u, notes, cards, a);
    Opened(u, notes, cards, b);
    var want := AllWanted(u, notes, cards);
    var x, y := a[1..|a| - TABLE_COUNT], b[1..|b| - TABLE_COUNT];
    PathsDetermined(want, x, y, |want|);
    assert x[..|want|] == x && y[..|want|] == y;
  }

  lemma Apart(named: seq<string>)
    requires Distinct(named) && Distinct(DataPaths(TABLE_COUNT))
    requires forall k :: 0 <= k < |named| ==> named[k] != "" && named[k][0] in "nc"
    ensures Distinct(["README.md"] + named + DataPaths(TABLE_COUNT))
  {
    hide Tables;
    var data := DataPaths(TABLE_COUNT);
    assert forall k :: 0 <= k < |data| ==> data[k][0] == 'd';
    hide DataPaths;
    var paths := ["README.md"] + named + data;
    assert paths[0][0] == 'R';
    forall i, j | 0 <= i < j < |paths| ensures paths[i] != paths[j] {
      if i <= |named| < j {
        assert paths[j] == data[j - 1 - |named|];
        assert paths[j][0] == 'd' && paths[i][0] in "Rnc";
      } else if i == 0 {
        assert paths[j] == named[j - 1];
      } else if j <= |named| {
        assert paths[i] == named[i - 1] && paths[j] == named[j - 1];
      } else {
        assert paths[i] == data[i - 1 - |named|] && paths[j] == data[j - 1 - |named|];
      }
    }
  }
}
