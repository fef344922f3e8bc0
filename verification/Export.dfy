/** Writing the archive of an account: every note and card as a file of its
    own, and every table as JSON. The zip container is a sequence of files. */
module Export {
  import opened Text
  import opened Sequences
  import opened Naming
  import opened Archive
  import opened FrontmatterBlock

  datatype File = File(path: string, body: string)

  datatype Label = Label(id: string, text: string)
  datatype Link = Link(item: string, category: string)
  datatype NoteRow = NoteRow(id: string, note: Note)
  datatype CardRow = CardRow(id: string, card: Flashcard)

  /** The rows read before anything is written. */
  datatype Account = Account(
    domains: seq<Label>,
    categories: seq<Label>,
    notes: seq<NoteRow>,
    noteLinks: seq<Link>,
    cards: seq<CardRow>,
    cardLinks: seq<Link>)

  predicate WellFormed(a: Account) {
    && (forall i :: 0 <= i < |a.notes| ==> IsUuid(a.notes[i].id) && Dated(NoteFront(a.notes[i].note)))
    && (forall i :: 0 <= i < |a.cards| ==> IsUuid(a.cards[i].id) && Dated(CardFront(a.cards[i].card)))
  }

  // ----- lookups ------------------------------------------------------------

  function LabelsById(labels: seq<Label>): map<string, string> {
    if labels == [] then map[]
    else
      var l := labels[|labels| - 1];
      LabelsById(labels[..|labels| - 1])[l.id := l.text]
  }

  /** An item's category labels in link order; a link to nothing is skipped. */
  function TagsOf(links: seq<Link>, labels: map<string, string>, item: string): seq<string> {
    if links == [] then []
    else
      var l := links[|links| - 1];
      TagsOf(links[..|links| - 1], labels, item)
      + (if l.item == item && l.category in labels then [labels[l.category]] else [])
  }

  /** Each link stands for one label or for none, in its place. */
  lemma {:induction false} TagsInLinkOrder(a: seq<Link>, l: Link, b: seq<Link>, labels: map<string, string>,
                                           item: string)
    ensures TagsOf(a + [l] + b, labels, item)
         == TagsOf(a, labels, item)
            + (if l.item == item && l.category in labels then [labels[l.category]] else [])
            + TagsOf(b, labels, item)
    ensures TagsOf([], labels, item) == []
    decreases |b|
  {
    var all := a + [l] + b;
    if b == [] {
      assert all == a + [l] && (a + [l])[..|a|] == a;
    } else {
      TagsInLinkOrder(a, l, b[..|b| - 1], labels, item);
      assert all[..|all| - 1] == a + [l] + b[..|b| - 1] && all[|all| - 1] == b[|b| - 1];
    }
  }

  /** With ids that name their rows an id stands for its own label. */
  lemma {:induction false} LabelOfId(labels: seq<Label>, id: string)
    requires forall i, j :: 0 <= i < j < |labels| ==> labels[i].id != labels[j].id
    ensures id in LabelsById(labels) <==> exists i :: 0 <= i < |labels| && labels[i].id == id
    ensures forall i :: 0 <= i < |labels| ==>
              labels[i].id in LabelsById(labels) && LabelsById(labels)[labels[i].id] == labels[i].text
  {
    if labels != [] {
      var init := labels[..|labels| - 1];
      LabelOfId(init, id);
      if i :| 0 <= i < |init| && init[i].id == id { assert labels[i].id == id; }
    }
  }

  function Lookup(m: map<string, seq<string>>, key: string): seq<string> {
    if key in m then m[key] else []
  }

  method IndexLabels(labels: seq<Label>) returns (byId: map<string, string>)
    ensures byId == LabelsById(labels)
  {
    byId := map[];
    for i := 0 to |labels|
      invariant byId == LabelsById(labels[..i])
    {
      assert labels[..i + 1][..i] == labels[..i];
      byId := byId[labels[i].id := labels[i].text];
    }
    assert labels[..|labels|] == labels;
  }

  method IndexTags(links: seq<Link>, labels: map<string, string>) returns (byItem: map<string, seq<string>>)
    ensures forall item :: Lookup(byItem, item) == TagsOf(links, labels, item)
  {
    byItem := map[];
    for i := 0 to |links|
      invariant forall item :: Lookup(byItem, item) == TagsOf(links[..i], labels, item)
    {
      assert links[..i + 1][..i] == links[..i];
      var l := links[i];
      if l.category in labels {
        byItem := byItem[l.item := Lookup(byItem, l.item) + [labels[l.category]]];
      }
    }
    assert links[..|links|] == links;
  }

  // ----- what an archive holds ----------------------------------------------

  function Paths(files: seq<File>): (paths: seq<string>)
    ensures |paths| == |files| && forall i :: 0 <= i < |files| ==> paths[i] == files[i].path
  {
    seq(|files|, i requires 0 <= i < |files| => files[i].path)
  }

  function NoteItems(a: Account): (items: seq<Item>)
    requires WellFormed(a)
    ensures |items| == |a.notes| && Identified(items)
  {
    seq(|a.notes|, i requires 0 <= i < |a.notes| =>
      Item(a.notes[i].id, a.notes[i].note.title, a.notes[i].note.deleted.Some?))
  }

  function CardItems(a: Account): (items: seq<Item>)
    requires WellFormed(a)
    ensures |items| == |a.cards| && Identified(items)
  {
    seq(|a.cards|, i requires 0 <= i < |a.cards| =>
      Item(a.cards[i].id, a.cards[i].card.front, a.cards[i].card.deleted.Some?))
  }

  function NoteTags(a: Account, i: nat): seq<string>
    requires i < |a.notes|
  {
    TagsOf(a.noteLinks, LabelsById(a.categories), a.notes[i].id)
  }

  function CardTags(a: Account, i: nat): seq<string>
    requires i < |a.cards|
  {
    TagsOf(a.cardLinks, LabelsById(a.categories), a.cards[i].id)
  }

  predicate NotesHeld(a: Account, files: seq<File>)
    requires WellFormed(a)
  {
    && |files| >= |a.notes|
    && forall i :: 0 <= i < |a.notes| ==>
         files[i].body == NoteFile(a.notes[i].note, LabelsById(a.domains), NoteTags(a, i))
  }

  predicate CardsHeld(a: Account, files: seq<File>)
    requires WellFormed(a)
  {
    && |files| >= |a.cards|
    && forall i :: 0 <= i < |a.cards| ==>
         files[i].body == CardFile(a.cards[i].card, LabelsById(a.domains), CardTags(a, i))
  }

  /** The first `n` tables. `encode` is the JSON of a table, or None when it
      cannot be encoded. */
  predicate TablesHeld(encode: string -> Option<string>, files: seq<File>, n: nat) {
    && n <= TABLE_COUNT && |files| == n
    && forall k :: 0 <= k < n ==>
         && encode(Tables()[k]).Some?
         && files[k] == File("data/" + Tables()[k] + ".json", encode(Tables()[k]).value + "\n")
  }

  /** The readme, every note and card under its own name, and `n` tables. */
  ghost predicate IsExport(u: Unicode, a: Account, readme: string, encode: string -> Option<string>, files: seq<File>,
                           n: nat)
    requires WellFormed(a)
  {
    && |files| == 1 + |a.notes| + |a.cards| + n
    && files[0] == File("README.md", readme)
    && NamedInOrder(AllWanted(u, NoteItems(a), CardItems(a)), Paths(files[1..1 + |a.notes| + |a.cards|]))
    && NotesHeld(a, files[1..1 + |a.notes|])
    && CardsHeld(a, files[1 + |a.notes|..1 + |a.notes| + |a.cards|])
    && TablesHeld(encode, files[1 + |a.notes| + |a.cards|..], n)
  }

  // ----- writing ------------------------------------------------------------

  /** The first `i` of `all`, after those asked before, have their names. */
  ghost predicate Named(asked: seq<Wanted>, all: seq<Wanted>, i: nat, paths: seq<string>, used: set<string>)
    requires i <= |all|
  {
    NamedInOrder(asked + all[..i], paths) && used == Elements(paths)
  }

  lemma NextName(asked: seq<Wanted>, all: seq<Wanted>, i: nat, paths: seq<string>, used: set<string>, suffix: nat,
              path: string)
    requires i < |all| && Named(asked, all, i, paths, used) && FirstFree(used, all[i].dir, all[i].base, suffix)
    requires path == all[i].dir + NameAt(all[i].base, suffix)
    ensures Named(asked, all, i + 1, paths + [path], used + {path})
  {
    hide NamedInOrder, TakesFirstFree, FirstFree, NameAt;
    Taken(all[i], Elements(paths), suffix);
    Extends(asked + all[..i], paths, all[i], path);
    assert asked + all[..i] + [all[i]] == asked + all[..i + 1];
  }

  lemma NoNames(all: seq<Wanted>)
    ensures Named([], all, 0, [], {})
  {
    NothingNamed();
    hide NamedInOrder;
    assert [] + all[..0] == [];
  }

  lemma AllNamed(asked: seq<Wanted>, all: seq<Wanted>, paths: seq<string>, used: set<string>)
    requires Named(asked, all, |all|, paths, used)
    ensures NamedInOrder(asked + all, paths) && used == Elements(paths)
    ensures forall more: seq<Wanted> :: Named(asked + all, more, 0, paths, used)
  {
    hide NamedInOrder, Elements;
    assert all[..|all|] == all;
    forall more: seq<Wanted> ensures Named(asked + all, more, 0, paths, used) {
      assert asked + all + more[..0] == asked + all;
    }
  }

  lemma NoteWanted(u: Unicode, a: Account, i: nat)
    requires WellFormed(a) && i < |a.notes|
    ensures var n := a.notes[i].note;
            |a.notes[i].id| >= 8 && Wants(u, "notes/", NoteItems(a))[i]
              == Wanted(if n.deleted.Some? then "notes/terhapus/" else "notes/", Base(u, n.title, a.notes[i].id))
  {
    hide Base;
  }

  lemma CardWanted(u: Unicode, a: Account, i: nat)
    requires WellFormed(a) && i < |a.cards|
    ensures var c := a.cards[i].card;
            |a.cards[i].id| >= 8 && Wants(u, "cards/", CardItems(a))[i]
              == Wanted(if c.deleted.Some? then "cards/terhapus/" else "cards/", Base(u, c.front, a.cards[i].id))
  {
    hide Base;
  }

  method WriteNotes(u: Unicode, names: Namer, a: Account, domains: map<string, string>, tags: map<string, seq<string>>)
    returns (files: seq<File>)
    requires Facts(u) && WellFormed(a) && names.used == {}
    requires domains == LabelsById(a.domains)
    requires forall item :: Lookup(tags, item) == TagsOf(a.noteLinks, LabelsById(a.categories), item)
    modifies names
    ensures var all := Wants(u, "notes/", NoteItems(a)); Named([], all, |all|, Paths(files), names.used)
    ensures |files| == |a.notes| && NotesHeld(a, files)
  {
    hide Named, FirstFree, NameAt, Base, Facts, NoteFile, Dated, Lookup, TagsOf, IsUuid, LabelsById, Wants;
    files := [];
    ghost var all := Wants(u, "notes/", NoteItems(a));
    ghost var paths: seq<string> := [];
    NoNames(all);
    for i := 0 to |a.notes|
      invariant |files| == |paths| == i && Named([], all, i, paths, names.used)
      invariant forall j :: 0 <= j < i ==> files[j].path == paths[j]
      invariant forall j :: 0 <= j < i ==>
                  files[j].body == NoteFile(a.notes[j].note, LabelsById(a.domains), NoteTags(a, j))
    {
      var row := a.notes[i];
      var dir := if row.note.deleted.Some? then "notes/terhapus/" else "notes/";
      var body := NoteMarkdown(row.note, domains, Lookup(tags, row.id));
      NoteWanted(u, a, i);
      ghost var before := names.used;
      var name, suffix := names.Pick(u, dir, row.note.title, row.id);
      NextName([], all, i, paths, before, suffix, dir + name);
      paths := paths + [dir + name];
      files := files + [File(dir + name, body)];
    }
    assert Paths(files) == paths;
  }

  method WriteCards(u: Unicode, names: Namer, a: Account, domains: map<string, string>, tags: map<string, seq<string>>,
                    ghost asked: seq<Wanted>, ghost before: seq<string>)
    returns (files: seq<File>)
    requires Facts(u) && WellFormed(a) && Named(asked, Wants(u, "cards/", CardItems(a)), 0, before, names.used)
    requires domains == LabelsById(a.domains)
    requires forall item :: Lookup(tags, item) == TagsOf(a.cardLinks, LabelsById(a.categories), item)
    modifies names
    ensures var all := Wants(u, "cards/", CardItems(a)); Named(asked, all, |all|, before + Paths(files), names.used)
    ensures |files| == |a.cards| && CardsHeld(a, files)
  {
    hide Named, FirstFree, NameAt, Base, Facts, CardFile, Dated, Lookup, TagsOf, IsUuid, LabelsById, Wants;
    files := [];
    ghost var all := Wants(u, "cards/", CardItems(a));
    ghost var paths: seq<string> := [];
    assert before + paths == before;
    for i := 0 to |a.cards|
      invariant |files| == |paths| == i && Named(asked, all, i, before + paths, names.used)
      invariant forall j :: 0 <= j < i ==> files[j].path == paths[j]
      invariant forall j :: 0 <= j < i ==>
                  files[j].body == CardFile(a.cards[j].card, LabelsById(a.domains), CardTags(a, j))
    {
      var row := a.cards[i];
      var dir := if row.card.deleted.Some? then "cards/terhapus/" else "cards/";
      var body := CardMarkdown(row.card, domains, Lookup(tags, row.id));
      CardWanted(u, a, i);
      ghost var used := names.used;
      var name, suffix := names.Pick(u, dir, row.card.front, row.id);
      NextName(asked, all, i, before + paths, used, suffix, dir + name);
      assert before + paths + [dir + name] == before + (paths + [dir + name]);
      paths := paths + [dir + name];
      files := files + [File(dir + name, body)];
    }
    assert Paths(files) == paths;
  }

  /** The tables one after the other, up to the first that cannot be encoded. */
  method WriteTables(encode: string -> Option<string>) returns (files: seq<File>, failed: bool)
    ensures TablesHeld(encode, files, |files|)
    ensures failed <==> |files| < TABLE_COUNT
    ensures failed ==> encode(Tables()[|files|]).None?
  {
    hide Tables;
    files, failed := [], false;
    for i := 0 to TABLE_COUNT
      invariant !failed && TablesHeld(encode, files, i)
    {
      var name := Tables()[i];
      var json := encode(name);
      if json.None? { return files, true; }
      files := files + [File("data/" + name + ".json", json.value + "\n")];
    }
  }

  /** Entries go out as they are written, so a table that cannot be encoded
      leaves the readme, all notes and cards and the tables before it behind. */
  method Write(u: Unicode, a: Account, readme: string, encode: string -> Option<string>)
    returns (files: seq<File>, failed: bool)
    requires Facts(u) && WellFormed(a)
    ensures |files| >= 1 + |a.notes| + |a.cards|
    ensures IsExport(u, a, readme, encode, files, |files| - (1 + |a.notes| + |a.cards|))
    ensures failed <==> |files| < 1 + |a.notes| + |a.cards| + TABLE_COUNT
    ensures failed ==> encode(Tables()[|files| - (1 + |a.notes| + |a.cards|)]).None?
  {
    var names := new Namer();
    var domains := IndexLabels(a.domains);
    var categories := IndexLabels(a.categories);
    var noteTags := IndexTags(a.noteLinks, categories);
    var cardTags := IndexTags(a.cardLinks, categories);
    hide *;
    var notes := WriteNotes(u, names, a, domains, noteTags);
    ghost var wanted := Wants(u, "notes/", NoteItems(a));
    AllNamed([], wanted, Paths(notes), names.used);
    assert [] + wanted == wanted;
    var cards := WriteCards(u, names, a, domains, cardTags, wanted, Paths(notes));
    AllNamed(wanted, Wants(u, "cards/", CardItems(a)), Paths(notes) + Paths(cards), names.used);
    var tables;
    tables, failed := WriteTables(encode);
    Together(u, a, readme, encode, notes, cards, tables);
    files := [File("README.md", readme)] + notes + cards + tables;
  }

  lemma Together(u: Unicode, a: Account, readme: string, encode: string -> Option<string>,
                 notes: seq<File>, cards: seq<File>, tables: seq<File>)
    requires WellFormed(a)
    requires |notes| == |a.notes| && NotesHeld(a, notes) && |cards| == |a.cards| && CardsHeld(a, cards)
    requires NamedInOrder(Wants(u, "notes/", NoteItems(a)) + Wants(u, "cards/", CardItems(a)),
                          Paths(notes) + Paths(cards))
    requires TablesHeld(encode, tables, |tables|)
    ensures IsExport(u, a, readme, encode, [File("README.md", readme)] + notes + cards + tables, |tables|)
  {
    var files := [File("README.md", readme)] + notes + cards + tables;
    Pieces(files, File("README.md", readme), notes, cards, tables);
    assert AllWanted(u, NoteItems(a), CardItems(a))
        == Wants(u, "notes/", NoteItems(a)) + Wants(u, "cards/", CardItems(a));
    hide NamedInOrder, NotesHeld, CardsHeld, TablesHeld, AllWanted, Wants, NoteItems, CardItems, WellFormed, Paths;
  }

  lemma Pieces(files: seq<File>, first: File, notes: seq<File>, cards: seq<File>, tables: seq<File>)
    requires files == [first] + notes + cards + tables
    ensures files[0] == first
    ensures files[1..1 + |notes|] == notes
    ensures files[1 + |notes|..1 + |notes| + |cards|] == cards
    ensures files[1 + |notes| + |cards|..] == tables
    ensures Paths(files[1..1 + |notes| + |cards|]) == Paths(notes) + Paths(cards)
  {
    assert files[1..1 + |notes| + |cards|] == notes + cards;
  }

  // ----- nothing is lost ----------------------------------------------------

  /** Every note is in the archive, in a file of its own that nothing else
      overwrites, directly in the folder of its kind; reading that file gives
      its title, domain and tags back and then its text, exactly when those
      three are readable. */
  lemma NoteIsInside(u: Unicode, a: Account, readme: string, encode: string -> Option<string>, files: seq<File>, i: nat)
    requires Facts(u) && WellFormed(a) && IsExport(u, a, readme, encode, files, TABLE_COUNT) && i < |a.notes|
    ensures Distinct(Paths(files)) && |files| == 18 + |a.notes| + |a.cards|
    ensures var n, domains := a.notes[i].note, LabelsById(a.domains);
            var tags := TagsOf(a.noteLinks, LabelsById(a.categories), a.notes[i].id);
            && DirectlyIn(if n.deleted.Some? then "notes/terhapus/" else "notes/", files[1 + i].path)
            && ReadFile(files[1 + i].body)
                 == if Readable(n.title) && Readable(DomainLabel(NoteFront(n), domains)) && AllReadable(tags)
                    then Some((OneLineEntries(KeptOf(Entries(NoteFront(n), domains, tags))), "\n" + NoteBody(n)))
                    else None
  {
    assert NoteTags(a, i) == TagsOf(a.noteLinks, LabelsById(a.categories), a.notes[i].id);
    hide *;
    ArchiveIsWhole(u, a, readme, encode, files);
    NotePlaced(a, Paths(files)[1..|files| - TABLE_COUNT], i);
    NoteHeld(u, a, readme, encode, files, i);
    NoteReadsBack(a.notes[i].note, LabelsById(a.domains), NoteTags(a, i));
  }

  lemma ArchiveIsWhole(u: Unicode, a: Account, readme: string, encode: string -> Option<string>, files: seq<File>)
    requires Facts(u) && WellFormed(a) && IsExport(u, a, readme, encode, files, TABLE_COUNT)
    ensures Distinct(Paths(files)) && |files| == 18 + |a.notes| + |a.cards| && 1 <= |files| - TABLE_COUNT <= |files|
    ensures Placed(NoteItems(a), CardItems(a), Paths(files)[1..|files| - TABLE_COUNT])
  {
    PathsOfExport(u, a, readme, encode, files);
    hide IsExport, IsArchive, WellFormed, Distinct, Placed, NoteItems, CardItems, Paths;
    ArchiveIsComplete(u, NoteItems(a), CardItems(a), Paths(files));
  }

  lemma PathsOfExport(u: Unicode, a: Account, readme: string, encode: string -> Option<string>, files: seq<File>)
    requires WellFormed(a) && IsExport(u, a, readme, encode, files, TABLE_COUNT)
    ensures IsArchive(u, NoteItems(a), CardItems(a), Paths(files))
  {
    hide NamedInOrder, NotesHeld, CardsHeld, AllWanted, NoteItems, CardItems, WellFormed, Tables;
    var n := 1 + |a.notes| + |a.cards|;
    assert Paths(files)[1..|files| - TABLE_COUNT] == Paths(files[1..n]);
    var tables := files[n..];
    assert Paths(files)[|files| - TABLE_COUNT..] == Paths(tables);
    assert Paths(tables) == DataPaths(TABLE_COUNT);
  }

  lemma NotePlaced(a: Account, named: seq<string>, i: nat)
    requires WellFormed(a) && Placed(NoteItems(a), CardItems(a), named) && i < |a.notes|
    ensures i < |named|
    ensures DirectlyIn(if a.notes[i].note.deleted.Some? then "notes/terhapus/" else "notes/", named[i])
  {
    assert Folder("notes/", NoteItems(a)[i]) == if a.notes[i].note.deleted.Some? then "notes/terhapus/" else "notes/";
    hide DirectlyIn, WellFormed, Folder;
  }

  lemma CardPlaced(a: Account, named: seq<string>, i: nat)
    requires WellFormed(a) && Placed(NoteItems(a), CardItems(a), named) && i < |a.cards|
    ensures |a.notes| + i < |named|
    ensures DirectlyIn(if a.cards[i].card.deleted.Some? then "cards/terhapus/" else "cards/", named[|a.notes| + i])
  {
    assert Folder("cards/", CardItems(a)[i]) == if a.cards[i].card.deleted.Some? then "cards/terhapus/" else "cards/";
    hide DirectlyIn, WellFormed, Folder;
  }

  lemma NoteHeld(u: Unicode, a: Account, readme: string, encode: string -> Option<string>, files: seq<File>, i: nat)
    requires WellFormed(a) && IsExport(u, a, readme, encode, files, TABLE_COUNT) && i < |a.notes|
    ensures Dated(NoteFront(a.notes[i].note))
    ensures 1 + i < |files| && files[1 + i].body == NoteFile(a.notes[i].note, LabelsById(a.domains), NoteTags(a, i))
  {
    hide NamedInOrder, CardsHeld, TablesHeld, NoteFile, LabelsById, Dated, NoteTags;
    assert files[1..1 + |a.notes|][i] == files[1 + i];
  }

  lemma CardHeld(u: Unicode, a: Account, readme: string, encode: string -> Option<string>, files: seq<File>, i: nat)
    requires WellFormed(a) && IsExport(u, a, readme, encode, files, TABLE_COUNT) && i < |a.cards|
    ensures Dated(CardFront(a.cards[i].card))
    ensures var at := 1 + |a.notes| + i;
            at < |files| && files[at].body == CardFile(a.cards[i].card, LabelsById(a.domains), CardTags(a, i))
  {
    hide NamedInOrder, NotesHeld, TablesHeld, CardFile, LabelsById, Dated, CardTags;
    assert files[1 + |a.notes|..1 + |a.notes| + |a.cards|][i] == files[1 + |a.notes| + i];
  }

  /** And every card, whose sides may hold anything. */
  lemma CardIsInside(u: Unicode, a: Account, readme: string, encode: string -> Option<string>, files: seq<File>, i: nat)
    requires Facts(u) && WellFormed(a) && IsExport(u, a, readme, encode, files, TABLE_COUNT) && i < |a.cards|
    ensures var c, domains := a.cards[i].card, LabelsById(a.domains);
            var tags := TagsOf(a.cardLinks, LabelsById(a.categories), a.cards[i].id);
            var at := 1 + |a.notes| + i;
            && |files| == 18 + |a.notes| + |a.cards|
            && DirectlyIn(if c.deleted.Some? then "cards/terhapus/" else "cards/", files[at].path)
            && ReadFile(files[at].body)
                 == if Readable(c.kind) && Readable(DomainLabel(CardFront(c), domains)) && AllReadable(tags)
                    then Some((OneLineEntries(KeptOf(Entries(CardFront(c), domains, tags))), "\n" + CardBody(c)))
                    else None
  {
    assert CardTags(a, i) == TagsOf(a.cardLinks, LabelsById(a.categories), a.cards[i].id);
    hide *;
    ArchiveIsWhole(u, a, readme, encode, files);
    CardPlaced(a, Paths(files)[1..|files| - TABLE_COUNT], i);
    CardHeld(u, a, readme, encode, files, i);
    CardReadsBack(a.cards[i].card, LabelsById(a.domains), CardTags(a, i));
  }
}
