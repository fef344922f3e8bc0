/** What an exported file holds, said of the note or card itself: its fields,
    its text down to the last line break, and where one side of a card ends. */
module ExportedText {
  import opened Text
  import opened FrontmatterBlock

  // ----- the fields ---------------------------------------------------------

  function FieldOf(es: seq<Entry>, key: string): Option<Value> {
    if es == [] then None else if es[0].key == key then Some(es[0].value) else FieldOf(es[1..], key)
  }

  /** What reading a block gives of the entries put in. */
  function Fields(es: seq<Entry>): seq<Entry> {
    OneLineEntries(KeptOf(es))
  }

  lemma {:induction false} FieldConcat(a: seq<Entry>, b: seq<Entry>, key: string)
    ensures FieldOf(a + b, key) == if FieldOf(a, key).Some? then FieldOf(a, key) else FieldOf(b, key)
  {
    if a == [] {
      assert a + b == b;
    } else {
      FieldConcat(a[1..], b, key);
      assert (a + b)[1..] == a[1..] + b;
    }
  }

  lemma {:induction false} KeptConcat(a: seq<Entry>, b: seq<Entry>)
    ensures KeptOf(a + b) == KeptOf(a) + KeptOf(b)
  {
    hide Kept;
    if b == [] {
      assert a + b == a;
    } else {
      KeptConcat(a, b[..|b| - 1]);
      assert (a + b)[..|a + b| - 1] == a + b[..|b| - 1];
    }
  }

  lemma FieldsConcat(a: seq<Entry>, b: seq<Entry>, key: string)
    ensures FieldOf(Fields(a + b), key)
         == if FieldOf(Fields(a), key).Some? then FieldOf(Fields(a), key) else FieldOf(Fields(b), key)
  {
    KeptConcat(a, b);
    hide KeptOf, OneLineEntry;
    assert Fields(a + b) == Fields(a) + Fields(b);
    FieldConcat(Fields(a), Fields(b), key);
  }

  lemma FieldOfOne(e: Entry, key: string)
    ensures FieldOf(Fields([e]), key) == if Kept(e) && e.key == key then Some(OneLineValue(e.value)) else None
    ensures FieldOf(Fields([]), key) == None
  {
    hide Kept, OneLineValue;
    assert [e][..0] == [] && KeptOf([]) == [];
    if Kept(e) { assert KeptOf([e]) == [e] && Fields([e]) == [OneLineEntry(e)]; }
  }

  lemma DateOnOneLine(c: Calendar.Civil)
    requires Calendar.Valid(c)
    ensures Kept(Entry("", Scalar(Calendar.Format(c)))) && OneLine(Calendar.Format(c)) == Calendar.Format(c)
  {
    DateReadable(c);
    var text := Calendar.YearText(c.year);
    assert forall i :: 0 <= i < |text| ==> IsDigit(text[i]) || text[i] == '-';
    hide Digits, Decimal, Calendar.YearText;
  }

  /** Every field that is read back, and none besides: each non-empty thing
      under its own key, on one line. */
  lemma FrontFields(f: Front, domains: map<string, string>, tags: seq<string>, key: string)
    requires Dated(f) && (f.lead.key == "title" || f.lead.key == "type")
    ensures FieldOf(Fields(Entries(f, domains, tags)), key)
         == if key == f.lead.key then (if Kept(f.lead) then Some(OneLineValue(f.lead.value)) else None)
            else match key
              case "domain" =>
                if f.domainId.Some? && f.domainId.value in domains && domains[f.domainId.value] != ""
                then Some(Scalar(OneLine(domains[f.domainId.value]))) else None
              case "tags" => if tags == [] then None else Some(Flow(OneLines(tags)))
              case "created" => Some(Scalar(Calendar.Format(f.created)))
              case "updated" => if f.updated.Some? then Some(Scalar(Calendar.Format(f.updated.value))) else None
              case "terhapus" => if f.deleted.Some? then Some(Scalar(Calendar.Format(f.deleted.value))) else None
              case _ => None
  {
    var shown := DomainLabel(f, domains);
    var domain := if f.domainId.Some? then [Entry("domain", Scalar(shown))] else [];
    var list := [Entry("tags", Flow(tags))];
    FieldOfOne(f.lead, key);
    FieldOfOne(Entry("domain", Scalar(shown)), key);
    FieldOfOne(Entry("tags", Flow(tags)), key);
    DateFields(f, key);
    FieldsConcat([f.lead] + domain, list + Dates(f), key);
    FieldsConcat([f.lead], domain, key);
    FieldsConcat(list, Dates(f), key);
    hide Fields, FieldOf, Dates, OneLine, OneLines, Calendar.Format;
  }

  lemma DateFields(f: Front, key: string)
    requires Dated(f)
    ensures FieldOf(Fields(Dates(f)), key)
         == match key
            case "created" => Some(Scalar(Calendar.Format(f.created)))
            case "updated" => if f.updated.Some? then Some(Scalar(Calendar.Format(f.updated.value))) else None
            case "terhapus" => if f.deleted.Some? then Some(Scalar(Calendar.Format(f.deleted.value))) else None
            case _ => None
  {
    var created := Entry("created", Scalar(Calendar.Format(f.created)));
    var updated := if f.updated.Some? then [Entry("updated", Scalar(Calendar.Format(f.updated.value)))] else [];
    var deleted := if f.deleted.Some? then [Entry("terhapus", Scalar(Calendar.Format(f.deleted.value)))] else [];
    DateOnOneLine(f.created);
    FieldOfOne(created, key);
    if f.updated.Some? { DateOnOneLine(f.updated.value); FieldOfOne(updated[0], key); }
    if f.deleted.Some? { DateOnOneLine(f.deleted.value); FieldOfOne(deleted[0], key); }
    hide Fields, FieldOf, OneLine, Calendar.Format, Calendar.Valid;
    FieldsConcat([created] + updated, deleted, key);
    FieldsConcat([created], updated, key);
  }

  // ----- the text of a note -------------------------------------------------

  function Breaks(k: nat): string {
    seq(k, _ => '\n')
  }

  /** `kept` is `text` without the line breaks at its end. */
  ghost predicate IsKept(text: string, kept: string) {
    && (kept != "" ==> kept[|kept| - 1] != '\n')
    && exists k: nat :: text == kept + Breaks(k)
  }

  lemma {:induction false} TrimIsKept(text: string)
    ensures IsKept(text, Naming.TrimRight(text, IsBreak))
  {
    if text != "" && IsBreak(text[|text| - 1]) {
      var init := text[..|text| - 1];
      TrimIsKept(init);
      var kept := Naming.TrimRight(init, IsBreak);
      var k: nat :| init == kept + Breaks(k);
      assert text == kept + Breaks(k + 1);
    } else {
      assert text == text + Breaks(0);
    }
  }

  lemma OneKept(text: string, a: string, b: string)
    requires IsKept(text, a) && IsKept(text, b)
    ensures a == b
  {
    var j: nat :| text == a + Breaks(j);
    var k: nat :| text == b + Breaks(k);
    if |a| < |b| {
      BreakAfter(text, a, j, |b| - 1);
    } else if |b| < |a| {
      BreakAfter(text, b, k, |a| - 1);
    } else {
      assert a == text[..|a|] == b;
    }
  }

  lemma BreakAfter(text: string, a: string, k: nat, i: nat)
    requires text == a + Breaks(k) && |a| <= i < |text|
    ensures text[i] == '\n'
  {
  }

  predicate HeadingAt(text: string, n: nat) {
    n + 2 <= |text| && text[n] == '#' && text[n + 1] == ' ' && forall i :: 0 <= i < n ==> text[i] in " \t\n"
  }

  /** Blanks, then a first-level heading. */
  ghost predicate OpensWithHeading(text: string) {
    exists n: nat :: HeadingAt(text, n)
  }

  lemma HeadingIs(text: string)
    ensures HasHeading(text) <==> OpensWithHeading(text)
  {
    if HasHeading(text) {
      var n := FrontmatterBlock.Blanks(text);
      assert text[n..n + 2][0] == '#' && text[n..n + 2][1] == ' ';
      assert HeadingAt(text, n);
    }
    if n: nat :| HeadingAt(text, n) {
      StripsBlanks(text, n);
      assert text[n..][..2] == "# ";
    }
  }

  function Heading(title: string): string {
    "# " + title + "\n\n"
  }

  /** The text under a note's block is all its content down to the last line
      breaks, under its title unless it opens with a heading of its own. */
  lemma NoteKeepsContent(n: Note, kept: string)
    requires IsKept(n.content, kept)
    ensures NoteBody(n) == (if OpensWithHeading(n.content) then "" else Heading(n.title)) + kept + "\n"
  {
    HeadingIs(n.content);
    TrimIsKept(n.content);
    OneKept(n.content, kept, Naming.TrimRight(n.content, IsBreak));
  }

  lemma KeptHeading(text: string, kept: string)
    requires IsKept(text, kept)
    ensures OpensWithHeading(text) <==> OpensWithHeading(kept)
  {
    var k: nat :| text == kept + Breaks(k);
    if n: nat :| HeadingAt(text, n) {
      if n + 1 >= |kept| { BreakAfter(text, kept, k, n + 1); }
      assert forall i :: 0 <= i < n ==> kept[i] == text[i];
      assert HeadingAt(kept, n);
    }
    if n: nat :| HeadingAt(kept, n) {
      assert HeadingAt(text, n);
    }
  }

  /** Two contents of one note give the same file exactly when they differ in
      their last line breaks only, or one of them is the other with the title
      written above it as a heading. */
  lemma SameFileIff(a: Note, b: Note, domains: map<string, string>, tags: seq<string>, x: string, y: string)
    requires Dated(NoteFront(a)) && b == a.(content := b.content) && IsKept(a.content, x) && IsKept(b.content, y)
    ensures NoteFile(a, domains, tags) == NoteFile(b, domains, tags)
       <==> || x == y
            || (!OpensWithHeading(y) && x == Heading(a.title) + y)
            || (!OpensWithHeading(x) && y == Heading(a.title) + x)
  {
    NoteKeepsContent(a, x);
    NoteKeepsContent(b, y);
    KeptHeading(a.content, x);
    KeptHeading(b.content, y);
    FileSplits(a, domains, tags);
    FileSplits(b, domains, tags);
    hide *;
    SameTail(Block(Shown(Entries(NoteFront(a), domains, tags))), NoteBody(a), NoteBody(b));
    SameTexts(a.title, x, y);
  }

  lemma FileSplits(n: Note, domains: map<string, string>, tags: seq<string>)
    requires Dated(NoteFront(n))
    ensures NoteFile(n, domains, tags) == Block(Shown(Entries(NoteFront(n), domains, tags))) + NoteBody(n)
    ensures forall b: Note :: b == n.(content := b.content) ==> NoteFront(b) == NoteFront(n)
  {
  }

  lemma SameTexts(title: string, x: string, y: string)
    ensures (if OpensWithHeading(x) then "" else Heading(title)) + x + "\n"
         == (if OpensWithHeading(y) then "" else Heading(title)) + y + "\n"
       <==> || x == y
            || (!OpensWithHeading(y) && x == Heading(title) + y)
            || (!OpensWithHeading(x) && y == Heading(title) + x)
  {
    NothingBut(title, x);
    NothingBut(title, y);
    hide *;
    SameHead((if OpensWithHeading(x) then "" else Heading(title)) + x,
             (if OpensWithHeading(y) then "" else Heading(title)) + y, "\n");
    SameTail(Heading(title), x, y);
    assert "" + x == x && "" + y == y;
  }

  lemma NothingBut(title: string, x: string)
    ensures OpensWithHeading(Heading(title) + x)
  {
    assert HeadingAt(Heading(title) + x, 0);
  }

  lemma SameTail(p: string, a: string, b: string)
    ensures p + a == p + b <==> a == b
  {
    assert (p + a)[|p|..] == a && (p + b)[|p|..] == b;
  }

  lemma SameHead(a: string, b: string, p: string)
    ensures a + p == b + p <==> a == b
  {
    if a + p == b + p { assert a == (a + p)[..|a|] && b == (b + p)[..|b|]; }
  }

  /** The value under a key that is shown only when it holds something. */
  function Unless(empty: bool, v: Value): Option<Value> {
    if empty then None else Some(v)
  }

  function DateUnderKey(d: Option<Calendar.Civil>): Option<Value>
    requires d.Some? ==> Calendar.Valid(d.value)
  {
    if d.Some? then Some(Scalar(Calendar.Format(d.value))) else None
  }

  /** A note's file, read: every field under its key on one line, nothing for
      what the note has not, and then its text. */
  lemma NoteReads(n: Note, domains: map<string, string>, tags: seq<string>, kept: string)
    requires Dated(NoteFront(n)) && IsKept(n.content, kept)
    requires Readable(n.title) && AllReadable(tags)
    requires n.domainId.Some? && n.domainId.value in domains ==> Readable(domains[n.domainId.value])
    ensures var file := ReadFile(NoteFile(n, domains, tags));
            && file.Some? && var (fields, text) := file.value;
            && text == "\n" + ((if OpensWithHeading(n.content) then "" else Heading(n.title)) + kept + "\n")
            && FieldOf(fields, "title") == Unless(n.title == "", Scalar(OneLine(n.title)))
            && FieldOf(fields, "domain") ==
                 (if n.domainId.Some? && n.domainId.value in domains
                  then Unless(domains[n.domainId.value] == "", Scalar(OneLine(domains[n.domainId.value]))) else None)
            && FieldOf(fields, "tags") == Unless(tags == [], Flow(OneLines(tags)))
            && FieldOf(fields, "created") == DateUnderKey(Some(n.created))
            && FieldOf(fields, "updated") == DateUnderKey(Some(n.updated))
            && FieldOf(fields, "terhapus") == DateUnderKey(n.deleted)
  {
    NothingUnreadable();
    NoteReadsBack(n, domains, tags);
    NoteKeepsContent(n, kept);
    var es := Entries(NoteFront(n), domains, tags);
    assert ReadFile(NoteFile(n, domains, tags)) == Some((Fields(es), "\n" + NoteBody(n))) by {
      hide ReadFile, NoteFile, NoteBody, Entries, KeptOf, Readable, AllReadable;
    }
    FrontFields(NoteFront(n), domains, tags, "title");
    FrontFields(NoteFront(n), domains, tags, "domain");
    FrontFields(NoteFront(n), domains, tags, "tags");
    FrontFields(NoteFront(n), domains, tags, "created");
    FrontFields(NoteFront(n), domains, tags, "updated");
    FrontFields(NoteFront(n), domains, tags, "terhapus");
    hide Entries, Fields, FieldOf, Calendar.Format, ReadFile, NoteFile, NoteBody, OneLine, OneLines;
  }

  // ----- the two sides of a card --------------------------------------------

  const FIRST := "## Depan\n\n"
  const SECOND := "\n\n## Belakang\n\n"

  predicate StandsAt(s: string, mark: string, i: nat) {
    i + |mark| <= |s| && s[i..i + |mark|] == mark
  }

  ghost predicate Holds(s: string, mark: string) {
    exists i: nat :: StandsAt(s, mark, i)
  }

  /** Where the mark first stands, or the end. */
  function Find(s: string, mark: string): (n: nat)
    ensures n <= |s|
  {
    if mark <= s || s == "" then 0 else 1 + Find(s[1..], mark)
  }

  lemma {:induction false} FindIsFirst(s: string, mark: string, at: nat)
    requires mark != "" && StandsAt(s, mark, at)
    ensures Find(s, mark) <= at && StandsAt(s, mark, Find(s, mark))
  {
    assert s[0..|mark|] == s[..|mark|];
    if !(mark <= s) {
      assert s[1..][at - 1..at - 1 + |mark|] == s[at..at + |mark|];
      FindIsFirst(s[1..], mark, at - 1);
      var n := Find(s[1..], mark);
      assert s[n + 1..n + 1 + |mark|] == s[1..][n..n + |mark|];
    }
  }

  /** The front between the two headings, the back after the second. */
  function ReadSides(body: string): Option<(string, string)> {
    if !(FIRST <= body) then None else ReadRest(body[|FIRST|..])
  }

  function ReadRest(rest: string): Option<(string, string)> {
    var n := Find(rest, SECOND);
    if n + |SECOND| < |rest| && rest[|rest| - 1] == '\n' then Some((rest[..n], rest[n + |SECOND|..|rest| - 1]))
    else None
  }

  lemma NoOverlap(k: nat)
    requires 0 < k < |SECOND| - 2
    ensures !(SECOND[k] == SECOND[0] && SECOND[k + 1] == SECOND[1] && SECOND[k + 2] == SECOND[2])
  {
  }

  /** The second heading can only begin inside the front if the front, or the
      front and the empty line under it, holds all of it. */
  lemma HeadingInFront(front: string, tail: string, i: nat)
    requires i < |front| && StandsAt(front + SECOND + tail, SECOND, i)
    ensures StandsAt(front + "\n\n", SECOND, i)
  {
    var all := front + SECOND + tail;
    var k := |front| - i;
    var found := all[i..i + |SECOND|];
    if k < |SECOND| - 2 {
      assert found[k] == all[|front|] && found[k + 1] == all[|front| + 1] && found[k + 2] == all[|front| + 2];
      NoOverlap(k);
      assert false;
    }
    assert front + "\n\n" == all[..|front| + 2];
    assert found == all[..|front| + 2][i..i + |SECOND|];
  }

  /** Both sides are under their own heading, down to their last line breaks;
      they read back, exactly when the front does not hold the second heading,
      at its very end included. */
  lemma CardKeepsSides(c: Flashcard, front: string, back: string)
    requires IsKept(c.front, front) && IsKept(c.back, back)
    ensures CardBody(c) == FIRST + front + SECOND + back + "\n"
    ensures ReadSides(CardBody(c)) == Some((front, back)) <==> !Holds(front + "\n\n", SECOND)
  {
    TrimIsKept(c.front);
    TrimIsKept(c.back);
    OneKept(c.front, front, Naming.TrimRight(c.front, IsBreak));
    OneKept(c.back, back, Naming.TrimRight(c.back, IsBreak));
    hide IsKept, Naming.TrimRight;
    var rest := front + SECOND + (back + "\n");
    BodyText(c, front, back);
    hide CardBody, Holds, ReadRest;
    assert (FIRST + rest)[|FIRST|..] == rest;
    SidesRead(front, back);
  }

  lemma BodyText(c: Flashcard, front: string, back: string)
    requires Naming.TrimRight(c.front, IsBreak) == front && Naming.TrimRight(c.back, IsBreak) == back
    ensures CardBody(c) == FIRST + front + SECOND + back + "\n"
    ensures CardBody(c) == FIRST + (front + SECOND + (back + "\n"))
  {
    hide Naming.TrimRight;
    var head, body := FIRST + front, CardBody(c);
    assert body == head + "\n\n## Belakang\n\n" + back + "\n";
    hide CardBody;
    Grouped(FIRST, front, SECOND, back, "\n");
  }

  lemma Grouped(a: string, b: string, c: string, d: string, e: string)
    ensures a + b + c + d + e == a + (b + c + (d + e))
  {
  }

  lemma SidesRead(front: string, back: string)
    ensures ReadRest(front + SECOND + (back + "\n")) == Some((front, back)) <==> !Holds(front + "\n\n", SECOND)
  {
    var rest := front + SECOND + (back + "\n");
    assert rest[|front|..|front| + |SECOND|] == SECOND;
    FindIsFirst(rest, SECOND, |front|);
    var n := Find(rest, SECOND);
    hide Find;
    if n < |front| {
      HeadingInFront(front, back + "\n", n);
      assert |rest[..n]| != |front|;
    } else {
      assert rest[..n] == front && rest[n + |SECOND|..|rest| - 1] == back;
      if i: nat :| StandsAt(front + "\n\n", SECOND, i) {
        StandsEarlier(front, back + "\n", i);
        assert false;
      }
    }
  }

  lemma StandsEarlier(front: string, tail: string, i: nat)
    requires StandsAt(front + "\n\n", SECOND, i)
    ensures Find(front + SECOND + tail, SECOND) < |front|
  {
    var s, after := front + "\n\n", "## Belakang\n\n" + tail;
    var rest := s + after;
    TwoBreaks(front, tail);
    assert rest[i..i + |SECOND|] == s[i..i + |SECOND|];
    FindIsFirst(rest, SECOND, i);
  }

  lemma TwoBreaks(front: string, tail: string)
    ensures front + SECOND + tail == front + "\n\n" + ("## Belakang\n\n" + tail)
  {
    assert SECOND == "\n\n" + "## Belakang\n\n";
  }

  /** A card's file, read. */
  lemma CardReads(c: Flashcard, domains: map<string, string>, tags: seq<string>, front: string, back: string)
    requires Dated(CardFront(c)) && IsKept(c.front, front) && IsKept(c.back, back)
    requires Readable(c.kind) && AllReadable(tags)
    requires c.domainId.Some? && c.domainId.value in domains ==> Readable(domains[c.domainId.value])
    ensures var file := ReadFile(CardFile(c, domains, tags));
            && file.Some? && var (fields, text) := file.value;
            && text == "\n" + (FIRST + front + SECOND + back + "\n")
            && FieldOf(fields, "type") == Unless(c.kind == "", Scalar(OneLine(c.kind)))
            && FieldOf(fields, "domain") ==
                 (if c.domainId.Some? && c.domainId.value in domains
                  then Unless(domains[c.domainId.value] == "", Scalar(OneLine(domains[c.domainId.value]))) else None)
            && FieldOf(fields, "tags") == Unless(tags == [], Flow(OneLines(tags)))
            && FieldOf(fields, "created") == DateUnderKey(Some(c.created))
            && FieldOf(fields, "updated") == None
            && FieldOf(fields, "terhapus") == DateUnderKey(c.deleted)
  {
    NothingUnreadable();
    CardReadsBack(c, domains, tags);
    CardKeepsSides(c, front, back);
    var es := Entries(CardFront(c), domains, tags);
    assert ReadFile(CardFile(c, domains, tags)) == Some((Fields(es), "\n" + CardBody(c))) by {
      hide ReadFile, CardFile, CardBody, Entries, KeptOf, Readable, AllReadable;
    }
    FrontFields(CardFront(c), domains, tags, "type");
    FrontFields(CardFront(c), domains, tags, "domain");
    FrontFields(CardFront(c), domains, tags, "tags");
    FrontFields(CardFront(c), domains, tags, "created");
    FrontFields(CardFront(c), domains, tags, "updated");
    FrontFields(CardFront(c), domains, tags, "terhapus");
    hide Entries, Fields, FieldOf, Calendar.Format, ReadFile, CardFile, CardBody, OneLine, OneLines;
  }
}
