/** The YAML block in front of an exported note: printing it, and reading it
    back. Scalars are double quoted (section 7.3.1 of YAML 1.2.2) and lists are
    flow sequences (section 7.4.1). */
module FrontmatterBlock {
  import opened Text
  import Calendar
  import Naming

  datatype Value = Scalar(text: string) | Flow(items: seq<string>)
  datatype Entry = Entry(key: string, value: Value)

  // ----- printing -----------------------------------------------------------

  function EscapeChar(c: char): string {
    if c == '"' then "\\\""
    else if c == '\\' then "\\\\"
    else if c == '\n' || c == '\r' then " "
    else [c]
  }

  function Escape(s: string): string {
    if s == "" then "" else EscapeChar(s[0]) + Escape(s[1..])
  }

  function Quote(s: string): string {
    "\"" + Escape(s) + "\""
  }

  function QuoteAll(items: seq<string>): (quoted: seq<string>)
    ensures |quoted| == |items| && forall i :: 0 <= i < |items| ==> quoted[i] == Quote(items[i])
  {
    seq(|items|, i requires 0 <= i < |items| => Quote(items[i]))
  }

  predicate Kept(e: Entry) {
    e.value != Scalar("") && e.value != Flow([])
  }

  function ValueText(v: Value): string {
    match v
    case Scalar(text) => Quote(text)
    case Flow(items) => "[" + Join(QuoteAll(items), ", ") + "]"
  }

  function LineOf(e: Entry): string {
    e.key + ": " + ValueText(e.value)
  }

  function KeptOf(es: seq<Entry>): seq<Entry> {
    if es == [] then []
    else
      var e := es[|es| - 1];
      KeptOf(es[..|es| - 1]) + (if Kept(e) then [e] else [])
  }

  function LinesOf(es: seq<Entry>): (lines: seq<string>)
    ensures |lines| == |es| && forall i :: 0 <= i < |es| ==> lines[i] == LineOf(es[i])
  {
    seq(|es|, i requires 0 <= i < |es| => LineOf(es[i]))
  }

  function Block(lines: seq<string>): string {
    if lines == [] then "" else "---\n" + Join(lines, "\n") + "\n---\n\n"
  }

  method QuoteYaml(s: string) returns (quoted: string)
    ensures quoted == Quote(s)
  {
    hide Escape;
    quoted := "\"";
    assert s[0..] == s;
    for i := 0 to |s|
      invariant quoted + Escape(s[i..]) == "\"" + Escape(s)
    {
      EscapeStep(s, i);
      match s[i] {
        case '"' => quoted := quoted + "\\\"";
        case '\\' => quoted := quoted + "\\\\";
        case '\n' => quoted := quoted + " ";
        case '\r' => quoted := quoted + " ";
        case c => quoted := quoted + [c];
      }
    }
    EscapeEnd(s);
    quoted := quoted + "\"";
  }

  lemma EscapeStep(s: string, i: nat)
    requires i < |s|
    ensures Escape(s[i..]) == EscapeChar(s[i]) + Escape(s[i + 1..])
  {
    assert s[i..][1..] == s[i + 1..];
  }

  lemma EscapeEnd(s: string)
    ensures Escape(s[|s|..]) == ""
  {
  }

  /** The lines of the entries that hold something. */
  function Shown(es: seq<Entry>): seq<string> {
    LinesOf(KeptOf(es))
  }

  /** `entries` is everything ever added; `lines` only what is shown of it. */
  class Frontmatter {
    var lines: seq<string>
    ghost var entries: seq<Entry>

    ghost predicate Valid()
      reads this
    {
      lines == Shown(entries)
    }

    constructor ()
      ensures Valid() && entries == []
    {
      lines := [];
      entries := [];
    }

    method Add(key: string, value: string)
      requires Valid()
      modifies this
      ensures Valid() && entries == old(entries) + [Entry(key, Scalar(value))]
    {
      ShownOne(entries, Entry(key, Scalar(value)));
      hide Shown;
      entries := entries + [Entry(key, Scalar(value))];
      if value == "" { return; }
      var quoted := QuoteYaml(value);
      lines := lines + [key + ": " + quoted];
    }

    method AddList(key: string, values: seq<string>)
      requires Valid()
      modifies this
      ensures Valid() && entries == old(entries) + [Entry(key, Flow(values))]
    {
      ShownOne(entries, Entry(key, Flow(values)));
      hide Shown, Join;
      entries := entries + [Entry(key, Flow(values))];
      if |values| == 0 { return; }
      var quoted: seq<string> := [];
      for i := 0 to |values|
        invariant quoted == QuoteAll(values[..i])
        invariant lines == old(lines) && entries == old(entries) + [Entry(key, Flow(values))]
      {
        var q := QuoteYaml(values[i]);
        quoted := quoted + [q];
      }
      assert values[..|values|] == values;
      Bracket(key, Join(quoted, ", "));
      lines := lines + [key + ": [" + Join(quoted, ", ") + "]"];
    }

    method Render() returns (text: string)
      requires Valid()
      ensures text == Block(Shown(entries))
    {
      if |lines| == 0 { return ""; }
      return "---\n" + Join(lines, "\n") + "\n---\n\n";
    }
  }

  lemma Bracket(key: string, list: string)
    ensures key + ": [" + list + "]" == key + ": " + ("[" + list + "]")
  {
  }

  lemma ShownOne(es: seq<Entry>, e: Entry)
    ensures Shown(es + [e]) == if Kept(e) then Shown(es) + [LineOf(e)] else Shown(es)
  {
    hide LineOf, Kept;
    assert (es + [e])[..|es|] == es;
    hide KeptOf;
  }

  // ----- reading ------------------------------------------------------------

  /** A character a double-quoted scalar may hold unescaped (`nb-json`). */
  predicate Allowed(c: char) {
    c == '\t' || c >= ' '
  }

  /** The rest of a double-quoted scalar, after its opening quote: the text and
      what follows the closing quote. Only the two escapes that are ever
      printed are understood. */
  function ReadQuoted(s: string): (r: Option<(string, string)>)
    ensures r.Some? ==> |r.value.1| < |s|
  {
    if s == "" then None
    else if s[0] == '"' then Some(("", s[1..]))
    else if s[0] == '\\' then
      if |s| >= 2 && (s[1] == '"' || s[1] == '\\') then Prepend(s[1], ReadQuoted(s[2..])) else None
    else if Allowed(s[0]) then Prepend(s[0], ReadQuoted(s[1..]))
    else None
  }

  function Prepend(c: char, r: Option<(string, string)>): Option<(string, string)> {
    if r.Some? then Some(([c] + r.value.0, r.value.1)) else None
  }

  /** A flow sequence, after its bracket. */
  function ReadItems(s: string): Option<(seq<string>, string)>
    decreases |s|
  {
    if s == "" || s[0] != '"' then None
    else
      match ReadQuoted(s[1..])
      case None => None
      case Some((text, rest)) =>
        if "]" <= rest then Some(([text], rest[1..]))
        else if ", " <= rest then
          match ReadItems(rest[2..])
          case None => None
          case Some((more, after)) => Some(([text] + more, after))
        else None
  }

  function ReadValue(s: string): Option<Value> {
    if "\"" <= s then
      match ReadQuoted(s[1..])
      case None => None
      case Some((text, rest)) => if rest == "" then Some(Scalar(text)) else None
    else if "[" <= s then
      match ReadItems(s[1..])
      case None => None
      case Some((items, rest)) => if rest == "" then Some(Flow(items)) else None
    else None
  }

  function ReadEntry(line: string): Option<Entry> {
    var n := IndexOf(line, ':');
    if ": " <= line[n..] then
      match ReadValue(line[n + 2..])
      case None => None
      case Some(value) => Some(Entry(line[..n], value))
    else None
  }

  /** The lines up to the closing marker, and everything after it. */
  function ReadLines(s: string): Option<(seq<Entry>, string)>
    decreases |s|
  {
    if "---\n" <= s then Some(([], s[4..]))
    else
      var n := IndexOf(s, '\n');
      if n == |s| then None
      else
        match (ReadEntry(s[..n]), ReadLines(s[n + 1..]))
        case (Some(e), Some((more, rest))) => Some(([e] + more, rest))
        case _ => None
  }

  function ReadFile(s: string): Option<(seq<Entry>, string)> {
    if "---\n" <= s then ReadLines(s[4..]) else None
  }

  // ----- one scalar ---------------------------------------------------------

  predicate Readable(s: string) {
    forall i :: 0 <= i < |s| ==> Allowed(s[i]) || s[i] == '\n' || s[i] == '\r'
  }

  function OneLine(s: string): (t: string)
    ensures |t| == |s|
    ensures forall i :: 0 <= i < |s| ==> t[i] == if s[i] == '\n' || s[i] == '\r' then ' ' else s[i]
  {
    seq(|s|, i requires 0 <= i < |s| => if s[i] == '\n' || s[i] == '\r' then ' ' else s[i])
  }

  lemma CharReads(c: char, tail: string)
    ensures ReadQuoted(EscapeChar(c) + tail)
         == if Readable([c]) then Prepend(OneLine([c])[0], ReadQuoted(tail)) else None
  {
    var e := EscapeChar(c);
    assert (e + tail)[|e|..] == tail;
    assert Readable([c]) <==> Allowed(c) || c == '\n' || c == '\r' by { assert [c][0] == c; }
  }

  lemma ReadableSplits(s: string)
    requires s != ""
    ensures Readable(s) <==> Readable([s[0]]) && Readable(s[1..])
    ensures OneLine(s) == [OneLine([s[0]])[0]] + OneLine(s[1..])
  {
    if Readable([s[0]]) && Readable(s[1..]) {
      assert [s[0]][0] == s[0] && forall i :: 1 <= i < |s| ==> s[i] == s[1..][i - 1];
    }
  }

  lemma {:induction false} QuotedReads(s: string, rest: string)
    ensures ReadQuoted(Escape(s) + "\"" + rest) == if Readable(s) then Some((OneLine(s), rest)) else None
  {
    if s == "" {
      assert Escape(s) + "\"" + rest == "\"" + rest;
    } else {
      var tail := Escape(s[1..]) + "\"" + rest;
      assert Escape(s) + "\"" + rest == EscapeChar(s[0]) + tail by { hide EscapeChar; }
      QuotedReads(s[1..], rest);
      CharReads(s[0], tail);
      ReadableSplits(s);
      hide ReadQuoted, Escape, EscapeChar, Readable, OneLine;
    }
  }

  lemma {:induction false} EscapeOneLine(s: string)
    ensures '\n' !in Escape(s) && '\r' !in Escape(s)
  {
    if s != "" { EscapeOneLine(s[1..]); }
  }

  // ----- lists, entries, blocks ---------------------------------------------

  predicate AllReadable(items: seq<string>) {
    forall i :: 0 <= i < |items| ==> Readable(items[i])
  }

  function OneLines(items: seq<string>): (t: seq<string>)
    ensures |t| == |items|
  {
    seq(|items|, i requires 0 <= i < |items| => OneLine(items[i]))
  }

  predicate ReadableValue(v: Value) {
    match v
    case Scalar(text) => Readable(text)
    case Flow(items) => AllReadable(items)
  }

  function OneLineEntry(e: Entry): Entry {
    Entry(e.key, OneLineValue(e.value))
  }

  lemma {:induction false} ItemsRead(items: seq<string>, rest: string)
    requires items != []
    ensures ReadItems(Join(QuoteAll(items), ", ") + "]" + rest)
         == if AllReadable(items) then Some((OneLines(items), rest)) else None
    decreases |items|
  {
    var tail := AfterFirst(items, rest);
    ListText(items, rest);
    FirstItemReads(items[0], tail);
    ReadableHead(items);
    hide Readable, OneLine, Escape, Join, QuoteAll, ReadItems, ReadQuoted;
    if |items| == 1 {
      assert tail[1..] == rest;
      assert AllReadable(items[1..]);
      assert OneLines(items) == [OneLine(items[0])];
    } else {
      hide AllReadable, OneLines;
      var more := Join(QuoteAll(items[1..]), ", ") + "]" + rest;
      assert tail == ", " + more;
      assert tail[2..] == more && tail[0] != ']';
      ItemsRead(items[1..], rest);
    }
  }

  function AfterFirst(items: seq<string>, rest: string): string
    requires items != []
  {
    if |items| == 1 then "]" + rest else ", " + (Join(QuoteAll(items[1..]), ", ") + "]" + rest)
  }

  lemma ListText(items: seq<string>, rest: string)
    requires items != []
    ensures Join(QuoteAll(items), ", ") + "]" + rest == "\"" + (Escape(items[0]) + "\"" + AfterFirst(items, rest))
  {
    var quoted := QuoteAll(items);
    assert quoted[1..] == QuoteAll(items[1..]);
    var q := Escape(items[0]);
    var more := Join(quoted[1..], ", ");
    if |items| == 1 {
      assert Join(quoted, ", ") == "\"" + q + "\"";
      hide *;
      Regroup("\"", q, "\"", "]" + rest);
    } else {
      assert Join(quoted, ", ") == "\"" + q + "\"" + ", " + more;
      assert AfterFirst(items, rest) == ", " + (more + "]" + rest);
      hide *;
      RegroupList("\"" + q + "\"", ", ", more, "]", rest);
      Regroup("\"", q, "\"", ", " + (more + "]" + rest));
    }
  }

  lemma RegroupList(a: string, b: string, c: string, d: string, e: string)
    ensures a + b + c + d + e == a + (b + (c + d + e))
  {
  }

  lemma Regroup(a: string, b: string, c: string, d: string)
    ensures a + b + c + d == a + (b + c + d)
  {
  }

  lemma FirstItemReads(x: string, tail: string)
    ensures ReadItems("\"" + (Escape(x) + "\"" + tail))
         == if !Readable(x) then None
            else if "]" <= tail then Some(([OneLine(x)], tail[1..]))
            else if ", " <= tail then
              match ReadItems(tail[2..])
              case None => None
              case Some((more, after)) => Some(([OneLine(x)] + more, after))
            else None
  {
    QuotedReads(x, tail);
    hide Readable, OneLine, Escape, ReadQuoted;
    var inner := Escape(x) + "\"" + tail;
    assert ("\"" + inner)[1..] == inner;
  }

  lemma ReadableHead(items: seq<string>)
    requires items != []
    ensures AllReadable(items) <==> Readable(items[0]) && AllReadable(items[1..])
    ensures OneLines(items) == [OneLine(items[0])] + OneLines(items[1..])
  {
    hide Readable, OneLine;
    assert items == [items[0]] + items[1..];
  }

  /** Keys are plain words: title, domain, tags, created, updated, terhapus, type. */
  predicate Plain(key: string) {
    key != "" && forall i :: 0 <= i < |key| ==> 'a' <= key[i] <= 'z'
  }

  function OneLineValue(v: Value): Value {
    match v
    case Scalar(text) => Scalar(OneLine(text))
    case Flow(items) => Flow(OneLines(items))
  }

  lemma ValueReads(v: Value)
    requires v != Flow([])
    ensures ReadValue(ValueText(v)) == if ReadableValue(v) then Some(OneLineValue(v)) else None
  {
    var s := ValueText(v);
    match v {
      case Scalar(text) =>
        QuotedReads(text, "");
        hide Readable, OneLine, Escape, ReadQuoted;
        assert Escape(text) + "\"" + "" == Escape(text) + "\"";
        assert s == "\"" + (Escape(text) + "\"");
        assert s[1..] == Escape(text) + "\"";
      case Flow(items) =>
        ItemsRead(items, "");
        hide AllReadable, OneLines, QuoteAll, Join, ReadItems;
        var inner := Join(QuoteAll(items), ", ") + "]";
        assert inner + "" == inner;
        assert s == "[" + inner;
        assert s[1..] == inner;
    }
  }

  lemma EntryReads(e: Entry)
    requires Kept(e) && Plain(e.key)
    ensures ReadEntry(LineOf(e)) == if ReadableValue(e.value) then Some(OneLineEntry(e)) else None
  {
    assert ':' !in e.key;
    ValueReads(e.value);
    hide ValueText, ReadValue, ReadableValue, ReadEntry, OneLineValue, Plain, Kept;
    KeyedReads(e.key, ValueText(e.value));
  }

  lemma KeyedReads(key: string, text: string)
    requires ':' !in key
    ensures ReadEntry(key + ": " + text)
         == match ReadValue(text) case None => None case Some(value) => Some(Entry(key, value))
  {
    hide ReadValue;
    var line := key + ": " + text;
    IndexOfFinds(key, ':', " " + text);
    hide IndexOf;
    assert line == key + [':'] + (" " + text);
    assert line[|key|..] == ": " + text;
    assert line[|key| + 2..] == text && line[..|key|] == key;
  }

  lemma {:induction false} JoinOneLine(parts: seq<string>)
    requires forall i :: 0 <= i < |parts| ==> '\n' !in parts[i] && '\r' !in parts[i]
    ensures '\n' !in Join(parts, ", ") && '\r' !in Join(parts, ", ")
  {
    if |parts| > 1 { JoinOneLine(parts[1..]); }
  }

  /** A value never ends its line, whatever breaks it holds. */
  lemma LineIsOneLine(e: Entry)
    requires Plain(e.key)
    ensures '\n' !in LineOf(e) && '\r' !in LineOf(e)
  {
    match e.value {
      case Scalar(text) => EscapeOneLine(text);
      case Flow(items) =>
        forall i | 0 <= i < |items| ensures '\n' !in QuoteAll(items)[i] && '\r' !in QuoteAll(items)[i] {
          EscapeOneLine(items[i]);
        }
        JoinOneLine(QuoteAll(items));
    }
  }

  predicate Printable(es: seq<Entry>) {
    forall i :: 0 <= i < |es| ==> ReadableValue(es[i].value)
  }

  predicate WellKeyed(es: seq<Entry>) {
    forall i :: 0 <= i < |es| ==> Plain(es[i].key)
  }

  function OneLineEntries(es: seq<Entry>): (t: seq<Entry>)
    ensures |t| == |es|
  {
    seq(|es|, i requires 0 <= i < |es| => OneLineEntry(es[i]))
  }

  /** Every line ended by a break, then `end`. */
  function Stack(lines: seq<string>, end: string): string {
    if lines == [] then end else lines[0] + ("\n" + Stack(lines[1..], end))
  }

  lemma {:induction false} JoinIsStack(lines: seq<string>, end: string)
    requires lines != []
    ensures Join(lines, "\n") + "\n" + end == Stack(lines, end)
    decreases |lines|
  {
    if |lines| == 1 {
      assert lines[0] + "\n" + end == lines[0] + ("\n" + end);
    } else {
      JoinIsStack(lines[1..], end);
      assert lines[0] + "\n" + Join(lines[1..], "\n") + "\n" + end
          == lines[0] + ("\n" + (Join(lines[1..], "\n") + "\n" + end));
    }
  }

  lemma {:induction false} StackReads(es: seq<Entry>, rest: string)
    requires WellKeyed(es) && forall i :: 0 <= i < |es| ==> Kept(es[i])
    ensures ReadLines(Stack(LinesOf(es), "---\n" + rest))
         == if Printable(es) then Some((OneLineEntries(es), rest)) else None
    decreases |es|
  {
    var text := Stack(LinesOf(es), "---\n" + rest);
    if es == [] {
      assert text[4..] == rest;
      assert Printable(es) && OneLineEntries(es) == [];
    } else {
      var line := LineOf(es[0]);
      var after := Stack(LinesOf(es[1..]), "---\n" + rest);
      assert LinesOf(es)[1..] == LinesOf(es[1..]);
      assert text == line + ['\n'] + after by { hide LineOf; }
      StackReads(es[1..], rest);
      EntryReads(es[0]);
      LineIsOneLine(es[0]);
      assert line[0] == es[0].key[0];
      hide LineOf, ReadEntry, ReadableValue, OneLineEntry, Stack, Kept, Plain, ReadLines;
      FirstLineReads(line, after);
      PrintableHead(es);
      hide Printable, OneLineEntries;
    }
  }

  lemma FirstLineReads(line: string, after: string)
    requires line != "" && line[0] != '-' && '\n' !in line
    ensures ReadLines(line + ['\n'] + after)
         == match (ReadEntry(line), ReadLines(after))
            case (Some(e), Some((more, rest))) => Some(([e] + more, rest))
            case _ => None
  {
    var text := line + ['\n'] + after;
    IndexOfFinds(line, '\n', after);
    hide ReadEntry, IndexOf;
    assert text[0] != '-' && text[..|line|] == line && text[|line| + 1..] == after;
  }

  lemma PrintableHead(es: seq<Entry>)
    requires es != []
    ensures Printable(es) <==> ReadableValue(es[0].value) && Printable(es[1..])
    ensures OneLineEntries(es) == [OneLineEntry(es[0])] + OneLineEntries(es[1..])
  {
    hide ReadableValue, OneLineEntry;
    assert es == [es[0]] + es[1..];
  }

  /** Reading back a printed block, with anything at all after it, gives exactly
      the non-empty keys and lists put in, each line break in a value a space,
      and leaves the rest untouched: if and only if no value holds a control
      character other than tab, LF and CR. Those are printed as they are, and a
      double-quoted scalar may not hold them. */
  lemma BlockReadsBack(es: seq<Entry>, body: string)
    requires WellKeyed(es)
    ensures KeptOf(es) != [] ==>
      ReadFile(Block(Shown(es)) + body)
        == if Printable(es) then Some((OneLineEntries(KeptOf(es)), "\n" + body)) else None
    ensures KeptOf(es) == [] ==> Block(Shown(es)) + body == body
  {
    var kept := KeptOf(es);
    PrintableKept(es);
    KeptAre(es);
    if kept == [] { return; }
    var lines := LinesOf(kept);
    assert WellKeyed(kept);
    var end := "---\n" + ("\n" + body);
    JoinIsStack(lines, end);
    StackReads(kept, "\n" + body);
    hide Stack, Join, ReadLines, LinesOf, KeptOf, Printable, OneLineEntries, Kept;
    BlockOpens(lines, body);
  }

  lemma BlockOpens(lines: seq<string>, body: string)
    requires lines != []
    ensures ReadFile(Block(lines) + body)
         == ReadLines(Join(lines, "\n") + "\n" + ("---\n" + ("\n" + body)))
  {
    hide Join, ReadLines;
    var inside := Join(lines, "\n") + "\n" + ("---\n" + ("\n" + body));
    var text := Block(lines) + body;
    assert text == "---\n" + inside;
    assert text[4..] == inside;
  }

  lemma {:induction false} KeptAre(es: seq<Entry>)
    ensures forall i :: 0 <= i < |KeptOf(es)| ==> KeptOf(es)[i] in es && Kept(KeptOf(es)[i])
  {
    hide Kept;
    if es != [] { KeptAre(es[..|es| - 1]); }
  }

  lemma {:induction false} PrintableKept(es: seq<Entry>)
    ensures Printable(KeptOf(es)) <==> Printable(es)
  {
    if es != [] {
      var init, e := es[..|es| - 1], es[|es| - 1];
      PrintableKept(init);
      assert es == init + [e];
      Both(init, [e]);
      Both(KeptOf(init), if Kept(e) then [e] else []);
      assert Kept(e) || Printable([e]) by { assert [e][0] == e; }
    }
  }

  // ----- notes and cards ----------------------------------------------------

  /** What heads an exported note or card: its title or its type first. */
  datatype Front = Front(lead: Entry, domainId: Option<string>, created: Calendar.Civil,
                         updated: Option<Calendar.Civil>, deleted: Option<Calendar.Civil>)

  datatype Note = Note(title: string, domainId: Option<string>, content: string,
                       created: Calendar.Civil, updated: Calendar.Civil, deleted: Option<Calendar.Civil>)

  datatype Flashcard = Flashcard(kind: string, domainId: Option<string>, front: string, back: string,
                                 created: Calendar.Civil, deleted: Option<Calendar.Civil>)

  function NoteFront(n: Note): Front {
    Front(Entry("title", Scalar(n.title)), n.domainId, n.created, Some(n.updated), n.deleted)
  }

  function CardFront(c: Flashcard): Front {
    Front(Entry("type", Scalar(c.kind)), c.domainId, c.created, None, c.deleted)
  }

  predicate Dated(f: Front) {
    && Calendar.Valid(f.created)
    && (f.updated.Some? ==> Calendar.Valid(f.updated.value))
    && (f.deleted.Some? ==> Calendar.Valid(f.deleted.value))
  }

  /** The domain's label; a domain that is not there reads as the empty text. */
  function DomainLabel(f: Front, domains: map<string, string>): string {
    if f.domainId.Some? && f.domainId.value in domains then domains[f.domainId.value] else ""
  }

  function Entries(f: Front, domains: map<string, string>, tags: seq<string>): seq<Entry>
    requires Dated(f)
  {
    [f.lead]
    + (if f.domainId.Some? then [Entry("domain", Scalar(DomainLabel(f, domains)))] else [])
    + ([Entry("tags", Flow(tags))] + Dates(f))
  }

  function Dates(f: Front): seq<Entry>
    requires Dated(f)
  {
    [Entry("created", Scalar(Calendar.Format(f.created)))]
    + (if f.updated.Some? then [Entry("updated", Scalar(Calendar.Format(f.updated.value)))] else [])
    + (if f.deleted.Some? then [Entry("terhapus", Scalar(Calendar.Format(f.deleted.value)))] else [])
  }

  predicate IsBlank(c: char) { c == ' ' || c == '\t' || c == '\n' }

  predicate IsBreak(c: char) { c == '\n' }

  predicate HasHeading(content: string) {
    "# " <= Naming.TrimLeft(content, IsBlank)
  }

  function NoteBody(n: Note): string {
    (if HasHeading(n.content) then "" else "# " + n.title + "\n\n") + Naming.TrimRight(n.content, IsBreak) + "\n"
  }

  function CardBody(c: Flashcard): string {
    "## Depan\n\n" + Naming.TrimRight(c.front, IsBreak) + "\n\n## Belakang\n\n" + Naming.TrimRight(c.back, IsBreak)
        + "\n"
  }

  function NoteFile(n: Note, domains: map<string, string>, tags: seq<string>): string
    requires Dated(NoteFront(n))
  {
    Block(Shown(Entries(NoteFront(n), domains, tags))) + NoteBody(n)
  }

  function CardFile(c: Flashcard, domains: map<string, string>, tags: seq<string>): string
    requires Dated(CardFront(c))
  {
    Block(Shown(Entries(CardFront(c), domains, tags))) + CardBody(c)
  }

  method NoteMarkdown(n: Note, domains: map<string, string>, tags: seq<string>) returns (text: string)
    requires Dated(NoteFront(n))
    ensures text == NoteFile(n, domains, tags)
  {
    hide Block, Shown, Entries, Dates, DomainLabel, NoteBody, Calendar.Format, Calendar.Valid;
    var fm := new Frontmatter();
    fm.Add("title", n.title);
    if n.domainId.Some? {
      fm.Add("domain", DomainLabel(NoteFront(n), domains));
    }
    ghost var head := fm.entries;
    fm.AddList("tags", tags);
    fm.Add("created", Calendar.Format(n.created));
    fm.Add("updated", Calendar.Format(n.updated));
    ghost var dated := fm.entries;
    if n.deleted.Some? {
      fm.Add("terhapus", Calendar.Format(n.deleted.value));
    }
    AddUp(NoteFront(n), domains, tags, head, dated, fm.entries);
    text := fm.Render();
    var body := Body(n);
    text := text + body;
  }

  method CardMarkdown(c: Flashcard, domains: map<string, string>, tags: seq<string>) returns (text: string)
    requires Dated(CardFront(c))
    ensures text == CardFile(c, domains, tags)
  {
    hide Block, Shown, Entries, Dates, DomainLabel, Calendar.Format, Calendar.Valid, Naming.TrimRight;
    var fm := new Frontmatter();
    fm.Add("type", c.kind);
    if c.domainId.Some? {
      fm.Add("domain", DomainLabel(CardFront(c), domains));
    }
    ghost var head := fm.entries;
    fm.AddList("tags", tags);
    fm.Add("created", Calendar.Format(c.created));
    ghost var dated := fm.entries;
    if c.deleted.Some? {
      fm.Add("terhapus", Calendar.Format(c.deleted.value));
    }
    AddUp(CardFront(c), domains, tags, head, dated, fm.entries);
    text := fm.Render();
    text := text + ("## Depan\n\n" + Naming.TrimRight(c.front, IsBreak)
                    + "\n\n## Belakang\n\n" + Naming.TrimRight(c.back, IsBreak) + "\n");
  }

  lemma AddUp(f: Front, domains: map<string, string>, tags: seq<string>, head: seq<Entry>, dated: seq<Entry>,
              all: seq<Entry>)
    requires Dated(f)
    requires var lead := [] + [f.lead];
             head == if f.domainId.Some? then lead + [Entry("domain", Scalar(DomainLabel(f, domains)))] else lead
    requires var created := head + [Entry("tags", Flow(tags))] + [Entry("created", Scalar(Calendar.Format(f.created)))];
             dated == if f.updated.Some? then created + [Entry("updated", Scalar(Calendar.Format(f.updated.value)))]
                 else created
    requires all == if f.deleted.Some? then dated + [Entry("terhapus", Scalar(Calendar.Format(f.deleted.value)))]
        else dated
    ensures all == Entries(f, domains, tags)
  {
    hide Calendar.Format, DomainLabel;
    assert all == head + ([Entry("tags", Flow(tags))] + Dates(f));
    hide Dates;
  }

  method Body(n: Note) returns (body: string)
    ensures body == NoteBody(n)
  {
    hide Naming.TrimLeft, Naming.TrimRight;
    body := "";
    if !HasHeading(n.content) {
      body := body + ("# " + n.title + "\n\n");
    }
    body := body + Naming.TrimRight(n.content, IsBreak);
    body := body + "\n";
  }

  lemma DateReadable(c: Calendar.Civil)
    requires Calendar.Valid(c)
    ensures Readable(Calendar.Format(c)) && Calendar.Format(c) != ""
  {
    var text := Calendar.YearText(c.year);
    assert forall i :: 0 <= i < |text| ==> IsDigit(text[i]) || text[i] == '-';
    hide Digits, Decimal;
  }

  /** A file reads back exactly, and its text is left whole, if and only if its
      title or type, its domain's label and its tags hold no control character
      other than tab, LF and CR. */
  lemma FrontReadsBack(f: Front, domains: map<string, string>, tags: seq<string>, body: string)
    requires Dated(f) && Plain(f.lead.key)
    ensures var es := Entries(f, domains, tags);
            ReadFile(Block(Shown(es)) + body)
              == if ReadableValue(f.lead.value) && Readable(DomainLabel(f, domains)) && AllReadable(tags)
                 then Some((OneLineEntries(KeptOf(es)), "\n" + body)) else None
  {
    var es := Entries(f, domains, tags);
    EntriesPrintable(f, domains, tags);
    hide Entries, Shown, KeptOf, ReadFile, OneLineEntries, Block;
    BlockReadsBack(es, body);
  }

  /** So a note reads back exactly when its title, label and tags are readable. */
  lemma NoteReadsBack(n: Note, domains: map<string, string>, tags: seq<string>)
    requires Dated(NoteFront(n))
    ensures ReadFile(NoteFile(n, domains, tags))
         == if Readable(n.title) && Readable(DomainLabel(NoteFront(n), domains)) && AllReadable(tags)
            then Some((OneLineEntries(KeptOf(Entries(NoteFront(n), domains, tags))), "\n" + NoteBody(n))) else None
  {
    hide Block, Shown, Entries, KeptOf, OneLineEntries, ReadFile, NoteBody, Dated, DomainLabel, Readable;
    FrontReadsBack(NoteFront(n), domains, tags, NoteBody(n));
  }

  /** And a card exactly when its type, label and tags are: front and back may
      hold anything. */
  lemma CardReadsBack(c: Flashcard, domains: map<string, string>, tags: seq<string>)
    requires Dated(CardFront(c))
    ensures ReadFile(CardFile(c, domains, tags))
         == if Readable(c.kind) && Readable(DomainLabel(CardFront(c), domains)) && AllReadable(tags)
            then Some((OneLineEntries(KeptOf(Entries(CardFront(c), domains, tags))), "\n" + CardBody(c))) else None
  {
    hide Block, Shown, Entries, KeptOf, OneLineEntries, ReadFile, CardBody, Dated, DomainLabel, Readable;
    FrontReadsBack(CardFront(c), domains, tags, CardBody(c));
  }

  /** A note whose title holds a bell character cannot be read back. */
  lemma BellBreaksTheBlock(n: Note, domains: map<string, string>, tags: seq<string>)
    requires Dated(NoteFront(n)) && n.title == "a\U{7}"
    ensures ReadFile(NoteFile(n, domains, tags)) == None
  {
    NoteReadsBack(n, domains, tags);
    hide NoteFile, Entries, NoteBody, ReadFile;
    assert !Allowed(n.title[1]);
  }

  lemma EntriesPrintable(f: Front, domains: map<string, string>, tags: seq<string>)
    requires Dated(f) && Plain(f.lead.key)
    ensures var es := Entries(f, domains, tags);
            && WellKeyed(es) && KeptOf(es) != []
            && (Printable(es) <==>
                ReadableValue(f.lead.value) && Readable(DomainLabel(f, domains)) && AllReadable(tags))
  {
    var es := Entries(f, domains, tags);
    var lead := [f.lead];
    var domain := if f.domainId.Some? then [Entry("domain", Scalar(DomainLabel(f, domains)))] else [];
    var list := [Entry("tags", Flow(tags))];
    var dates := Dates(f);
    NothingUnreadable();
    assert Printable(lead) <==> ReadableValue(f.lead.value) by { assert lead[0] == f.lead; }
    assert Printable(domain) <==> Readable(DomainLabel(f, domains)) by {
      if f.domainId.Some? { assert domain[0].value == Scalar(DomainLabel(f, domains)); }
    }
    assert Printable(list) <==> AllReadable(tags) by { assert list[0].value == Flow(tags); }
    assert WellKeyed(lead) && WellKeyed(domain) && WellKeyed(list);
    DatesPrintable(f);
    var at := |lead + domain| + 1;
    hide Readable, AllReadable, KeptOf, Printable, WellKeyed, Dates, DomainLabel, Calendar.Format;
    assert es == lead + domain + (list + dates);
    hide Entries;
    Both(lead, domain);
    Both(list, dates);
    Both(lead + domain, list + dates);
    assert (list + dates)[1] == dates[0];
    assert es[at] == dates[0];
    KeepsMember(es, at);
  }

  lemma Both(a: seq<Entry>, b: seq<Entry>)
    ensures Printable(a + b) <==> Printable(a) && Printable(b)
    ensures WellKeyed(a + b) <==> WellKeyed(a) && WellKeyed(b)
  {
    hide ReadableValue, Plain;
    assert forall i :: 0 <= i < |b| ==> (a + b)[|a| + i] == b[i];
    assert forall i :: 0 <= i < |a| ==> (a + b)[i] == a[i];
  }

  lemma DatesPrintable(f: Front)
    requires Dated(f)
    ensures Printable(Dates(f)) && WellKeyed(Dates(f)) && Dates(f) != [] && Kept(Dates(f)[0])
  {
    DateReadable(f.created);
    if f.updated.Some? { DateReadable(f.updated.value); }
    if f.deleted.Some? { DateReadable(f.deleted.value); }
    hide Calendar.Format, Readable;
  }

  lemma NothingUnreadable()
    ensures Readable("")
  {
  }

  lemma {:induction false} KeepsMember(es: seq<Entry>, i: nat)
    requires i < |es| && Kept(es[i])
    ensures KeptOf(es) != []
  {
    if i < |es| - 1 { KeepsMember(es[..|es| - 1], i); }
  }

  // ----- the heading --------------------------------------------------------

  lemma {:induction false} TrimRightKeeps(p: string, s: string, cut: char -> bool)
    requires p <= s && p != "" && !cut(p[|p| - 1])
    ensures p <= Naming.TrimRight(s, cut)
    decreases |s|
  {
    if |p| < |s| && cut(s[|s| - 1]) {
      TrimRightKeeps(p, s[..|s| - 1], cut);
    } else {
      assert |p| == |s| ==> p == s;
    }
  }

  lemma {:induction false} HeadingSurvives(s: string)
    requires HasHeading(s)
    ensures HasHeading(Naming.TrimRight(s, IsBreak) + "\n")
  {
    var blanks := Blanks(s);
    var p := s[..blanks] + "# ";
    assert p <= s;
    TrimRightKeeps(p, s, IsBreak);
    var t := Naming.TrimRight(s, IsBreak) + "\n";
    assert p <= t;
    StripsBlanks(t, blanks);
    assert t[blanks..][..2] == "# ";
  }

  lemma {:induction false} Blanks(s: string) returns (n: nat)
    requires HasHeading(s)
    ensures n + 2 <= |s| && s[n..n + 2] == "# " && forall i :: 0 <= i < n ==> IsBlank(s[i])
    decreases |s|
  {
    if IsBlank(s[0]) {
      var m := Blanks(s[1..]);
      n := m + 1;
      assert forall i :: 1 <= i < n ==> s[i] == s[1..][i - 1];
    } else {
      n := 0;
    }
  }

  lemma {:induction false} StripsBlanks(s: string, n: nat)
    requires n < |s| && (forall i :: 0 <= i < n ==> IsBlank(s[i])) && !IsBlank(s[n])
    ensures Naming.TrimLeft(s, IsBlank) == s[n..]
  {
    if n > 0 {
      StripsBlanks(s[1..], n - 1);
      assert s[1..][n - 1..] == s[n..];
    }
  }

  /** The text under the block always opens with a heading, its own or the title. */
  lemma BodyOpensWithHeading(n: Note)
    ensures HasHeading(NoteBody(n))
  {
    if HasHeading(n.content) {
      HeadingSurvives(n.content);
      assert NoteBody(n) == Naming.TrimRight(n.content, IsBreak) + "\n";
    } else {
      var body := NoteBody(n);
      assert body[..2] == "# ";
      StripsBlanks(body, 0);
    }
  }
}
