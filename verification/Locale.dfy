/** Choosing a language: the server from the Accept-Language header (section
    12.5.4 of RFC 9110), the browser from its own list of tags. */
module Negotiation {
  import opened Text
  import opened Naming

  datatype Locale = Id | En

  /** A parsed float. An infinite one is out of range like any number above 1
      or below 0, so only NaN needs a case of its own. */
  datatype Weight = Num(value: real) | NaN

  /** What the two standard libraries decide: Go's lower case of a character,
      Unicode space, `ParseFloat`, and JavaScript's `toLowerCase`. */
  datatype Library = Library(lower: char -> char, space: char -> bool,
                             parse: string -> Option<Weight>, toLowerCase: string -> string)

  predicate Ascii(c: char) { c < '\U{80}' }

  function AsciiLower(c: char): char {
    if 'A' <= c <= 'Z' then c + ('a' - 'A') else c
  }

  predicate IsSubtagChar(c: char) {
    'a' <= c <= 'z' || 'A' <= c <= 'Z' || '0' <= c <= '9'
  }

  ghost predicate Facts(lib: Library) {
    && (forall c :: Ascii(c) ==> lib.lower(c) == AsciiLower(c))
    && (forall s: string :: (forall i :: 0 <= i < |s| ==> Ascii(s[i])) ==>
          |lib.toLowerCase(s)| == |s| && forall i :: 0 <= i < |s| ==> lib.toLowerCase(s)[i] == AsciiLower(s[i]))
    && (forall c :: IsSubtagChar(c) || c in "-;=" ==> !lib.space(c))
  }

  /** Go's `<=`: false as soon as one side is NaN. */
  predicate AtMost(a: Weight, b: Weight) {
    a.Num? && b.Num? && a.value <= b.value
  }

  /** `parsed < 0 || parsed > 1`: false for NaN. */
  predicate OutOfRange(w: Weight) {
    w.Num? && (w.value < 0.0 || w.value > 1.0)
  }

  /** strings.Cut: before the first separator, and after it if there is one. */
  function Cut(s: string, sep: char): (string, Option<string>) {
    var n := IndexOf(s, sep);
    (s[..n], if n < |s| then Some(s[n + 1..]) else None)
  }

  function LocaleNamed(name: string): Option<Locale> {
    if name == "id" then Some(Id) else if name == "en" then Some(En) else None
  }

  // ----- one entry of the header --------------------------------------------

  /** The weight of the first `q` that parses and is in range, else 1. */
  function WeightIn(lib: Library, params: seq<string>): Weight {
    if params == [] then Num(1.0)
    else
      var (name, value) := Cut(params[0], '=');
      var key := Trim(name, lib.space);
      if value.None? || (key != "q" && key != "Q") then WeightIn(lib, params[1..])
      else
        var parsed := lib.parse(Trim(value.value, lib.space));
        if parsed.None? || OutOfRange(parsed.value) then WeightIn(lib, params[1..]) else parsed.value
  }

  function LanguageRange(lib: Library, part: string): (string, Weight) {
    var (first, params) := Cut(Trim(part, lib.space), ';');
    var tag := Trim(first, lib.space);
    if tag == "" then ("", Num(0.0))
    else if params.None? then (tag, Num(1.0))
    else (tag, WeightIn(lib, Split(params.value, ';')))
  }

  method ReadRange(lib: Library, part: string) returns (tag: string, q: Weight)
    ensures (tag, q) == LanguageRange(lib, part)
  {
    var cut := Cut(Trim(part, lib.space), ';');
    tag := Trim(cut.0, lib.space);
    if tag == "" { return "", Num(0.0); }
    if cut.1.None? { return tag, Num(1.0); }
    var params := Split(cut.1.value, ';');
    hide Trim, Split, Cut;
    for i := 0 to |params|
      invariant WeightIn(lib, params) == WeightIn(lib, params[i..])
    {
      assert params[i..][0] == params[i] && params[i..][1..] == params[i + 1..];
      var (name, value) := Cut(params[i], '=');
      var key := Trim(name, lib.space);
      if value.None? || (key != "q" && key != "Q") { continue; }
      var parsed := lib.parse(Trim(value.value, lib.space));
      if parsed.None? || OutOfRange(parsed.value) { continue; }
      return tag, parsed.value;
    }
    return tag, Num(1.0);
  }

  // ----- the header ---------------------------------------------------------

  /** A supported language asked for, with its weight. */
  datatype Candidate = Candidate(locale: Locale, q: Weight)

  function Supported(lib: Library, tag: string): Option<Locale> {
    if tag == "" then None else LocaleNamed(MapChars(lib.lower, Cut(tag, '-').0))
  }

  function CandidateOf(lib: Library, part: string): seq<Candidate> {
    var (tag, q) := LanguageRange(lib, part);
    match Supported(lib, tag)
    case None => []
    case Some(l) => [Candidate(l, q)]
  }

  function Candidates(lib: Library, parts: seq<string>): seq<Candidate> {
    if parts == [] then [] else CandidateOf(lib, parts[0]) + Candidates(lib, parts[1..])
  }

  function Take(best: Candidate, c: Candidate): Candidate {
    if AtMost(c.q, best.q) then best else c
  }

  function TakeAll(best: Candidate, cs: seq<Candidate>): Candidate
    decreases |cs|
  {
    if cs == [] then best else TakeAll(Take(best, cs[0]), cs[1..])
  }

  const NOTHING := Candidate(Id, Num(0.0))

  function Asked(lib: Library, header: string): seq<Candidate> {
    Candidates(lib, Split(header, ','))
  }

  function Chosen(lib: Library, header: string): Locale {
    TakeAll(NOTHING, Asked(lib, header)).locale
  }

  method AcceptLanguage(lib: Library, header: string) returns (best: Locale)
    ensures best == Chosen(lib, header)
  {
    best := Id;
    var bestQ := Num(0.0);
    var parts := Split(header, ',');
    hide Split, LanguageRange, MapChars, Cut;
    for i := 0 to |parts|
      invariant TakeAll(NOTHING, Candidates(lib, parts)) == TakeAll(Candidate(best, bestQ), Candidates(lib, parts[i..]))
    {
      assert parts[i..][0] == parts[i] && parts[i..][1..] == parts[i + 1..];
      TakeFirst(lib, Candidate(best, bestQ), parts[i..]);
      var tag, q := ReadRange(lib, parts[i]);
      if tag == "" || AtMost(q, bestQ) { continue; }
      var l := LocaleNamed(MapChars(lib.lower, Cut(tag, '-').0));
      if l.None? { continue; }
      best, bestQ := l.value, q;
    }
  }

  lemma TakeFirst(lib: Library, best: Candidate, parts: seq<string>)
    requires parts != []
    ensures var (tag, q) := LanguageRange(lib, parts[0]);
            var l := Supported(lib, tag);
            TakeAll(best, Candidates(lib, parts))
              == TakeAll(if l.Some? then Take(best, Candidate(l.value, q)) else best, Candidates(lib, parts[1..]))
  {
    hide LanguageRange, Supported;
    var rest := Candidates(lib, parts[1..]);
    assert [] + rest == rest;
    var one := CandidateOf(lib, parts[0]);
    if one != [] { assert (one + rest)[1..] == rest; }
  }

  // ----- which one wins -----------------------------------------------------

  predicate Numeric(cs: seq<Candidate>) {
    forall k :: 0 <= k < |cs| ==> cs[k].q.Num?
  }

  /** The `k`-th is of maximal weight, and the first of those. */
  predicate EarliestBest(cs: seq<Candidate>, k: nat)
    requires Numeric(cs)
  {
    && k < |cs|
    && (forall j :: 0 <= j < k ==> cs[j].q.value < cs[k].q.value)
    && (forall j :: k <= j < |cs| ==> cs[j].q.value <= cs[k].q.value)
  }

  lemma {:induction false} EarliestBestExists(cs: seq<Candidate>) returns (k: nat)
    requires Numeric(cs) && cs != []
    ensures EarliestBest(cs, k)
  {
    k := 0;
    if |cs| > 1 {
      var rest := cs[1..];
      var m := EarliestBestExists(rest);
      assert forall j :: 1 <= j < |cs| ==> cs[j] == rest[j - 1];
      k := if cs[0].q.value >= rest[m].q.value then 0 else m + 1;
    }
  }

  lemma {:induction false} TakeAllKeeps(best: Candidate, cs: seq<Candidate>)
    requires Numeric(cs) && best.q.Num? && forall j :: 0 <= j < |cs| ==> cs[j].q.value <= best.q.value
    ensures TakeAll(best, cs) == best
  {
    if cs != [] { TakeAllKeeps(best, cs[1..]); }
  }

  lemma {:induction false} TakeAllFinds(best: Candidate, cs: seq<Candidate>, k: nat)
    requires Numeric(cs) && best.q.Num? && EarliestBest(cs, k) && cs[k].q.value > best.q.value
    ensures TakeAll(best, cs) == cs[k]
    decreases |cs|
  {
    if k == 0 {
      TakeAllKeeps(cs[0], cs[1..]);
    } else {
      TakeAllFinds(Take(best, cs[0]), cs[1..], k - 1);
    }
  }

  /** With ordinary weights: the earliest supported language of maximal positive
      weight, and Indonesian when no supported language has one. */
  lemma EarliestOfMaximalWeight(lib: Library, header: string)
    requires Numeric(Asked(lib, header))
    ensures var cs := Asked(lib, header);
            && ((forall j :: 0 <= j < |cs| ==> cs[j].q.value <= 0.0) ==> Chosen(lib, header) == Id)
            && (forall k: nat :: k < |cs| && EarliestBest(cs, k) && cs[k].q.value > 0.0 ==>
                  Chosen(lib, header) == cs[k].locale)
            && (cs != [] ==> exists k: nat :: EarliestBest(cs, k))
  {
    var cs := Asked(lib, header);
    hide Asked, TakeAll, EarliestBest;
    if forall j :: 0 <= j < |cs| ==> cs[j].q.value <= 0.0 { TakeAllKeeps(NOTHING, cs); }
    forall k: nat | k < |cs| && EarliestBest(cs, k) && cs[k].q.value > 0.0 ensures Chosen(lib, header) == cs[k].locale {
      TakeAllFinds(NOTHING, cs, k);
    }
    if cs != [] { var k := EarliestBestExists(cs); }
  }

  lemma {:induction false} TakeAllConcat(best: Candidate, a: seq<Candidate>, b: seq<Candidate>)
    ensures TakeAll(best, a + b) == TakeAll(TakeAll(best, a), b)
    decreases |a|
  {
    if a == [] {
      assert a + b == b;
    } else {
      TakeAllConcat(Take(best, a[0]), a[1..], b);
      assert (a + b)[1..] == a[1..] + b;
    }
  }

  /** A weight of NaN is accepted and forgets everything before it: only what
      comes after the last one counts, and there even a weight of zero, which
      asks for the language not to be used, beats it. */
  lemma NanForgets(lib: Library, header: string, a: seq<Candidate>, x: Candidate, b: seq<Candidate>)
    requires Asked(lib, header) == a + [x] + b && x.q == NaN && Numeric(b)
    ensures b == [] ==> Chosen(lib, header) == x.locale
    ensures forall k: nat :: k < |b| && EarliestBest(b, k) ==> Chosen(lib, header) == b[k].locale
  {
    hide Asked, EarliestBest;
    TakeAllConcat(NOTHING, a + [x], b);
    TakeAllConcat(NOTHING, a, [x]);
    assert TakeAll(NOTHING, a + [x]) == x;
    forall k: nat | k < |b| && EarliestBest(b, k) ensures Chosen(lib, header) == b[k].locale {
      AfterNan(x, b, k);
    }
  }

  lemma AfterNan(x: Candidate, b: seq<Candidate>, k: nat)
    requires x.q == NaN && Numeric(b) && EarliestBest(b, k)
    ensures TakeAll(x, b) == b[k]
  {
    if k == 0 { TakeAllKeeps(b[0], b[1..]); } else { TakeAllFinds(b[0], b[1..], k - 1); }
  }

  /** At least as heavy as every entry with a number for a weight. */
  predicate Outweighs(w: Candidate, cs: seq<Candidate>) {
    w.q.Num? && forall j :: 0 <= j < |cs| && cs[j].q.Num? ==> cs[j].q.value <= w.q.value
  }

  ghost function Winner(lib: Library, header: string): Candidate {
    TakeAll(NOTHING, Asked(lib, header))
  }

  /** With ordinary weights the winner outweighs everything asked for. */
  lemma WinnerOutweighs(lib: Library, header: string)
    requires Numeric(Asked(lib, header))
    ensures Chosen(lib, header) == Winner(lib, header).locale && Outweighs(Winner(lib, header), Asked(lib, header))
  {
    var cs := Asked(lib, header);
    hide Asked;
    if cs == [] || forall j :: 0 <= j < |cs| ==> cs[j].q.value <= 0.0 {
      TakeAllKeeps(NOTHING, cs);
    } else {
      var k := EarliestBestExists(cs);
      TakeAllFinds(NOTHING, cs, k);
    }
  }

  /** With a NaN it still does if and only if some entry after the last NaN is
      as heavy as everything before it. */
  lemma WinnerOutweighsIff(lib: Library, header: string, a: seq<Candidate>, x: Candidate, b: seq<Candidate>)
    requires Asked(lib, header) == a + [x] + b && x.q == NaN && Numeric(b)
    ensures Outweighs(Winner(lib, header), Asked(lib, header)) <==> exists k :: 0 <= k < |b| && Outweighs(b[k], a)
  {
    hide Asked;
    TakeAllConcat(NOTHING, a + [x], b);
    TakeAllConcat(NOTHING, a, [x]);
    assert TakeAll(NOTHING, a + [x]) == x;
    if b != [] {
      var k := EarliestBestExists(b);
      AfterNan(x, b, k);
      OutweighsRest(b[k], a, x, b);
      hide TakeAll;
      if j :| 0 <= j < |b| && Outweighs(b[j], a) {
        assert b[j].q.value <= b[k].q.value;
        assert Outweighs(b[k], a);
      }
    }
  }

  lemma OutweighsRest(w: Candidate, a: seq<Candidate>, x: Candidate, b: seq<Candidate>)
    requires x.q == NaN && Numeric(b) && w.q.Num? && forall j :: 0 <= j < |b| ==> b[j].q.value <= w.q.value
    ensures Outweighs(w, a + [x] + b) <==> Outweighs(w, a)
  {
    var cs := a + [x] + b;
    assert forall j :: 0 <= j < |a| ==> cs[j] == a[j];
    assert forall j :: 0 <= j < |b| ==> cs[|a| + 1 + j] == b[j];
  }

  // ----- what a browser sends -----------------------------------------------

  /** One entry as printed: leading spaces, a tag, and the text of its weight. */
  datatype Sent = Sent(pad: string, tag: string, weight: Option<string>)

  function Part(x: Sent): string {
    x.pad + (x.tag + if x.weight.Some? then ";q=" + x.weight.value else "")
  }

  function Parts(xs: seq<Sent>): (parts: seq<string>)
    ensures |parts| == |xs| && forall i :: 0 <= i < |xs| ==> parts[i] == Part(xs[i])
  {
    seq(|xs|, i requires 0 <= i < |xs| => Part(xs[i]))
  }

  function Header(xs: seq<Sent>): string {
    Join(Parts(xs), ",")
  }

  function TagsOf(xs: seq<Sent>): (tags: seq<string>)
    ensures |tags| == |xs| && forall i :: 0 <= i < |xs| ==> tags[i] == xs[i].tag
  {
    seq(|xs|, i requires 0 <= i < |xs| => xs[i].tag)
  }

  /** A language tag of RFC 5646 section 2.1, as far as its characters go. */
  predicate IsTag(tag: string) {
    tag != "" && forall i :: 0 <= i < |tag| ==> IsSubtagChar(tag[i]) || tag[i] == '-'
  }

  predicate WellSent(lib: Library, x: Sent) {
    && (forall i :: 0 <= i < |x.pad| ==> lib.space(x.pad[i])) && ',' !in x.pad
    && IsTag(x.tag)
    && (x.weight.Some? ==> Solid(lib, x.weight.value) && ',' !in x.weight.value && ';' !in x.weight.value)
  }

  predicate AllSent(lib: Library, xs: seq<Sent>) {
    forall i :: 0 <= i < |xs| ==> WellSent(lib, xs[i])
  }

  /** No space anywhere in it. */
  predicate Solid(lib: Library, s: string) {
    forall i :: 0 <= i < |s| ==> !lib.space(s[i])
  }

  /** The weight meant: what the text parses to, and 1 when it is no weight. */
  function WeightOf(lib: Library, x: Sent): Weight {
    if x.weight.None? then Num(1.0)
    else
      var parsed := lib.parse(x.weight.value);
      if parsed.None? || OutOfRange(parsed.value) then Num(1.0) else parsed.value
  }

  lemma {:induction false} TrimPad(pad: string, s: string, cut: char -> bool)
    requires forall i :: 0 <= i < |pad| ==> cut(pad[i])
    requires s != "" ==> !cut(s[0]) && !cut(s[|s| - 1])
    ensures Trim(pad + s, cut) == s
    decreases |pad|
  {
    if pad == "" {
      assert pad + s == s;
      TrimNothing(s, cut);
    } else {
      TrimPad(pad[1..], s, cut);
      assert (pad + s)[1..] == pad[1..] + s;
      assert TrimLeft(pad + s, cut) == TrimLeft(pad[1..] + s, cut);
    }
  }

  lemma {:induction false} CutNone(s: string, sep: char)
    requires sep !in s
    ensures Cut(s, sep) == (s, None)
  {
    var n := IndexOf(s, sep);
    assert n == |s|;
    assert s[..|s|] == s;
  }

  lemma CutAt(a: string, sep: char, b: string)
    requires sep !in a
    ensures Cut(a + [sep] + b, sep) == (a, Some(b))
  {
    IndexOfFinds(a, sep, b);
    var s := a + [sep] + b;
    assert s[..|a|] == a && s[|a| + 1..] == b;
  }

  lemma TagIsSolid(lib: Library, tag: string)
    requires Facts(lib) && IsTag(tag)
    ensures Solid(lib, tag) && tag != "" && ';' !in tag && ',' !in tag
    ensures Solid(lib, "q") && !lib.space(';') && !lib.space('=')
  {
    assert '-' in "-;=" && ';' in "-;=" && '=' in "-;=";
  }

  lemma SolidTrims(lib: Library, pad: string, s: string)
    requires Solid(lib, s) && forall i :: 0 <= i < |pad| ==> lib.space(pad[i])
    ensures Trim(pad + s, lib.space) == s && Trim(s, lib.space) == s
  {
    TrimPad(pad, s, lib.space);
    TrimNothing(s, lib.space);
  }

  lemma QReads(lib: Library, w: string)
    requires Solid(lib, w) && Solid(lib, "q")
    ensures WeightIn(lib, ["q=" + w]) == WeightOf(lib, Sent("", "", Some(w)))
  {
    SolidTrims(lib, "", "q");
    SolidTrims(lib, "", w);
    hide Trim;
    CutAt("q", '=', w);
    hide Cut, Solid;
    var param := "q" + ['='] + w;
    assert param == "q=" + w;
    OneParam(lib, param);
  }

  lemma OneParam(lib: Library, param: string)
    ensures WeightIn(lib, [param]) ==
              var (name, value) := Cut(param, '=');
              var key := Trim(name, lib.space);
              if value.None? || (key != "q" && key != "Q") then Num(1.0)
              else
                var parsed := lib.parse(Trim(value.value, lib.space));
                if parsed.None? || OutOfRange(parsed.value) then Num(1.0) else parsed.value
  {
    hide Cut, Trim, OutOfRange;
    assert [param][1..] == [];
  }

  lemma BareReads(lib: Library, pad: string, tag: string)
    requires Solid(lib, tag) && tag != "" && ';' !in tag && forall i :: 0 <= i < |pad| ==> lib.space(pad[i])
    ensures LanguageRange(lib, pad + tag) == (tag, Num(1.0))
  {
    SolidTrims(lib, pad, tag);
    CutNone(tag, ';');
    hide Trim, Cut, Solid;
  }

  lemma WeightedReads(lib: Library, pad: string, tag: string, w: string)
    requires Solid(lib, tag) && tag != "" && ';' !in tag && forall i :: 0 <= i < |pad| ==> lib.space(pad[i])
    requires Solid(lib, w) && Solid(lib, "q") && !lib.space(';') && !lib.space('=') && ';' !in w
    ensures LanguageRange(lib, pad + (tag + ";q=" + w)) == (tag, WeightOf(lib, Sent("", "", Some(w))))
  {
    var text := tag + ";q=" + w;
    var param := "q=" + w;
    assert text == tag + [';'] + param && ';' !in param;
    SolidEntry(lib, tag, w);
    hide Trim, Cut, Solid, Split, WeightIn, WeightOf;
    SolidTrims(lib, pad, text);
    SolidTrims(lib, "", tag);
    SplitNone(param, ';');
    CutAt(tag, ';', param);
    QReads(lib, w);
  }

  lemma SolidEntry(lib: Library, tag: string, w: string)
    requires Solid(lib, tag) && Solid(lib, w) && Solid(lib, "q") && !lib.space(';') && !lib.space('=')
    ensures Solid(lib, tag + ";q=" + w)
  {
    assert !lib.space("q"[0]);
  }

  /** A parameter that gives a weight: `q` in either case, and a number from 0
      to 1 or NaN. */
  ghost predicate Gives(lib: Library, param: string, w: Weight) {
    exists name, value :: Reads(lib, param, name, value, w)
  }

  predicate Reads(lib: Library, param: string, name: string, value: string, w: Weight) {
    && param == name + ['='] + value && '=' !in name
    && (Trim(name, lib.space) == "q" || Trim(name, lib.space) == "Q")
    && lib.parse(Trim(value, lib.space)) == Some(w)
    && (w.Num? ==> 0.0 <= w.value <= 1.0)
  }

  lemma GivesIs(lib: Library, param: string, w: Weight)
    ensures Gives(lib, param, w) <==>
              var (name, value) := Cut(param, '=');
              && value.Some? && (Trim(name, lib.space) == "q" || Trim(name, lib.space) == "Q")
              && lib.parse(Trim(value.value, lib.space)) == Some(w) && !OutOfRange(w)
  {
    hide Trim;
    var n := IndexOf(param, '=');
    if n < |param| {
      assert param == param[..n] + ['='] + param[n + 1..];
      assert Reads(lib, param, param[..n], param[n + 1..], w)
        <==> var (name, value) := Cut(param, '=');
             && (Trim(name, lib.space) == "q" || Trim(name, lib.space) == "Q")
             && lib.parse(Trim(value.value, lib.space)) == Some(w) && !OutOfRange(w);
    }
    if name, value :| Reads(lib, param, name, value, w) { CutAt(name, '=', value); }
  }

  /** The weight is the first one given, whatever stands around it, and 1 when
      none is. */
  lemma {:induction false} FirstGivenWeight(lib: Library, params: seq<string>, k: nat, w: Weight)
    requires k <= |params| && forall i :: 0 <= i < k ==> forall v :: !Gives(lib, params[i], v)
    ensures k == |params| ==> WeightIn(lib, params) == Num(1.0)
    ensures k < |params| && Gives(lib, params[k], w) ==> WeightIn(lib, params) == w
  {
    if params != [] {
      forall v ensures Gives(lib, params[0], v) <==>
                         var (name, value) := Cut(params[0], '=');
                         && value.Some? && (Trim(name, lib.space) == "q" || Trim(name, lib.space) == "Q")
                         && lib.parse(Trim(value.value, lib.space)) == Some(v) && !OutOfRange(v)
      {
        GivesIs(lib, params[0], v);
      }
      hide Gives, Cut, Trim, OutOfRange;
      if k > 0 { FirstGivenWeight(lib, params[1..], k - 1, w); }
    }
  }

  /** An entry is read back as the tag and the weight it was printed from. */
  lemma PartReads(lib: Library, x: Sent)
    requires Facts(lib) && WellSent(lib, x)
    ensures LanguageRange(lib, Part(x)) == (x.tag, WeightOf(lib, x))
  {
    TagIsSolid(lib, x.tag);
    hide Facts, Solid, LanguageRange, IsTag;
    if x.weight.None? {
      assert x.tag + "" == x.tag;
      BareReads(lib, x.pad, x.tag);
    } else {
      assert x.tag + (";q=" + x.weight.value) == x.tag + ";q=" + x.weight.value;
      WeightedReads(lib, x.pad, x.tag, x.weight.value);
    }
  }

  /** English is asked for by the subtag "en" in any case, with or without more
      behind it, Indonesian by "id", and nothing else is supported. */
  lemma SupportedIff(lib: Library, primary: string, more: Option<string>)
    requires Facts(lib) && IsTag(primary) && '-' !in primary
    ensures var tag := if more.Some? then primary + ['-'] + more.value else primary;
            && (Supported(lib, tag) == Some(En) <==> |primary| == 2 && primary[0] in "eE" && primary[1] in "nN")
            && (Supported(lib, tag) == Some(Id) <==> |primary| == 2 && primary[0] in "iI" && primary[1] in "dD")
  {
    hide Facts, IsTag, Cut, MapChars;
    CutNone(primary, '-');
    if more.Some? { CutAt(primary, '-', more.value); }
    LowerOfTag(lib, primary);
    var low := MapChars(lib.lower, primary);
    if |primary| == 2 { assert low == [AsciiLower(primary[0]), AsciiLower(primary[1])]; }
    assert primary != "";
  }

  lemma LowerOfTag(lib: Library, s: string)
    requires Facts(lib) && IsTag(s)
    ensures s != "" && |MapChars(lib.lower, s)| == |s|
    ensures forall i :: 0 <= i < |s| ==> MapChars(lib.lower, s)[i] == AsciiLower(s[i])
  {
    forall i | 0 <= i < |s| ensures MapChars(lib.lower, s)[i] == AsciiLower(s[i]) {
      hide Facts, AsciiLower;
      assert Ascii(s[i]);
      LowerOfAscii(lib, s[i]);
    }
    hide Facts, IsTag;
  }

  lemma LowerOfAscii(lib: Library, c: char)
    requires Facts(lib) && Ascii(c)
    ensures lib.lower(c) == AsciiLower(c)
  {
  }

  // ----- the browser's own choice -------------------------------------------

  function BrowserLocale(lib: Library, tags: seq<string>): Option<Locale> {
    if tags == [] then None
    else
      var l := LocaleNamed(lib.toLowerCase(Split(tags[0], '-')[0]));
      if l.Some? then l else BrowserLocale(lib, tags[1..])
  }

  /** `languages` when it is there and not empty, else the single language. */
  method FindBrowserLocale(lib: Library, languages: Option<seq<string>>, language: string)
              returns (found: Option<Locale>)
    ensures found == BrowserLocale(lib, if languages.Some? && languages.value != [] then languages.value
        else [language])
  {
    var tags := if languages.Some? && |languages.value| > 0 then languages.value else [language];
    for i := 0 to |tags|
      invariant BrowserLocale(lib, tags) == BrowserLocale(lib, tags[i..])
    {
      assert tags[i..][0] == tags[i] && tags[i..][1..] == tags[i + 1..];
      var l := LocaleNamed(lib.toLowerCase(Split(tags[i], '-')[0]));
      if l.Some? { return l; }
    }
    return None;
  }

  lemma {:induction false} SplitFirst(s: string, sep: char)
    ensures Split(s, sep)[0] == Cut(s, sep).0
  {
    if s != "" {
      SplitFirst(s[1..], sep);
      if s[0] != sep {
        var n := IndexOf(s[1..], sep);
        assert s[..n + 1] == [s[0]] + s[1..][..n];
      }
    }
  }

  lemma SamePrimary(lib: Library, tag: string)
    requires Facts(lib) && IsTag(tag)
    ensures Supported(lib, tag) == LocaleNamed(lib.toLowerCase(Split(tag, '-')[0]))
  {
    SplitFirst(tag, '-');
    var primary := Cut(tag, '-').0;
    assert forall i :: 0 <= i < |primary| ==> primary[i] == tag[i] && Ascii(primary[i]);
    assert MapChars(lib.lower, primary) == lib.toLowerCase(primary);
  }

  /** Every weight is a number and at most `top`. */
  predicate UpTo(lib: Library, xs: seq<Sent>, top: real) {
    forall i :: 0 <= i < |xs| ==> var w := WeightOf(lib, xs[i]); w.Num? && w.value <= top
  }

  /** Positive weights that never go up. */
  predicate Descending(lib: Library, xs: seq<Sent>) {
    forall i :: 0 <= i < |xs| ==>
      var w := WeightOf(lib, xs[i]);
      w.Num? && w.value > 0.0 && UpTo(lib, xs[i + 1..], w.value)
  }

  lemma Tail(lib: Library, xs: seq<Sent>)
    requires xs != []
    ensures AllSent(lib, xs) ==> WellSent(lib, xs[0]) && AllSent(lib, xs[1..])
    ensures forall top :: UpTo(lib, xs, top) ==>
      WeightOf(lib, xs[0]).Num? && WeightOf(lib, xs[0]).value <= top && UpTo(lib, xs[1..], top)
    ensures Descending(lib, xs) ==>
      && WeightOf(lib, xs[0]).Num? && WeightOf(lib, xs[0]).value > 0.0
      && UpTo(lib, xs[1..], WeightOf(lib, xs[0]).value) && Descending(lib, xs[1..])
    ensures Parts(xs)[1..] == Parts(xs[1..]) && TagsOf(xs)[1..] == TagsOf(xs[1..])
  {
    hide WellSent, WeightOf, Part;
    var rest := xs[1..];
    assert forall i :: 0 <= i < |rest| ==> rest[i] == xs[i + 1] && rest[i + 1..] == xs[i + 2..];
  }

  predicate WeighUpTo(cs: seq<Candidate>, top: real) {
    forall j :: 0 <= j < |cs| ==> cs[j].q.Num? && cs[j].q.value <= top
  }

  lemma BothWeighUpTo(a: seq<Candidate>, b: seq<Candidate>, top: real)
    requires WeighUpTo(a, top) && WeighUpTo(b, top)
    ensures WeighUpTo(a + b, top)
  {
    assert forall j :: |a| <= j < |a + b| ==> (a + b)[j] == b[j - |a|];
  }

  lemma OneCandidate(lib: Library, x: Sent)
    requires Facts(lib) && WellSent(lib, x)
    ensures var l := Supported(lib, x.tag);
            CandidateOf(lib, Part(x)) == if l.Some? then [Candidate(l.value, WeightOf(lib, x))] else []
  {
    PartReads(lib, x);
    hide Facts, WellSent, LanguageRange, Supported, WeightOf, Part;
  }

  lemma {:induction false} CandidateWeights(lib: Library, xs: seq<Sent>, top: real)
    requires Facts(lib) && AllSent(lib, xs) && UpTo(lib, xs, top)
    ensures WeighUpTo(Candidates(lib, Parts(xs)), top)
  {
    if xs != [] {
      Tail(lib, xs);
      hide Facts, WellSent, AllSent, UpTo, Descending, Supported, WeightOf, Part, CandidateOf;
      OneCandidate(lib, xs[0]);
      CandidateWeights(lib, xs[1..], top);
      BothWeighUpTo(CandidateOf(lib, Part(xs[0])), Candidates(lib, Parts(xs[1..])), top);
    }
  }

  lemma {:induction false} FirstSupportedWins(lib: Library, xs: seq<Sent>)
    requires Facts(lib) && Descending(lib, xs) && AllSent(lib, xs)
    ensures var found := BrowserLocale(lib, TagsOf(xs));
            TakeAll(NOTHING, Candidates(lib, Parts(xs))).locale == if found.Some? then found.value else Id
    decreases |xs|
  {
    if xs != [] {
      Tail(lib, xs);
      PartReads(lib, xs[0]);
      SamePrimary(lib, xs[0].tag) by { assert WellSent(lib, xs[0]); }
      hide Facts, WellSent, AllSent, UpTo, Descending, LanguageRange, Supported, WeightOf, Part, IsTag,
           LocaleNamed, Split, Candidates, CandidateOf;
      TakeFirst(lib, NOTHING, Parts(xs));
      var first := Supported(lib, xs[0].tag);
      if first.Some? {
        CandidateWeights(lib, xs[1..], WeightOf(lib, xs[0]).value);
        TakeAllKeeps(Candidate(first.value, WeightOf(lib, xs[0])), Candidates(lib, Parts(xs[1..])));
      } else {
        FirstSupportedWins(lib, xs[1..]);
      }
    }
  }

  lemma NoComma(lib: Library, x: Sent)
    requires Facts(lib) && WellSent(lib, x)
    ensures ',' !in Part(x)
  {
    TagIsSolid(lib, x.tag);
    hide Facts, Solid;
  }

  lemma HeaderParts(lib: Library, xs: seq<Sent>)
    requires Facts(lib) && xs != [] && AllSent(lib, xs)
    ensures Split(Header(xs), ',') == Parts(xs)
  {
    forall i | 0 <= i < |xs| ensures ',' !in Parts(xs)[i] {
      NoComma(lib, xs[i]);
    }
    hide Split, Join, Part, WellSent, Facts;
    SplitJoin(Parts(xs), ',');
  }

  /** The server, reading the header a browser prints from its list with
      positive weights that never go up, and the browser, reading the list
      itself, answer alike. */
  lemma BothAgree(lib: Library, xs: seq<Sent>)
    requires Facts(lib) && xs != [] && Descending(lib, xs) && AllSent(lib, xs)
    ensures var found := BrowserLocale(lib, TagsOf(xs));
            Chosen(lib, Header(xs)) == if found.Some? then found.value else Id
  {
    HeaderParts(lib, xs);
    FirstSupportedWins(lib, xs);
  }

  /** "id;q=nan,en;q=0": Indonesian asked for, English ruled out, and English
      is the answer. */
  lemma NanPicksTheRefused(lib: Library, asked: Sent, refused: Sent)
    requires Facts(lib) && lib.parse("nan") == Some(NaN) && lib.parse("0") == Some(Num(0.0))
    requires Solid(lib, "nan") && Solid(lib, "0")
    requires asked == Sent("", "id", Some("nan")) && refused == Sent("", "en", Some("0"))
    ensures Chosen(lib, Header([asked, refused])) == En
  {
    hide Facts, Part, WellSent, CandidateOf, Header, Chosen, Solid;
    TwoLetterTag(lib, asked);
    TwoLetterTag(lib, refused);
    PairChosen(lib, asked, refused);
  }

  lemma PairChosen(lib: Library, a: Sent, b: Sent)
    requires Facts(lib) && WellSent(lib, a) && WellSent(lib, b)
    requires CandidateOf(lib, Part(a)) == [Candidate(Id, NaN)]
    requires CandidateOf(lib, Part(b)) == [Candidate(En, Num(0.0))]
    ensures Chosen(lib, Header([a, b])) == En
  {
    hide Facts, Part, WellSent, CandidateOf, Header, Chosen, Split, Candidates, Parts;
    HeaderParts(lib, [a, b]);
    TwoParts(lib, a, b);
    NanThenZero(lib, Header([a, b]));
  }

  lemma TwoLetterTag(lib: Library, x: Sent)
    requires Facts(lib) && (x.tag == "id" || x.tag == "en") && x.pad == "" && x.weight.Some?
    requires Solid(lib, x.weight.value) && ',' !in x.weight.value && ';' !in x.weight.value
    ensures WellSent(lib, x)
    ensures CandidateOf(lib, Part(x)) == [Candidate(if x.tag == "id" then Id else En, WeightOf(lib, x))]
  {
    assert IsTag(x.tag);
    hide Part, WeightOf, Solid, CandidateOf, Supported, Facts;
    BareTags(lib);
    OneCandidate(lib, x);
  }

  lemma BareTags(lib: Library)
    requires Facts(lib)
    ensures Supported(lib, "id") == Some(Id) && Supported(lib, "en") == Some(En)
  {
    CutNone("id", '-');
    CutNone("en", '-');
    hide Cut;
    assert MapChars(lib.lower, "id") == "id";
    assert MapChars(lib.lower, "en") == "en";
  }

  lemma NanThenZero(lib: Library, header: string)
    requires Asked(lib, header) == [Candidate(Id, NaN), Candidate(En, Num(0.0))]
    ensures Chosen(lib, header) == En
  {
    hide Asked;
    var rest := [Candidate(En, Num(0.0))];
    assert [Candidate(Id, NaN), Candidate(En, Num(0.0))] == [] + [Candidate(Id, NaN)] + rest;
    NanForgets(lib, header, [], Candidate(Id, NaN), rest);
    assert EarliestBest(rest, 0);
  }

  lemma TwoParts(lib: Library, a: Sent, b: Sent)
    ensures Header([a, b]) == Part(a) + "," + Part(b)
    ensures Candidates(lib, Parts([a, b])) == CandidateOf(lib, Part(a)) + CandidateOf(lib, Part(b))
  {
    hide Part, CandidateOf;
    var parts := Parts([a, b]);
    assert parts == [Part(a), Part(b)];
    assert parts[1..] == [Part(b)] && parts[1..][1..] == [];
    assert Join(parts[1..], ",") == Part(b);
    assert Candidates(lib, parts[1..]) == CandidateOf(lib, Part(b)) + Candidates(lib, []);
  }
}
