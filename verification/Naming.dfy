/** File names for the archive: slugs, unique names, and the set of paths
    written. Unicode's tables are parameters with the few facts used. */
module Naming {
  import opened Text

  datatype Unicode = Unicode(lower: char -> char, word: char -> bool, space: char -> bool)

  /** Lower-casing twice is lower-casing once; letters and digits are neither
      space nor one of the characters names are built with. */
  ghost predicate Facts(u: Unicode) {
    && (forall c :: u.lower(u.lower(c)) == u.lower(c))
    && (forall c :: u.word(c) ==> !u.space(c))
    && !u.word('-') && !u.word('/') && !u.word('.') && !u.space('-')
    && u.lower('-') == '-'
  }

  const MAX_SLUG := 60

  function ByteLen(c: char): (n: nat)
    ensures 1 <= n <= 4
  {
    if c < '\U{80}' then 1 else if c < '\U{800}' then 2 else if c < '\U{10000}' then 3 else 4
  }

  function Bytes(s: string): nat {
    if s == "" then 0 else Bytes(s[..|s| - 1]) + ByteLen(s[|s| - 1])
  }

  function TrimLeft(s: string, cut: char -> bool): string {
    if s != "" && cut(s[0]) then TrimLeft(s[1..], cut) else s
  }

  function TrimRight(s: string, cut: char -> bool): string {
    if s != "" && cut(s[|s| - 1]) then TrimRight(s[..|s| - 1], cut) else s
  }

  function Trim(s: string, cut: char -> bool): string {
    TrimRight(TrimLeft(s, cut), cut)
  }

  /** The builder after one more character. */
  function Put(u: Unicode, b: string, c: char): string {
    if u.word(c) then b + [c] else if EndsOpen(b) then b + "-" else b
  }

  /** A dash may follow: something is there and it is not a dash. */
  predicate EndsOpen(b: string) {
    b != "" && b[|b| - 1] != '-'
  }

  function Scan(u: Unicode, s: string, b: string): string {
    if s == "" then b
    else
      var next := Put(u, b, s[0]);
      if Bytes(next) >= MAX_SLUG then next else Scan(u, s[1..], next)
  }

  function Slug(u: Unicode, title: string): string {
    Trim(Scan(u, MapChars(u.lower, Trim(title, u.space)), ""), c => c == '-')
  }

  method MakeSlug(u: Unicode, title: string) returns (slug: string)
    requires Facts(u)
    ensures slug == Slug(u, title)
  {
    var s := MapChars(u.lower, Trim(title, u.space));
    var b, lastDash := "", true;
    var i := 0;
    while i < |s|
      invariant 0 <= i <= |s| && (lastDash <==> !EndsOpen(b))
      invariant Scan(u, s, "") == Scan(u, s[i..], b)
    {
      assert s[i..][0] == s[i] && s[i..][1..] == s[i + 1..];
      if u.word(s[i]) {
        b := b + [s[i]];
        lastDash := false;
      } else if !lastDash {
        b := b + "-";
        lastDash := true;
      }
      i := i + 1;
      if Bytes(b) >= MAX_SLUG { break; }
    }
    return Trim(b, c => c == '-');
  }

  // ----- what a slug looks like ---------------------------------------------

  /** Lower-case letters and digits with single dashes between, none in front. */
  predicate Clean(u: Unicode, b: string) {
    && (forall i :: 0 <= i < |b| ==> (u.word(b[i]) || b[i] == '-') && u.lower(b[i]) == b[i])
    && (b != "" ==> b[0] != '-')
    && (forall i :: 0 <= i < |b| - 1 ==> b[i] != '-' || b[i + 1] != '-')
  }

  predicate UnderCap(b: string) {
    forall i :: 0 <= i < |b| ==> Bytes(b[..i]) < MAX_SLUG
  }

  lemma PutClean(u: Unicode, b: string, c: char)
    requires Facts(u) && Clean(u, b) && UnderCap(b) && Bytes(b) < MAX_SLUG && u.lower(c) == c
    ensures Clean(u, Put(u, b, c)) && UnderCap(Put(u, b, c)) && Bytes(Put(u, b, c)) <= MAX_SLUG + 3
  {
    var next := Put(u, b, c);
    if next != b {
      assert next[..|b|] == b;
      forall i | 0 <= i < |next| ensures Bytes(next[..i]) < MAX_SLUG {
        if i < |b| { assert next[..i] == b[..i]; }
      }
    }
  }

  lemma {:induction false} ScanClean(u: Unicode, s: string, b: string)
    requires Facts(u) && Clean(u, b) && UnderCap(b) && Bytes(b) < MAX_SLUG
    requires forall i :: 0 <= i < |s| ==> u.lower(s[i]) == s[i]
    ensures var r := Scan(u, s, b); Clean(u, r) && UnderCap(r) && Bytes(r) <= MAX_SLUG + 3
    decreases |s|
  {
    hide Clean, UnderCap, Put;
    if s != "" {
      PutClean(u, b, s[0]);
      if Bytes(Put(u, b, s[0])) < MAX_SLUG { ScanClean(u, s[1..], Put(u, b, s[0])); }
    }
  }

  lemma TrimDash(u: Unicode, b: string)
    requires Clean(u, b)
    ensures Trim(b, c => c == '-') == if b != "" && b[|b| - 1] == '-' then b[..|b| - 1] else b
  {
    var dash := c => c == '-';
    assert TrimLeft(b, dash) == b;
    if b != "" && b[|b| - 1] == '-' {
      var t := b[..|b| - 1];
      if t != "" { assert b[|b| - 2] != '-'; }
      assert TrimRight(t, dash) == t;
    }
  }

  /** What the trim leaves: no dash at either end. */
  predicate SlugShape(u: Unicode, t: string) {
    Clean(u, t) && UnderCap(t) && Bytes(t) <= MAX_SLUG + 3 && (t != "" ==> t[|t| - 1] != '-')
  }

  lemma TrimmedShape(u: Unicode, b: string)
    requires Facts(u) && Clean(u, b) && UnderCap(b) && Bytes(b) <= MAX_SLUG + 3
    ensures SlugShape(u, Trim(b, c => c == '-')) && Trim(b, c => c == '-') <= b
  {
    TrimDash(u, b);
    var t := Trim(b, c => c == '-');
    hide Trim;
    if t != b {
      assert t == b[..|b| - 1];
      forall i | 0 <= i < |t| ensures Bytes(t[..i]) < MAX_SLUG { assert t[..i] == b[..i]; }
      if t != "" { assert b[|b| - 2] != '-'; }
    }
  }

  /** Every slug: only lower-case letters, digits and single dashes, none at
      either end, no path separator, at most 63 bytes. */
  lemma SlugIsClean(u: Unicode, title: string)
    requires Facts(u)
    ensures SlugShape(u, Slug(u, title)) && '/' !in Slug(u, title) && Bytes(Slug(u, title)) <= 63
  {
    var s := MapChars(u.lower, Trim(title, u.space));
    ScanClean(u, s, "");
    TrimmedShape(u, Scan(u, s, ""));
    hide Trim, Scan;
  }

  // ----- slugging a slug ----------------------------------------------------

  lemma {:induction false} TrimNothing(s: string, cut: char -> bool)
    requires s != "" ==> !cut(s[0]) && !cut(s[|s| - 1])
    ensures Trim(s, cut) == s
  {
  }

  /** A clean text is scanned into itself, break or no break. */
  lemma {:induction false} ScanKeeps(u: Unicode, t: string, i: nat)
    requires Facts(u) && Clean(u, t) && UnderCap(t) && i <= |t|
    ensures Scan(u, t[i..], t[..i]) == t
    decreases |t| - i
  {
    if i < |t| {
      var b := t[..i];
      assert t[i..][0] == t[i] && t[i..][1..] == t[i + 1..] && t[..i + 1] == b + [t[i]];
      assert Put(u, b, t[i]) == t[..i + 1] by {
        if t[i] == '-' { assert b != "" && b[i - 1] != '-'; }
      }
      if Bytes(t[..i + 1]) >= MAX_SLUG {
        assert i + 1 == |t|;
        assert t[..i + 1] == t;
      } else {
        ScanKeeps(u, t, i + 1);
      }
    } else {
      assert t[..i] == t;
    }
  }

  lemma SlugOfShape(u: Unicode, t: string)
    requires Facts(u) && SlugShape(u, t)
    ensures Slug(u, t) == t
  {
    hide Trim, Scan, UnderCap;
    if t != "" { assert u.word(t[0]) && u.word(t[|t| - 1]); }
    TrimNothing(t, u.space);
    assert MapChars(u.lower, t) == t;
    ScanKeeps(u, t, 0);
    assert t[0..] == t && t[..0] == "";
    TrimNothing(t, c => c == '-');
  }

  /** A slug is its own slug, through the early break and the final trim. */
  lemma SlugIdempotent(u: Unicode, title: string)
    requires Facts(u)
    ensures Slug(u, Slug(u, title)) == Slug(u, title)
  {
    SlugIsClean(u, title);
    hide Slug, SlugShape;
    SlugOfShape(u, Slug(u, title));
  }

  // ----- what survives ------------------------------------------------------

  function Words(u: Unicode, s: string): string {
    if s == "" then "" else Words(u, s[..|s| - 1]) + (if u.word(s[|s| - 1]) then [s[|s| - 1]] else "")
  }

  lemma {:induction false} WordsConcat(u: Unicode, a: string, b: string)
    ensures Words(u, a + b) == Words(u, a) + Words(u, b)
  {
    if b == "" {
      assert a + b == a;
    } else {
      WordsConcat(u, a, b[..|b| - 1]);
      assert (a + b)[..|a + b| - 1] == a + b[..|b| - 1];
    }
  }

  lemma PutWords(u: Unicode, b: string, c: char)
    requires Facts(u)
    ensures Words(u, Put(u, b, c)) == Words(u, b) + (if u.word(c) then [c] else "")
  {
    WordsConcat(u, b, [c]);
    WordsConcat(u, b, "-");
    assert Words(u, [c]) == (if u.word(c) then [c] else "") && Words(u, "-") == "" by {
      assert [c][..0] == "" && "-"[..0] == "";
    }
  }

  lemma WordsHead(u: Unicode, s: string)
    requires s != ""
    ensures Words(u, s) == (if u.word(s[0]) then [s[0]] else "") + Words(u, s[1..])
  {
    WordsConcat(u, [s[0]], s[1..]);
    assert [s[0]] + s[1..] == s && [s[0]][..0] == "";
  }

  /** The scan keeps the letters and digits in order: all of them unless the
      cap cut it short, and then a first part of them. */
  lemma {:induction false} ScanWords(u: Unicode, s: string, b: string)
    requires Facts(u) && Bytes(b) < MAX_SLUG
    ensures Words(u, Scan(u, s, b)) <= Words(u, b) + Words(u, s)
    ensures Bytes(Scan(u, s, b)) < MAX_SLUG ==> Words(u, Scan(u, s, b)) == Words(u, b) + Words(u, s)
    decreases |s|
  {
    hide Put, Words;
    if s != "" {
      PutWords(u, b, s[0]);
      WordsHead(u, s);
      var next := Put(u, b, s[0]);
      if Bytes(next) < MAX_SLUG { ScanWords(u, s[1..], next); }
    } else {
      assert Words(u, b) + Words(u, s) == Words(u, b) by { NoWords(u); }
    }
  }

  lemma NoWords(u: Unicode)
    ensures Words(u, "") == ""
  {
  }

  lemma TrimWords(u: Unicode, b: string)
    requires Facts(u) && Clean(u, b)
    ensures var t := Trim(b, c => c == '-');
            Words(u, t) == Words(u, b) && Bytes(b) <= Bytes(t) + 1
  {
    TrimDash(u, b);
    var t := Trim(b, c => c == '-');
    hide Trim, Clean;
    if t != b {
      assert b[..|b| - 1] == t && b[|b| - 1] == '-';
    }
  }

  /** Letters and digits survive in order; all of them when the slug stays
      under 59 bytes. */
  lemma WordsSurvive(u: Unicode, title: string)
    requires Facts(u)
    ensures var all := Words(u, MapChars(u.lower, Trim(title, u.space)));
            && Words(u, Slug(u, title)) <= all
            && (Bytes(Slug(u, title)) < 59 ==> Words(u, Slug(u, title)) == all)
  {
    var s := MapChars(u.lower, Trim(title, u.space));
    ScanClean(u, s, "") by { assert Bytes("") == 0; }
    ScanWords(u, s, "");
    TrimWords(u, Scan(u, s, ""));
    NoWords(u);
    hide Scan, Clean, UnderCap, Trim, Words, Bytes, MapChars;
    assert "" + Words(u, s) == Words(u, s);
  }

  /** The runs of letters and digits in a text. */
  function Runs(u: Unicode, s: string): (runs: seq<string>)
    ensures forall i :: 0 <= i < |runs| ==> runs[i] != ""
    ensures s != "" && u.word(s[|s| - 1]) ==> runs != []
  {
    if s == "" then []
    else
      var before, c := Runs(u, s[..|s| - 1]), s[|s| - 1];
      if !u.word(c) then before
      else if |s| >= 2 && u.word(s[|s| - 2]) then before[..|before| - 1] + [before[|before| - 1] + [c]]
      else before + [[c]]
  }

  /** With single dashes between. */
  function Dashed(runs: seq<string>): string {
    if runs == [] then ""
    else if |runs| == 1 then runs[0]
    else Dashed(runs[..|runs| - 1]) + "-" + runs[|runs| - 1]
  }

  /** The builder without the cap. */
  function PutAll(u: Unicode, s: string): string {
    if s == "" then "" else Put(u, PutAll(u, s[..|s| - 1]), s[|s| - 1])
  }

  lemma {:induction false} BytesGrow(a: string, b: string)
    requires a <= b
    ensures Bytes(a) <= Bytes(b)
    decreases |b|
  {
    if |a| < |b| { BytesGrow(a, b[..|b| - 1]); } else { assert a == b; }
  }

  /** The scan puts everything, unless it stops at the cap. */
  lemma {:induction false} ScanPutsAll(u: Unicode, s: string, i: nat)
    requires i <= |s|
    ensures var r := Scan(u, s[i..], PutAll(u, s[..i])); Bytes(r) < MAX_SLUG ==> r == PutAll(u, s)
    decreases |s| - i
  {
    if i < |s| {
      assert s[i..][0] == s[i] && s[i..][1..] == s[i + 1..];
      assert s[..i + 1][..i] == s[..i] && s[..i + 1][i] == s[i];
      hide Put;
      ScanPutsAll(u, s, i + 1);
    } else {
      assert s[..i] == s;
    }
  }

  lemma DashedEnds(runs: seq<string>)
    requires runs != [] && runs[|runs| - 1] != ""
    ensures var d, last := Dashed(runs), runs[|runs| - 1];
            d != "" && d[|d| - 1] == last[|last| - 1]
  {
  }

  lemma LongerRun(runs: seq<string>, c: char)
    requires runs != []
    ensures Dashed(runs[..|runs| - 1] + [runs[|runs| - 1] + [c]]) == Dashed(runs) + [c]
  {
    var longer := runs[..|runs| - 1] + [runs[|runs| - 1] + [c]];
    assert longer[..|runs| - 1] == runs[..|runs| - 1];
  }

  /** The last run ends in a letter or digit. */
  lemma {:induction false} RunsEndInWords(u: Unicode, s: string)
    ensures var runs := Runs(u, s);
            runs != [] ==> var last := runs[|runs| - 1]; last != "" && u.word(last[|last| - 1])
  {
    if s != "" { RunsEndInWords(u, s[..|s| - 1]); }
  }

  /** The builder is the runs so far, dashed, and one more dash when something
      else has followed them. */
  lemma {:induction false} PutAllIs(u: Unicode, s: string)
    requires Facts(u)
    ensures var runs := Runs(u, s);
            PutAll(u, s) == Dashed(runs) + if runs != [] && !u.word(s[|s| - 1]) then "-" else ""
  {
    if s != "" {
      var init, c := s[..|s| - 1], s[|s| - 1];
      var runs := Runs(u, init);
      PutAllIs(u, init);
      RunsEndInWords(u, init);
      if runs != [] { DashedEnds(runs); LongerRun(runs, c); }
      assert (runs + [[c]])[..|runs|] == runs;
      hide Dashed, Facts;
      assert Dashed([[c]]) == [c] && Dashed([]) == "" by { DashedFew(c); }
      if runs != [] { DashedMore(runs, [c]); }
    }
  }

  lemma DashedFew(c: char)
    ensures Dashed([[c]]) == [c] && Dashed([]) == ""
  {
  }

  lemma DashedMore(runs: seq<string>, run: string)
    requires runs != []
    ensures Dashed(runs + [run]) == Dashed(runs) + "-" + run
  {
    assert (runs + [run])[..|runs|] == runs;
  }

  /** A slug under the cap is the title's runs of letters and digits, in lower
      case, with a dash wherever anything stood between two of them. */
  lemma SlugIsRuns(u: Unicode, title: string)
    requires Facts(u)
    ensures var runs := Runs(u, MapChars(u.lower, Trim(title, u.space)));
            Bytes(Slug(u, title)) < 59 ==> Slug(u, title) == Dashed(runs)
  {
    var s := MapChars(u.lower, Trim(title, u.space));
    ScanClean(u, s, "") by { assert Bytes("") == 0; }
    ScanPutsAll(u, s, 0);
    assert s[0..] == s && s[..0] == "";
    PutAllIs(u, s);
    RunsEndInWords(u, s);
    var b, runs := Scan(u, s, ""), Runs(u, s);
    TrimWords(u, b);
    TrimDash(u, b);
    if runs != [] { DashedEnds(runs); }
    hide Scan, Clean, UnderCap, Trim, Runs, Dashed, PutAll, MapChars, Bytes;
    if runs != [] && !u.word(s[|s| - 1]) { assert (Dashed(runs) + "-")[..|Dashed(runs)|] == Dashed(runs); }
  }

  /** The slug is empty, and the id stands in, exactly when the title holds no
      letter and no digit. */
  lemma SlugEmpty(u: Unicode, title: string)
    requires Facts(u)
    ensures Slug(u, title) == "" <==> Words(u, MapChars(u.lower, Trim(title, u.space))) == ""
  {
    WordsSurvive(u, title);
    SlugIsClean(u, title);
    NoWords(u);
    var slug := Slug(u, title);
    hide Slug, Trim, MapChars, Scan;
    assert slug == "" ==> Bytes(slug) == 0;
    if slug != "" {
      WordsHead(u, slug);
      hide Words;
      assert u.word(slug[0]);
    }
  }

  // ----- unique names -------------------------------------------------------

  /** The slug, or the first eight characters of the id when it is empty. */
  function Base(u: Unicode, title: string, id: string): string
    requires |id| >= 8
  {
    var slug := Slug(u, title);
    if slug == "" then "tanpa-judul-" + id[..8] else slug
  }

  function NameAt(base: string, i: nat): string
    requires i >= 1
  {
    if i == 1 then base + ".md" else base + "-" + Decimal(i) + ".md"
  }

  lemma NameAtInjective(base: string, i: nat, j: nat)
    requires i >= 1 && j >= 1 && i != j
    ensures NameAt(base, i) != NameAt(base, j)
  {
    DecimalValue(i);
    DecimalValue(j);
    var a, b := NameAt(base, i), NameAt(base, j);
    hide Decimal, Value;
    if i > 1 { assert a[|base| + 1..|a| - 3] == Decimal(i); }
    if j > 1 { assert b[|base| + 1..|b| - 3] == Decimal(j); }
  }

  /** The `i`-th candidate is the first one not taken in this folder. */
  predicate FirstFree(used: set<string>, dir: string, base: string, i: nat) {
    && i >= 1 && dir + NameAt(base, i) !in used
    && forall j :: 1 <= j < i ==> dir + NameAt(base, j) in used
  }

  /** The plain name as long as it is free, else one with a number from 2 on. */
  lemma FirstFreeName(used: set<string>, dir: string, base: string, i: nat)
    requires FirstFree(used, dir, base, i)
    ensures dir + (base + ".md") !in used ==> NameAt(base, i) == base + ".md"
    ensures dir + (base + ".md") in used ==> i >= 2 && NameAt(base, i) == base + "-" + Decimal(i) + ".md"
  {
    assert NameAt(base, 1) == base + ".md";
    hide Decimal;
  }

  /** A file is named after its title, or after the start of its id when the
      title has no letter and no digit. */
  lemma NamedAfterTitle(u: Unicode, used: set<string>, dir: string, title: string, id: string, i: nat)
    requires Facts(u) && |id| >= 8 && FirstFree(used, dir, Base(u, title, id), i)
    ensures var base := if Words(u, MapChars(u.lower, Trim(title, u.space))) == "" then "tanpa-judul-" + id[..8]
                        else Slug(u, title);
            NameAt(Base(u, title, id), i)
              == if dir + (base + ".md") !in used then base + ".md" else base + "-" + Decimal(i) + ".md"
  {
    SlugEmpty(u, title);
    hide Slug, Words, Trim, MapChars, Decimal, Facts;
    FirstFreeName(used, dir, Base(u, title, id), i);
    hide FirstFree, NameAt;
  }

  class Namer {
    var used: set<string>

    constructor ()
      ensures used == {}
    {
      used := {};
    }

    /** The first free candidate; the search stops within |used| + 1 tries,
        because every try it rejects is a different taken name. */
    method Pick(u: Unicode, dir: string, title: string, id: string) returns (name: string, ghost suffix: nat)
      requires Facts(u) && |id| >= 8
      modifies this
      ensures FirstFree(old(used), dir, Base(u, title, id), suffix) && suffix <= |old(used)| + 1
      ensures name == NameAt(Base(u, title, id), suffix)
      ensures used == old(used) + {dir + name}
    {
      var base := MakeSlug(u, title);
      if base == "" {
        base := "tanpa-judul-" + id[..8];
      }
      name := base + ".md";
      suffix := 1;
      ghost var rest := used;
      var i := 2;
      while dir + name in used
        invariant i == suffix + 1 && suffix >= 1 && name == NameAt(base, suffix) && used == old(used)
        invariant forall j :: 1 <= j < suffix ==> dir + NameAt(base, j) in used
        invariant forall j :: suffix <= j && dir + NameAt(base, j) in used ==> dir + NameAt(base, j) in rest
        invariant |rest| + suffix == |used| + 1
        decreases rest
      {
        ghost var taken := dir + name;
        forall j | suffix < j ensures dir + NameAt(base, j) != taken {
          NameAtInjective(base, suffix, j);
          assert (dir + NameAt(base, j))[|dir|..] == NameAt(base, j) && taken[|dir|..] == name;
        }
        rest := rest - {taken};
        name := base + "-" + Decimal(i) + ".md";
        suffix := i;
        i := i + 1;
      }
      used := used + {dir + name};
    }
  }

  lemma {:induction false} BaseHasNoSlash(u: Unicode, title: string, id: string)
    requires Facts(u) && |id| >= 8 && '/' !in id
    ensures '/' !in Base(u, title, id)
  {
    SlugIsClean(u, title);
    hide Slug, SlugShape;
    assert '/' !in id[..8];
  }
}
