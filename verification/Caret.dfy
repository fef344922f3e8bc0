/** remapCaret: the caret keeps its line and column when a save rewrites the
    buffer. Text is a sequence of code units. */
module Caret {
  import opened Text

  function LastIndexOf(s: string, c: char): (i: int)
    ensures -1 <= i < |s|
  {
    if s == "" then -1
    else if s[|s| - 1] == c then |s| - 1
    else LastIndexOf(s[..|s| - 1], c)
  }

  function LineStart(lines: seq<string>, k: nat): nat
    requires k <= |lines|
  {
    if k == 0 then 0 else LineStart(lines, k - 1) + |lines[k - 1]| + 1
  }

  function Lines(s: string): (lines: seq<string>)
    ensures |lines| >= 1
  {
    Split(s, '\n')
  }

  function Head(s: string, offset: nat): string {
    if offset < |s| then s[..offset] else s
  }

  function LineOf(s: string, offset: nat): nat {
    |Lines(Head(s, offset))| - 1
  }

  function ColumnOf(s: string, offset: nat): nat {
    offset - (LastIndexOf(Head(s, offset), '\n') + 1)
  }

  function Min(a: nat, b: nat): nat { if a < b then a else b }

  function Remap(before: string, after: string, offset: nat): nat {
    var line, column, lines := LineOf(before, offset), ColumnOf(before, offset), Lines(after);
    if line >= |lines| then |after| else LineStart(lines, line) + Min(column, |lines[line]|)
  }

  method RemapCaret(before: string, after: string, offset: nat) returns (pos: nat)
    ensures pos == Remap(before, after, offset)
  {
    var head := if offset < |before| then before[..offset] else before;
    var line := |Split(head, '\n')| - 1;
    var column := offset - (LastIndexOf(head, '\n') + 1);
    var lines := Split(after, '\n');
    if line >= |lines| { return |after|; }
    var start := 0;
    for i := 0 to line
      invariant start == LineStart(lines, i)
    {
      start := start + |lines[i]| + 1;
    }
    return start + Min(column, |lines[line]|);
  }

  // ----- offsets and (line, column) -----------------------------------------

  /** The pieces with one more character at the end of the text. */
  function Extend(p: seq<string>, c: char): seq<string>
    requires p != []
  {
    if c == '\n' then p + [""] else p[..|p| - 1] + [p[|p| - 1] + [c]]
  }

  function Prepend(c: char, p: seq<string>): seq<string>
    requires p != []
  {
    if c == '\n' then [""] + p else [[c] + p[0]] + p[1..]
  }

  lemma ExtendPrepend(a: char, p: seq<string>, c: char)
    requires p != []
    ensures Extend(Prepend(a, p), c) == Prepend(a, Extend(p, c))
  {
    if |p| == 1 && a != '\n' && c != '\n' { assert [a] + p[0] + [c] == [a] + (p[0] + [c]); }
  }

  lemma {:induction false} SplitLast(h: string, c: char)
    ensures Lines(h + [c]) == Extend(Lines(h), c)
  {
    hide Extend;
    if h == "" {
      assert h + [c] == [c] && [c][1..] == "";
      assert Lines("") == [""] && Extend([""], c) == Prepend(c, [""]) by { ExtendOne(c); }
    } else {
      SplitLast(h[1..], c);
      assert (h + [c])[1..] == h[1..] + [c];
      ExtendPrepend(h[0], Lines(h[1..]), c);
    }
  }

  lemma ExtendOne(c: char)
    ensures Extend([""], c) == Prepend(c, [""])
  {
    assert "" + [c] == [c] + "";
  }

  lemma {:induction false} LastPart(h: string)
    ensures var p := Lines(h); |h| - (LastIndexOf(h, '\n') + 1) == |p[|p| - 1]|
  {
    if h != "" {
      var n := |h| - 1;
      LastPart(h[..n]);
      SplitLast(h[..n], h[n]);
      assert h == h[..n] + [h[n]];
    }
  }

  lemma {:induction false} LineStartTail(lines: seq<string>, k: nat)
    requires lines != [] && 1 <= k <= |lines|
    ensures LineStart(lines, k) == |lines[0]| + 1 + LineStart(lines[1..], k - 1)
  {
    if k > 1 { LineStartTail(lines, k - 1); }
  }

  lemma {:induction false} SameStart(a: seq<string>, b: seq<string>, k: nat)
    requires k <= |a| && k <= |b| && forall i :: 0 <= i < k ==> a[i] == b[i]
    ensures LineStart(a, k) == LineStart(b, k)
  {
    if k > 0 { SameStart(a, b, k - 1); }
  }

  lemma {:induction false} TotalLength(s: string)
    ensures LineStart(Lines(s), |Lines(s)|) == |s| + 1
  {
    if s != "" {
      TotalLength(s[1..]);
      LineStartTail(Lines(s), |Lines(s)|);
      var rest := Lines(s[1..]);
      if s[0] == '\n' {
        assert Lines(s)[1..] == rest;
      } else {
        LineStartTail(rest, |rest|);
        assert Lines(s)[1..] == rest[1..];
      }
    }
  }

  /** The lines of a prefix are the lines of the text, the last one cut. */
  lemma {:induction false} PrefixLines(s: string, o: nat)
    requires o <= |s|
    ensures var h, p := Lines(s[..o]), Lines(s);
            && |h| <= |p|
            && (forall i :: 0 <= i < |h| - 1 ==> h[i] == p[i])
            && h[|h| - 1] <= p[|h| - 1]
  {
    if o > 0 {
      PrefixLines(s[1..], o - 1);
      assert s[..o][1..] == s[1..][..o - 1] && s[..o][0] == s[0];
    } else {
      assert s[..0] == "";
    }
  }

  lemma HeadIsPrefix(s: string, o: nat)
    requires o <= |s|
    ensures Head(s, o) == s[..o]
  {
    assert o == |s| ==> s[..o] == s;
  }

  /** An offset is the start of its line plus its column. */
  lemma Locate(s: string, o: nat)
    requires o <= |s|
    ensures var p := Lines(s);
            LineOf(s, o) < |p| && ColumnOf(s, o) <= |p[LineOf(s, o)]|
                && o == LineStart(p, LineOf(s, o)) + ColumnOf(s, o)
  {
    HeadIsPrefix(s, o);
    PrefixLines(s, o);
    var h := Lines(s[..o]);
    LastPart(s[..o]);
    TotalLength(s[..o]);
    SameStart(h, Lines(s), |h| - 1);
  }

  lemma {:induction false} StartsIncrease(lines: seq<string>, j: nat, k: nat)
    requires j < k <= |lines|
    ensures LineStart(lines, j) + |lines[j]| + 1 <= LineStart(lines, k)
  {
    if j < k - 1 { StartsIncrease(lines, j, k - 1); }
  }

  lemma InsideText(s: string, k: nat, c: nat)
    requires k < |Lines(s)| && c <= |Lines(s)[k]|
    ensures LineStart(Lines(s), k) + c <= |s|
  {
    StartsIncrease(Lines(s), k, |Lines(s)|);
    TotalLength(s);
  }

  /** And only that line and column give that offset. */
  lemma LocateUnique(s: string, k: nat, c: nat)
    requires k < |Lines(s)| && c <= |Lines(s)[k]|
    ensures var o := LineStart(Lines(s), k) + c; LineOf(s, o) == k && ColumnOf(s, o) == c
  {
    hide *;
    var lines := Lines(s);
    var o := LineStart(lines, k) + c;
    InsideText(s, k, c);
    Locate(s, o);
    OnePlace(lines, k, c, LineOf(s, o), ColumnOf(s, o));
  }

  lemma OnePlace(lines: seq<string>, k: nat, c: nat, l: nat, d: nat)
    requires k < |lines| && c <= |lines[k]| && l < |lines| && d <= |lines[l]|
    requires LineStart(lines, k) + c == LineStart(lines, l) + d
    ensures k == l && c == d
  {
    if l < k {
      StartsIncrease(lines, l, k);
    } else if k < l {
      StartsIncrease(lines, k, l);
    }
  }

  // ----- the properties -----------------------------------------------------

  lemma RemapStaysInside(before: string, after: string, offset: nat)
    ensures Remap(before, after, offset) <= |after|
  {
    var lines := Lines(after);
    if LineOf(before, offset) < |lines| {
      InsideText(after, LineOf(before, offset), Min(ColumnOf(before, offset), |lines[LineOf(before, offset)]|));
    }
  }

  /** Past the end the caret is on the last line, further right. */
  lemma PastEnd(s: string, o: nat)
    requires o >= |s|
    ensures LineOf(s, o) == LineOf(s, |s|) && ColumnOf(s, o) == ColumnOf(s, |s|) + (o - |s|)
  {
    HeadIsPrefix(s, |s|);
    assert Head(s, o) == s;
  }

  lemma LocationMonotone(s: string, a: nat, b: nat)
    requires a <= b
    ensures LineOf(s, a) < LineOf(s, b) || (LineOf(s, a) == LineOf(s, b) && ColumnOf(s, a) <= ColumnOf(s, b))
  {
    hide LineOf, ColumnOf, Lines;
    var x, y := Min(a, |s|), Min(b, |s|);
    Locate(s, x);
    Locate(s, y);
    if a > |s| { PastEnd(s, a); }
    if b > |s| { PastEnd(s, b); }
    var p := Lines(s);
    if LineOf(s, y) < LineOf(s, x) { StartsIncrease(p, LineOf(s, y), LineOf(s, x)); }
  }

  /** Moving the caret right never moves the remapped caret left. */
  lemma RemapMonotone(before: string, after: string, a: nat, b: nat)
    requires a <= b
    ensures Remap(before, after, a) <= Remap(before, after, b)
  {
    LocationMonotone(before, a, b);
    RemapStaysInside(before, after, a);
    hide LineOf, ColumnOf;
    var l, m := LineOf(before, a), LineOf(before, b);
    if l < m < |Lines(after)| { StartsIncrease(Lines(after), l, m); }
  }

  lemma RemapUnchanged(s: string, offset: nat)
    requires offset <= |s|
    ensures Remap(s, s, offset) == offset
  {
    Locate(s, offset);
  }

  /** The rewrite only appends to line ends. */
  predicate AppendsToLines(before: string, after: string) {
    |Lines(before)| == |Lines(after)| && forall i :: 0 <= i < |Lines(before)| ==> Lines(before)[i] <= Lines(after)[i]
  }

  /** Then the caret keeps its line and column exactly, and remapping back
      undoes it. */
  lemma RemapExact(before: string, after: string, offset: nat)
    requires AppendsToLines(before, after) && offset <= |before|
    ensures var pos := Remap(before, after, offset);
            && LineOf(after, pos) == LineOf(before, offset)
            && ColumnOf(after, pos) == ColumnOf(before, offset)
            && Remap(after, before, pos) == offset
  {
    Locate(before, offset);
    hide LineOf, ColumnOf;
    var l, c := LineOf(before, offset), ColumnOf(before, offset);
    assert Lines(before)[l] <= Lines(after)[l];
    LocateUnique(after, l, c);
  }
}
