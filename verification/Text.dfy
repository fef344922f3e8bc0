/** Strings as the program uses them: lexicographic order (Go's `<` on
    strings), fixed-width and minimal decimal, and splitting on a separator. */
module Text {

  datatype Option<+T> = None | Some(value: T)

  // ----- lexicographic order ------------------------------------------------

  predicate LexLt(a: string, b: string) {
    b != "" && (a == "" || a[0] < b[0] || (a[0] == b[0] && LexLt(a[1..], b[1..])))
  }

  predicate LexLe(a: string, b: string) {
    a == b || LexLt(a, b)
  }

  lemma {:induction false} LexTotal(a: string, b: string)
    ensures LexLt(a, b) || a == b || LexLt(b, a)
    ensures !(LexLt(a, b) && LexLt(b, a))
    ensures LexLt(a, b) ==> a != b
  {
    if a != "" && b != "" && a[0] == b[0] {
      LexTotal(a[1..], b[1..]);
      assert a == [a[0]] + a[1..] && b == [b[0]] + b[1..];
    }
  }

  lemma {:induction false} LexTrans(a: string, b: string, c: string)
    requires LexLt(a, b) && LexLt(b, c)
    ensures LexLt(a, c)
  {
    if a != "" && a[0] == b[0] && b[0] == c[0] {
      LexTrans(a[1..], b[1..], c[1..]);
    }
  }

  /** On prefixes of one length, the prefix decides unless it is equal. */
  lemma {:induction false} LexConcat(a: string, b: string, c: string, d: string)
    requires |a| == |b|
    ensures LexLt(a + c, b + d) <==> LexLt(a, b) || (a == b && LexLt(c, d))
  {
    if a == "" {
      assert a + c == c && b + d == d;
    } else {
      LexConcat(a[1..], b[1..], c, d);
      assert (a + c)[1..] == a[1..] + c && (b + d)[1..] == b[1..] + d;
      assert a == [a[0]] + a[1..] && b == [b[0]] + b[1..];
    }
  }

  // ----- decimal ------------------------------------------------------------

  function DigitChar(n: nat): char
    requires n < 10
  {
    '0' + n as char
  }

  predicate IsDigit(c: char) { '0' <= c <= '9' }

  function DigitValue(c: char): (n: nat)
    requires IsDigit(c)
  {
    c as int - '0' as int
  }

  function Pow10(w: nat): (p: nat)
    ensures p >= 1
  {
    if w == 0 then 1 else 10 * Pow10(w - 1)
  }

  /** The last `w` decimal digits of `n`, zero padded. */
  function Digits(n: nat, w: nat): (s: string)
    ensures |s| == w && forall i :: 0 <= i < w ==> IsDigit(s[i])
  {
    if w == 0 then "" else Digits(n / 10, w - 1) + [DigitChar(n % 10)]
  }

  /** The shortest decimal form, as Go prints `%d` for a non-negative number. */
  function Decimal(n: nat): (s: string)
    ensures |s| >= 1 && forall i :: 0 <= i < |s| ==> IsDigit(s[i])
  {
    if n < 10 then [DigitChar(n)] else Decimal(n / 10) + [DigitChar(n % 10)]
  }

  predicate AllDigits(s: string) {
    forall i :: 0 <= i < |s| ==> IsDigit(s[i])
  }

  function Value(s: string): nat
    requires AllDigits(s)
  {
    if s == "" then 0 else 10 * Value(s[..|s| - 1]) + DigitValue(s[|s| - 1])
  }

  lemma {:induction false} DigitsValue(n: nat, w: nat)
    requires n < Pow10(w)
    ensures Value(Digits(n, w)) == n
  {
    if w > 0 {
      DigitsValue(n / 10, w - 1);
      assert Digits(n, w)[..w - 1] == Digits(n / 10, w - 1);
    }
  }

  lemma {:induction false} ValueDigits(s: string)
    requires AllDigits(s)
    ensures Value(s) < Pow10(|s|) && Digits(Value(s), |s|) == s
  {
    if s != "" {
      var init := s[..|s| - 1];
      ValueDigits(init);
      assert Value(s) / 10 == Value(init) && Value(s) % 10 == DigitValue(s[|s| - 1]);
      assert s == init + [s[|s| - 1]];
    }
  }

  lemma {:induction false} DecimalValue(n: nat)
    ensures Value(Decimal(n)) == n
  {
    if n < 10 {
      assert Decimal(n)[..0] == "";
    } else {
      DecimalValue(n / 10);
      assert Decimal(n)[..|Decimal(n)| - 1] == Decimal(n / 10);
    }
  }

  lemma {:induction false} DecimalLong(n: nat, w: nat)
    requires n >= Pow10(w)
    ensures |Decimal(n)| > w
  {
    if w > 0 { DecimalLong(n / 10, w - 1); }
  }

  /** Zero-padded decimals of one width sort as text exactly as numbers do. */
  lemma {:induction false} DigitsOrder(n: nat, m: nat, w: nat)
    requires n < Pow10(w) && m < Pow10(w)
    ensures LexLt(Digits(n, w), Digits(m, w)) <==> n < m
    ensures Digits(n, w) == Digits(m, w) <==> n == m
  {
    DigitsValue(n, w);
    DigitsValue(m, w);
    if w > 0 {
      DigitsOrder(n / 10, m / 10, w - 1);
      LexConcat(Digits(n / 10, w - 1), Digits(m / 10, w - 1), [DigitChar(n % 10)], [DigitChar(m % 10)]);
    }
  }

  // ----- splitting ----------------------------------------------------------

  /** The pieces of `s` between separators: always at least one. */
  function Split(s: string, sep: char): (parts: seq<string>)
    ensures |parts| >= 1
    ensures forall i :: 0 <= i < |parts| ==> sep !in parts[i]
  {
    if s == "" then [""]
    else
      var rest := Split(s[1..], sep);
      if s[0] == sep then [""] + rest else [[s[0]] + rest[0]] + rest[1..]
  }

  function Join(parts: seq<string>, sep: string): string
  {
    if |parts| == 0 then "" else if |parts| == 1 then parts[0]
    else parts[0] + sep + Join(parts[1..], sep)
  }

  lemma {:induction false} SplitNone(s: string, sep: char)
    requires sep !in s
    ensures Split(s, sep) == [s]
  {
    if s != "" {
      SplitNone(s[1..], sep);
      assert [s[0]] + s[1..] == s;
    }
  }

  lemma {:induction false} SplitHead(a: string, b: string, sep: char)
    requires sep !in a
    ensures Split(a + [sep] + b, sep) == [a] + Split(b, sep)
  {
    if a == "" {
      assert a + [sep] + b == [sep] + b;
    } else {
      SplitHead(a[1..], b, sep);
      assert (a + [sep] + b)[1..] == a[1..] + [sep] + b;
      assert [a[0]] + a[1..] == a;
    }
  }

  lemma {:induction false} SplitJoin(parts: seq<string>, sep: char)
    requires |parts| >= 1 && forall i :: 0 <= i < |parts| ==> sep !in parts[i]
    ensures Split(Join(parts, [sep]), sep) == parts
  {
    if |parts| == 1 {
      SplitNone(parts[0], sep);
    } else {
      SplitJoin(parts[1..], sep);
      SplitHead(parts[0], Join(parts[1..], [sep]), sep);
      assert parts == [parts[0]] + parts[1..];
    }
  }

  // ----- mapping ------------------------------------------------------------

  /** strings.Map and the like: every character on its own. */
  function MapChars(f: char -> char, s: string): (t: string)
    ensures |t| == |s| && forall i :: 0 <= i < |s| ==> t[i] == f(s[i])
  {
    seq(|s|, i requires 0 <= i < |s| => f(s[i]))
  }

  // ----- searching ----------------------------------------------------------

  /** The index of the first `c`, or the length when there is none. */
  function IndexOf(s: string, c: char): (n: nat)
    ensures n <= |s| && c !in s[..n] && (n < |s| ==> s[n] == c)
  {
    if s == "" || s[0] == c then 0
    else
      var n := IndexOf(s[1..], c);
      assert s[..n + 1] == [s[0]] + s[1..][..n];
      n + 1
  }

  lemma {:induction false} IndexOfFinds(a: string, c: char, b: string)
    requires c !in a
    ensures IndexOf(a + [c] + b, c) == |a|
  {
    var s := a + [c] + b;
    if a != "" {
      IndexOfFinds(a[1..], c, b);
      assert s[1..] == a[1..] + [c] + b;
    }
  }
}
