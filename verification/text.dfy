/** Character-level helpers the tool relies on implicitly through Python:
    decimal digit strings (`int(s)` and the `{n:0Wd}` format), the ordering of
    `str` values, `str.split` / `"-".join`, `str.endswith` and the `\w` class. */
module Text {
  import opened Results

  predicate IsDigit(c: char) {
    '0' <= c <= '9'
  }

  predicate AllDigits(s: string) {
    forall i :: 0 <= i < |s| ==> IsDigit(s[i])
  }

  function DigitChar(n: nat): (c: char)
    requires n < 10
    ensures IsDigit(c)
  {
    (48 + n) as char
  }

  function DigitValue(c: char): (n: nat)
    requires IsDigit(c)
    ensures n < 10 && DigitChar(n) == c
  {
    c as int - 48
  }

  /** The number a string of decimal digits denotes (leading zeros allowed). */
  function Value(s: string): nat
    requires AllDigits(s)
    decreases |s|
  {
    if |s| == 0 then 0 else Value(s[..|s| - 1]) * 10 + DigitValue(s[|s| - 1])
  }

  /** Python's `int(s)` restricted to plain decimal text: it fails on the
      empty string and on any character that is not a digit. */
  function ParseNat(s: string): (r: Option<nat>)
    ensures r.Some? <==> |s| > 0 && AllDigits(s)
    ensures r.Some? ==> r.value == Value(s)
  {
    if |s| > 0 && AllDigits(s) then Some(Value(s)) else None
  }

  function Pow10(w: nat): (p: nat)
    ensures p >= 1
  {
    if w == 0 then 1 else 10 * Pow10(w - 1)
  }

  /** `f"{n:0{w}d}"` for a number that fits in `w` digits: exactly `w`
      characters, zero-padded on the left. */
  function Fixed(n: nat, w: nat): (s: string)
    ensures |s| == w && AllDigits(s)
  {
    if w == 0 then [] else Fixed(n / 10, w - 1) + [DigitChar(n % 10)]
  }

  /** Reading back a zero-padded number gives the number. */
  lemma {:induction false} FixedRoundTrip(n: nat, w: nat)
    requires n < Pow10(w)
    ensures Value(Fixed(n, w)) == n
  {
    if w > 0 {
      var s := Fixed(n, w);
      assert s[..|s| - 1] == Fixed(n / 10, w - 1);
      assert n / 10 < Pow10(w - 1);
      FixedRoundTrip(n / 10, w - 1);
    }
  }

  lemma FixedInjective(n: nat, m: nat, w: nat)
    requires n < Pow10(w) && m < Pow10(w)
    requires Fixed(n, w) == Fixed(m, w)
    ensures n == m
  {
    FixedRoundTrip(n, w);
    FixedRoundTrip(m, w);
  }

  /** Python's `a < b` on strings: lexicographic by code point, a proper
      prefix being smaller. */
  predicate StrLess(a: string, b: string)
    decreases |a|
  {
    if |a| == 0 then |b| > 0
    else if |b| == 0 then false
    else a[0] < b[0] || (a[0] == b[0] && StrLess(a[1..], b[1..]))
  }

  lemma {:induction false} StrLessIrreflexive(a: string)
    ensures !StrLess(a, a)
    decreases |a|
  {
    if |a| > 0 {
      StrLessIrreflexive(a[1..]);
    }
  }

  lemma {:induction false} StrLessTransitive(a: string, b: string, c: string)
    requires StrLess(a, b) && StrLess(b, c)
    ensures StrLess(a, c)
    decreases |a|
  {
    if |a| > 0 && a[0] == b[0] && b[0] == c[0] {
      StrLessTransitive(a[1..], b[1..], c[1..]);
    }
  }

  lemma {:induction false} StrLessTotal(a: string, b: string)
    requires a != b
    ensures StrLess(a, b) || StrLess(b, a)
    decreases |a|
  {
    if |a| > 0 && |b| > 0 && a[0] == b[0] {
      assert a == [a[0]] + a[1..] && b == [b[0]] + b[1..];
      StrLessTotal(a[1..], b[1..]);
    }
  }

  lemma {:induction false} StrLessAsymmetric(a: string, b: string)
    ensures !(StrLess(a, b) && StrLess(b, a))
    decreases |a|
  {
    if |a| > 0 && |b| > 0 && a[0] == b[0] {
      StrLessAsymmetric(a[1..], b[1..]);
    }
  }

  /** Appending one character to two strings of equal length. */
  lemma {:induction false} StrLessSnoc(a: string, b: string, c: char, d: char)
    requires |a| == |b|
    ensures StrLess(a + [c], b + [d]) <==> StrLess(a, b) || (a == b && c < d)
    decreases |a|
  {
    if |a| > 0 {
      assert (a + [c])[1..] == a[1..] + [c];
      assert (b + [d])[1..] == b[1..] + [d];
      StrLessSnoc(a[1..], b[1..], c, d);
      assert a == b <==> a[0] == b[0] && a[1..] == b[1..] by {
        if a[0] == b[0] && a[1..] == b[1..] {
          assert a == [a[0]] + a[1..] && b == [b[0]] + b[1..];
        }
      }
    }
  }

  /** On numbers of the same width, string order is numeric order. */
  lemma {:induction false} FixedOrder(n: nat, m: nat, w: nat)
    requires n < Pow10(w) && m < Pow10(w)
    ensures StrLess(Fixed(n, w), Fixed(m, w)) <==> n < m
  {
    if w == 0 {
    } else {
      assert n / 10 < Pow10(w - 1) && m / 10 < Pow10(w - 1);
      StrLessSnoc(Fixed(n / 10, w - 1), Fixed(m / 10, w - 1), DigitChar(n % 10), DigitChar(m % 10));
      FixedOrder(n / 10, m / 10, w - 1);
      if Fixed(n / 10, w - 1) == Fixed(m / 10, w - 1) {
        FixedInjective(n / 10, m / 10, w - 1);
      }
      assert Fixed(n / 10, w - 1) == Fixed(m / 10, w - 1) <==> n / 10 == m / 10;
      assert DigitChar(n % 10) < DigitChar(m % 10) <==> n % 10 < m % 10;
      assert n == 10 * (n / 10) + n % 10 && m == 10 * (m / 10) + m % 10;
      assert n < m <==> n / 10 < m / 10 || (n / 10 == m / 10 && n % 10 < m % 10);
    }
  }

  /** A common prefix does not change the order. */
  lemma {:induction false} StrLessCommonPrefix(x: string, s: string, t: string)
    ensures StrLess(x + s, x + t) <==> StrLess(s, t)
    decreases |x|
  {
    if |x| > 0 {
      assert (x + s)[1..] == x[1..] + s && (x + t)[1..] == x[1..] + t;
      StrLessCommonPrefix(x[1..], s, t);
    } else {
      assert x + s == s && x + t == t;
    }
  }

  /** Two different prefixes of equal length decide the order alone. */
  lemma {:induction false} StrLessDifferentPrefix(x: string, y: string, s: string, t: string)
    requires |x| == |y| && x != y
    ensures StrLess(x + s, y + t) <==> StrLess(x, y)
    decreases |x|
  {
    assert |x| > 0;
    assert (x + s)[1..] == x[1..] + s && (y + t)[1..] == y[1..] + t;
    if x[0] == y[0] {
      assert x == [x[0]] + x[1..] && y == [y[0]] + y[1..];
      StrLessDifferentPrefix(x[1..], y[1..], s, t);
    }
  }

  /** `sep.join(parts)`. */
  function Join(parts: seq<string>, sep: char): string
    decreases |parts|
  {
    if |parts| == 0 then []
    else if |parts| == 1 then parts[0]
    else parts[0] + [sep] + Join(parts[1..], sep)
  }

  function IndexOf(s: string, c: char): (i: nat)
    requires c in s
    ensures i < |s| && s[i] == c && c !in s[..i]
  {
    if s[0] == c then 0 else 1 + IndexOf(s[1..], c)
  }

  /** The first separator is the one right after a separator-free prefix. */
  lemma {:induction false} IndexOfAfter(a: string, c: char, b: string)
    requires c !in a
    ensures c in a + [c] + b && IndexOf(a + [c] + b, c) == |a|
    decreases |a|
  {
    var s := a + [c] + b;
    assert s[|a|] == c;
    if |a| > 0 {
      assert s[1..] == a[1..] + [c] + b;
      IndexOfAfter(a[1..], c, b);
    }
  }

  /** `s.split(sep)`: the pieces between separators, empty pieces kept. */
  function Split(s: string, sep: char): (parts: seq<string>)
    ensures |parts| >= 1
    ensures forall i :: 0 <= i < |parts| ==> sep !in parts[i]
    ensures Join(parts, sep) == s
    decreases |s|
  {
    if sep !in s then [s]
    else
      var i := IndexOf(s, sep);
      var rest := Split(s[i + 1..], sep);
      assert s == s[..i] + [sep] + s[i + 1..];
      [s[..i]] + rest
  }

  /** Splitting at a first separator that follows a separator-free piece. */
  lemma SplitCons(a: string, sep: char, b: string)
    requires sep !in a
    ensures Split(a + [sep] + b, sep) == [a] + Split(b, sep)
  {
    var s := a + [sep] + b;
    IndexOfAfter(a, sep, b);
    assert s[..|a|] == a;
    assert s[|a| + 1..] == b;
  }

  /** Splitting what was joined gives the pieces back, when no piece holds
      the separator. */
  lemma {:induction false} SplitJoin(parts: seq<string>, sep: char)
    requires |parts| >= 1
    requires forall i :: 0 <= i < |parts| ==> sep !in parts[i]
    ensures Split(Join(parts, sep), sep) == parts
    decreases |parts|
  {
    if |parts| == 1 {
      assert Join(parts, sep) == parts[0];
    } else {
      var rest := Join(parts[1..], sep);
      assert Join(parts, sep) == parts[0] + [sep] + rest;
      SplitCons(parts[0], sep, rest);
      SplitJoin(parts[1..], sep);
      assert parts == [parts[0]] + parts[1..];
    }
  }

  /** The joined text of three pieces. */
  lemma JoinThree(parts: seq<string>, sep: char)
    requires |parts| == 3
    ensures Join(parts, sep) == parts[0] + [sep] + parts[1] + [sep] + parts[2]
  {
    var tail := parts[1..];
    assert tail[0] == parts[1] && tail[1..] == [parts[2]];
    assert Join(tail, sep) == parts[1] + [sep] + parts[2];
    assert Join(parts, sep) == parts[0] + [sep] + Join(tail, sep);
  }

  /** Joining is injective on pieces free of the separator. */
  lemma JoinInjective(p: seq<string>, q: seq<string>, sep: char)
    requires |p| >= 1 && |q| >= 1
    requires forall i :: 0 <= i < |p| ==> sep !in p[i]
    requires forall i :: 0 <= i < |q| ==> sep !in q[i]
    requires Join(p, sep) == Join(q, sep)
    ensures p == q
  {
    SplitJoin(p, sep);
    SplitJoin(q, sep);
  }

  lemma DigitsHaveNoDash(s: string)
    requires AllDigits(s)
    ensures '-' !in s
  {
    assert forall i :: 0 <= i < |s| ==> s[i] != '-' by {
      forall i | 0 <= i < |s| ensures s[i] != '-' {
        assert IsDigit(s[i]);
      }
    }
  }

  /** `s.endswith(suffix)`. */
  predicate EndsWith(s: string, suffix: string) {
    |suffix| <= |s| && s[|s| - |suffix|..] == suffix
  }

  /** One character of the regular-expression class `\w`, ASCII part. */
  predicate IsWordChar(c: char) {
    ('a' <= c <= 'z') || ('A' <= c <= 'Z') || IsDigit(c) || c == '_'
  }

  /** Text matched by `\w+`. */
  predicate IsWord(s: string) {
    |s| > 0 && forall i :: 0 <= i < |s| ==> IsWordChar(s[i])
  }
}
