/**
 * The string operations the application relies on: `blank?`, `strip`, `squish`,
 * `downcase`, the decimal pattern of the amount converter, `to_i`, and Ruby's
 * ordering of strings.
 */
module Text {
  import opened Wrappers

  /** Whitespace as `[[:space:]]` sees it among ASCII characters. */
  predicate IsSpace(c: char) {
    c == ' ' || c == '\t' || c == '\n' || c == '\r' || c == '\U{B}' || c == '\U{C}'
  }

  /** `blank?` on a string: empty or made of whitespace only. */
  predicate Blank(s: string) {
    forall i :: 0 <= i < |s| ==> IsSpace(s[i])
  }

  /** No whitespace at either end. */
  predicate Trimmed(s: string) {
    s == [] || (!IsSpace(s[0]) && !IsSpace(s[|s| - 1]))
  }

  /** Every whitespace character is a single plain space followed by a non-space. */
  predicate SingleSpaced(s: string) {
    forall i :: 0 <= i < |s| && IsSpace(s[i]) ==> s[i] == ' ' && (i + 1 < |s| ==> !IsSpace(s[i + 1]))
  }

  /** What `squish` produces: trimmed, and inner whitespace runs reduced to one space. */
  predicate Squished(s: string) {
    Trimmed(s) && SingleSpaced(s)
  }

  /** Drops the leading whitespace of `s`. */
  function TrimLeft(s: string): (r: string)
    ensures |r| <= |s| && r == s[|s| - |r|..]
    ensures r != [] ==> !IsSpace(r[0])
    ensures forall i :: 0 <= i < |s| - |r| ==> IsSpace(s[i])
  {
    if s != [] && IsSpace(s[0]) then TrimLeft(s[1..]) else s
  }

  /** Drops the trailing whitespace of `s`. */
  function TrimRight(s: string): (r: string)
    ensures |r| <= |s| && r == s[..|r|]
    ensures r != [] ==> !IsSpace(r[|r| - 1])
    ensures forall i :: |r| <= i < |s| ==> IsSpace(s[i])
  {
    if s != [] && IsSpace(s[|s| - 1]) then TrimRight(s[..|s| - 1]) else s
  }

  /** The number of whitespace characters at the front of `s`. */
  function LeadingSpaces(s: string): (n: nat)
    ensures n <= |s|
  {
    |s| - |TrimLeft(s)|
  }

  /**
   * `strip`: the slice of `s` left after cutting whitespace off both ends; what
   * is cut off is whitespace, and only a blank string strips to the empty string.
   */
  function Strip(s: string): (r: string)
    ensures Trimmed(r)
    ensures r == [] <==> Blank(s)
  {
    StripEmpty(s);
    TrimRight(TrimLeft(s))
  }

  /**
   * What `strip` keeps is the slice of `s` between the cut-off ends, and what it
   * cuts off at either end is whitespace.
   */
  lemma StripIsSlice(s: string)
    ensures LeadingSpaces(s) + |Strip(s)| <= |s|
    ensures Strip(s) == s[LeadingSpaces(s)..LeadingSpaces(s) + |Strip(s)|]
    ensures forall j :: 0 <= j < LeadingSpaces(s) ==> IsSpace(s[j])
    ensures forall j :: LeadingSpaces(s) + |Strip(s)| <= j < |s| ==> IsSpace(s[j])
  {
    StripSlice(s);
    StripTail(s);
  }

  lemma StripSlice(s: string)
    ensures LeadingSpaces(s) + |Strip(s)| <= |s| && Strip(s) == s[LeadingSpaces(s)..LeadingSpaces(s) + |Strip(s)|]
  {
    var l := TrimLeft(s);
    var r := TrimRight(l);
    assert Strip(s) == r;
    assert r == s[|s| - |l|..][..|r|];
  }

  lemma StripTail(s: string)
    ensures forall j :: LeadingSpaces(s) + |Strip(s)| <= j < |s| ==> IsSpace(s[j])
  {
    var l := TrimLeft(s);
    var r := TrimRight(l);
    assert Strip(s) == r;
    var k := |s| - |l|;
    forall j | k + |r| <= j < |s|
      ensures IsSpace(s[j])
    {
      assert s[j] == l[j - k];
    }
  }

  lemma StripEmpty(s: string)
    ensures var l := TrimLeft(s); var r := TrimRight(l);
            r == [] <==> Blank(s)
  {
    var l := TrimLeft(s);
    var r := TrimRight(l);
    var k := |s| - |l|;
    if r == [] {
      assert l == [];
      assert k == |s|;
    }
  }

  /** Drops the whitespace at the front of `s`. */
  function DropSpaces(s: string): (r: string)
    ensures |r| <= |s| && r == s[|s| - |r|..]
    ensures r != [] ==> !IsSpace(r[0])
  {
    TrimLeft(s)
  }

  /** Replaces every run of whitespace by a single space. */
  function Collapse(s: string): string
    decreases |s|
  {
    if s == [] then []
    else if IsSpace(s[0]) then [' '] + Collapse(DropSpaces(s[1..]))
    else [s[0]] + Collapse(s[1..])
  }

  /**
   * `squish`: strip, then collapse inner whitespace runs to one space.
   * E.g. "  Whole   Foods " squishes to "Whole Foods".
   */
  function Squish(s: string): string {
    Collapse(Strip(s))
  }

  lemma CollapseEnds(s: string)
    ensures |Collapse(s)| == 0 <==> s == []
    ensures s != [] ==> IsSpace(Collapse(s)[0]) == IsSpace(s[0])
  {
  }

  /** The last character of a non-empty string. */
  function Last(s: string): char
    requires s != []
  {
    s[|s| - 1]
  }

  lemma {:induction false} CollapseLast(s: string)
    requires s != []
    ensures Collapse(s) != []
    ensures IsSpace(Last(Collapse(s))) <==> IsSpace(Last(s))
    decreases |s|
  {
    if IsSpace(s[0]) {
      var rest := DropSpaces(s[1..]);
      CollapseSpaceStep(s);
      if rest != [] {
        CollapseLast(rest);
        LastOfAppend([' '], Collapse(rest));
      }
    } else {
      CollapseKeepStep(s);
      if |s| > 1 {
        CollapseLast(s[1..]);
        LastOfAppend([s[0]], Collapse(s[1..]));
      }
    }
  }

  lemma LastOfAppend(a: string, b: string)
    requires b != []
    ensures Last(a + b) == Last(b)
  {
  }

  /** A leading whitespace run collapses to one space; what follows it ends as `s` does. */
  lemma CollapseSpaceStep(s: string)
    requires s != [] && IsSpace(s[0])
    ensures var rest := DropSpaces(s[1..]);
            && Collapse(s) == [' '] + Collapse(rest)
            && (rest == [] ==> Collapse(s) == [' '] && IsSpace(Last(s)))
            && (rest != [] ==> Last(s) == Last(rest))
  {
    var rest := DropSpaces(s[1..]);
    if rest == [] && |s| > 1 {
      assert IsSpace(s[1..][|s| - 2]);
    }
  }

  lemma CollapseKeepStep(s: string)
    requires s != [] && !IsSpace(s[0])
    ensures Collapse(s) == [s[0]] + Collapse(s[1..])
    ensures |s| == 1 ==> Collapse(s) == [s[0]]
    ensures |s| > 1 ==> Last(s) == Last(s[1..])
  {
  }

  lemma {:induction false} CollapseSingleSpaced(s: string)
    ensures SingleSpaced(Collapse(s))
    decreases |s|
  {
    if s == [] {
    } else if IsSpace(s[0]) {
      var rest := DropSpaces(s[1..]);
      CollapseSingleSpaced(rest);
      CollapseEnds(rest);
      var c := Collapse(s);
      assert c == [' '] + Collapse(rest);
      forall i | 0 <= i < |c| && IsSpace(c[i])
        ensures c[i] == ' ' && (i + 1 < |c| ==> !IsSpace(c[i + 1]))
      {
        if i > 0 {
          assert c[i] == Collapse(rest)[i - 1];
        }
      }
    } else {
      CollapseSingleSpaced(s[1..]);
      var c := Collapse(s);
      assert c == [s[0]] + Collapse(s[1..]);
      forall i | 0 <= i < |c| && IsSpace(c[i])
        ensures c[i] == ' ' && (i + 1 < |c| ==> !IsSpace(c[i + 1]))
      {
        assert i > 0;
        assert c[i] == Collapse(s[1..])[i - 1];
      }
    }
  }

  /** Whatever goes in, `squish` returns a squished string, empty exactly for blank input. */
  lemma SquishIsSquished(s: string)
    ensures Squished(Squish(s))
    ensures Squish(s) == [] <==> Blank(s)
  {
    var r := Strip(s);
    CollapseEnds(r);
    if r != [] {
      CollapseLast(r);
    }
    CollapseSingleSpaced(r);
  }

  lemma {:induction false} CollapseKeepsSingleSpaced(s: string)
    requires SingleSpaced(s)
    ensures Collapse(s) == s
    decreases |s|
  {
    if s == [] {
    } else if IsSpace(s[0]) {
      assert DropSpaces(s[1..]) == s[1..];
      assert SingleSpaced(s[1..]) by {
        forall i | 0 <= i < |s[1..]| && IsSpace(s[1..][i])
          ensures s[1..][i] == ' ' && (i + 1 < |s[1..]| ==> !IsSpace(s[1..][i + 1]))
        {
          assert s[i + 1] == s[1..][i];
        }
      }
      CollapseKeepsSingleSpaced(s[1..]);
    } else {
      assert SingleSpaced(s[1..]) by {
        forall i | 0 <= i < |s[1..]| && IsSpace(s[1..][i])
          ensures s[1..][i] == ' ' && (i + 1 < |s[1..]| ==> !IsSpace(s[1..][i + 1]))
        {
          assert s[i + 1] == s[1..][i];
        }
      }
      CollapseKeepsSingleSpaced(s[1..]);
    }
  }

  /** A squished string is left as it is by `squish`: squishing is idempotent. */
  lemma SquishFixesSquished(s: string)
    requires Squished(s)
    ensures Squish(s) == s
  {
    assert TrimLeft(s) == s;
    assert TrimRight(s) == s;
    CollapseKeepsSingleSpaced(s);
  }

  lemma SquishIdempotent(s: string)
    ensures Squish(Squish(s)) == Squish(s)
  {
    SquishIsSquished(s);
    SquishFixesSquished(Squish(s));
  }

  /** ASCII `downcase` of one character. */
  function DowncaseChar(c: char): (r: char)
    ensures IsSpace(r) <==> IsSpace(c)
    ensures !('A' <= r <= 'Z')
  {
    if 'A' <= c <= 'Z' then (c as int + 32) as char else c
  }

  /** `downcase`, for the ASCII letters. */
  function Downcase(s: string): (r: string)
    ensures |r| == |s|
    ensures forall i :: 0 <= i < |s| ==> r[i] == DowncaseChar(s[i])
  {
    seq(|s|, i requires 0 <= i < |s| => DowncaseChar(s[i]))
  }

  /** No upper-case ASCII letter occurs in `s`. */
  predicate LowerCase(s: string) {
    forall i :: 0 <= i < |s| ==> !('A' <= s[i] <= 'Z')
  }

  lemma {:induction false} TrimLeftKeepsLower(s: string)
    requires LowerCase(s)
    ensures LowerCase(TrimLeft(s))
  {
  }

  lemma {:induction false} CollapseKeepsLower(s: string)
    requires LowerCase(s)
    ensures LowerCase(Collapse(s))
    decreases |s|
  {
    if s == [] {
    } else if IsSpace(s[0]) {
      CollapseKeepsLower(DropSpaces(s[1..]));
    } else {
      CollapseKeepsLower(s[1..]);
    }
  }

  lemma SquishKeepsLower(s: string)
    requires LowerCase(s)
    ensures LowerCase(Squish(s))
  {
    StripSlice(s);
    CollapseKeepsLower(Strip(s));
  }

  predicate IsDigit(c: char) {
    '0' <= c <= '9'
  }

  predicate AllDigits(s: string) {
    forall i :: 0 <= i < |s| ==> IsDigit(s[i])
  }

  function DigitValue(c: char): nat
    requires IsDigit(c)
  {
    c as int - '0' as int
  }

  /** The number a string of decimal digits denotes. */
  function DigitsValue(s: string): nat
    requires AllDigits(s)
  {
    if s == [] then 0 else DigitsValue(s[..|s| - 1]) * 10 + DigitValue(s[|s| - 1])
  }

  /**
   * The value in cents of `s` when the whole of it matches /-?\d+(\.\d+)?/,
   * else `None`; digits past the second decimal place are dropped.
   */
  function DecimalCents(s: string): (r: Option<int>)
    ensures r.Some? ==> s != [] && !IsSpace(s[0])
    ensures r.Some? && s[0] != '-' ==> r.value >= 0
    ensures r.Some? && s[0] == '-' ==> r.value <= 0
  {
    if |s| > 0 && s[0] == '-' then
      match WholeCents(s[1..], 0, false)
      case None => None
      case Some(m) => Some(-m)
    else WholeCents(s, 0, false)
  }

  /**
   * Reads the digits before the point: `acc` is their value so far and `seen`
   * whether there was one; a point must follow a digit.
   */
  function WholeCents(u: string, acc: nat, seen: bool): (r: Option<int>)
    ensures r.Some? ==> r.value >= 0 && (u != [] || seen) && (u != [] && !seen ==> IsDigit(u[0]))
    decreases |u|
  {
    if u == [] then (if seen then Some(acc * 100) else None)
    else if IsDigit(u[0]) then WholeCents(u[1..], acc * 10 + DigitValue(u[0]), true)
    else if u[0] == '.' && seen then FracCents(u[1..], acc * 100, 0)
    else None
  }

  /**
   * Reads the digits after the point, at least one: the first adds tenths, the
   * second hundredths, the rest nothing. `read` counts the digits so far.
   */
  function FracCents(f: string, cents: nat, read: nat): (r: Option<int>)
    ensures r.Some? ==> r.value >= cents && (f != [] || read > 0)
    decreases |f|
  {
    if f == [] then (if read > 0 then Some(cents) else None)
    else if IsDigit(f[0]) then
      FracCents(f[1..], cents + (if read == 0 then 10 * DigitValue(f[0]) else if read == 1 then DigitValue(f[0]) else 0), read + 1)
    else None
  }

  /**
   * The digits `to_i` reads at the front of `s`: a run of digits in which a
   * single underscore between two digits is skipped; anything else ends it.
   */
  function LeadingDigits(s: string): (d: string)
    ensures AllDigits(d) && |d| <= |s|
    ensures d == [] <==> s == [] || !IsDigit(s[0])
    decreases |s|
  {
    if s == [] || !IsDigit(s[0]) then []
    else if |s| >= 3 && s[1] == '_' && IsDigit(s[2]) then [s[0]] + LeadingDigits(s[2..])
    else [s[0]] + LeadingDigits(s[1..])
  }

  /** An underscore between two digits is skipped: "1_2" reads as "12". */
  lemma UnderscoreSkipped(a: char, rest: string)
    requires IsDigit(a) && rest != [] && IsDigit(rest[0])
    ensures LeadingDigits([a, '_'] + rest) == [a] + LeadingDigits(rest)
  {
    assert ([a, '_'] + rest)[2..] == rest;
  }

  /** Two underscores, or one not followed by a digit, end the number: "1__2" and "1_" read as "1". */
  lemma UnderscoreEnds(a: char, rest: string)
    requires IsDigit(a) && (rest == [] || !IsDigit(rest[0]))
    ensures LeadingDigits([a, '_'] + rest) == [a]
  {
    assert ([a, '_'] + rest)[1..] == ['_'] + rest;
  }

  /**
   * `to_i` on a string: leading whitespace is skipped, an optional sign is read,
   * then the leading digits, single underscores between digits skipped; without
   * digits the result is 0.
   */
  function ToI(s: string): (r: int)
    ensures LeadingDigits(Unsign(TrimLeft(s))) == [] ==> r == 0
  {
    var t := TrimLeft(s);
    var u := Unsign(t);
    var n: int := DigitsValue(LeadingDigits(u));
    if |t| > 0 && t[0] == '-' then -n else n
  }

  /** `s` without a leading sign character. */
  function Unsign(s: string): string {
    if |s| > 0 && (s[0] == '-' || s[0] == '+') then s[1..] else s
  }

  // ---------------------------------------------------------------------------
  // Written numbers, the inverse of the readers above

  function DigitChar(d: nat): (c: char)
    requires d < 10
    ensures IsDigit(c) && DigitValue(c) == d
  {
    ('0' as int + d) as char
  }

  /** The decimal digits of `n`, without leading zeros ("0" for zero). */
  function Digits(n: nat): (s: string)
    ensures s != [] && AllDigits(s)
  {
    if n < 10 then [DigitChar(n)] else Digits(n / 10) + [DigitChar(n % 10)]
  }

  /** The digits of `n` denote `n`. */
  lemma {:induction false} DigitsDenote(n: nat)
    ensures DigitsValue(Digits(n)) == n
  {
    if n >= 10 {
      var s := Digits(n);
      assert s[..|s| - 1] == Digits(n / 10);
      DigitsDenote(n / 10);
    }
  }

  /** `to_s` of an integer: an optional minus sign and the digits of its magnitude. */
  function IntText(n: int): (s: string)
    ensures s != [] && !IsSpace(s[0])
  {
    if n < 0 then "-" + Digits(-n) else Digits(n)
  }

  /** A string of digits is read whole. */
  lemma {:induction false} LeadingDigitsAll(s: string)
    requires AllDigits(s)
    ensures LeadingDigits(s) == s
    decreases |s|
  {
    if s != [] {
      LeadingDigitsAll(s[1..]);
    }
  }

  /** `to_i` reads back every integer `to_s` writes. */
  lemma ToIRoundTrip(n: int)
    ensures ToI(IntText(n)) == n
  {
    var m := if n < 0 then -n else n;
    var t := IntText(n);
    assert TrimLeft(t) == t;
    assert Unsign(t) == Digits(m);
    LeadingDigitsAll(Digits(m));
    DigitsDenote(m);
  }

  /** The plain decimal text of an amount of cents: sign, whole part, point, two decimals. */
  function CentsText(c: int): (s: string)
  {
    var m := if c < 0 then -c else c;
    (if c < 0 then "-" else "") + Digits(m / 100) + ['.', DigitChar(m % 100 / 10), DigitChar(m % 100 % 10)]
  }

  /** Reading digits from the left, starting from `acc`. */
  function LeftValue(d: string, acc: nat): nat
    requires AllDigits(d)
    decreases |d|
  {
    if d == [] then acc else LeftValue(d[1..], acc * 10 + DigitValue(d[0]))
  }

  lemma {:induction false} LeftValueSnoc(d: string, c: char, acc: nat)
    requires AllDigits(d) && IsDigit(c)
    ensures LeftValue(d + [c], acc) == LeftValue(d, acc) * 10 + DigitValue(c)
    decreases |d|
  {
    if d != [] {
      assert (d + [c])[1..] == d[1..] + [c];
      LeftValueSnoc(d[1..], c, acc * 10 + DigitValue(d[0]));
    }
  }

  /** Reading from the left and from the right agree. */
  lemma {:induction false} LeftValueIsValue(d: string)
    requires AllDigits(d)
    ensures LeftValue(d, 0) == DigitsValue(d)
    decreases |d|
  {
    if d != [] {
      var p := d[..|d| - 1];
      assert d == p + [d[|d| - 1]];
      LeftValueSnoc(p, d[|d| - 1], 0);
      LeftValueIsValue(p);
    }
  }

  /** The whole part of a number is read digit by digit until the point. */
  lemma {:induction false} WholeDigits(d: string, rest: string, acc: nat, seen: bool)
    requires AllDigits(d) && d != []
    ensures WholeCents(d + rest, acc, seen) == WholeCents(rest, LeftValue(d, acc), true)
    decreases |d|
  {
    assert (d + rest)[0] == d[0] && (d + rest)[1..] == d[1..] + rest;
    if |d| > 1 {
      WholeDigits(d[1..], rest, acc * 10 + DigitValue(d[0]), true);
    }
  }

  /** Two decimals after the point add tenths and hundredths. */
  lemma TwoDecimals(a: nat, b: nat, x: nat)
    requires a < 10 && b < 10
    ensures WholeCents(['.', DigitChar(a), DigitChar(b)], x, true) == Some(x * 100 + 10 * a + b)
  {
    var frac := ['.', DigitChar(a), DigitChar(b)];
    var two := [DigitChar(a), DigitChar(b)];
    var one := [DigitChar(b)];
    assert frac[1..] == two && two[1..] == one && one[1..] == [];
    assert !IsDigit(frac[0]);
    assert WholeCents(frac, x, true) == FracCents(two, x * 100, 0);
    assert FracCents(two, x * 100, 0) == FracCents(one, x * 100 + 10 * a, 1);
    assert FracCents(one, x * 100 + 10 * a, 1) == FracCents([], x * 100 + 10 * a + b, 2);
  }

  lemma CentsSplit(m: nat)
    ensures (m / 100) * 100 + 10 * (m % 100 / 10) + m % 100 % 10 == m
  {
    var r := m % 100;
    assert m == (m / 100) * 100 + r;
    assert r == (r / 10) * 10 + r % 10;
  }

  /** The amount converter's pattern reads back every amount of cents written as plain decimal text. */
  lemma DecimalCentsRoundTrip(c: int)
    ensures DecimalCents(CentsText(c)) == Some(c)
  {
    var m := if c < 0 then -c else c;
    var w := Digits(m / 100);
    var frac := ['.', DigitChar(m % 100 / 10), DigitChar(m % 100 % 10)];
    var u := w + frac;
    WholeDigits(w, frac, 0, false);
    LeftValueIsValue(w);
    DigitsDenote(m / 100);
    TwoDecimals(m % 100 / 10, m % 100 % 10, m / 100);
    CentsSplit(m);
    assert WholeCents(u, 0, false) == Some(m);
    if c < 0 {
      assert CentsText(c) == "-" + u && CentsText(c)[1..] == u;
    } else {
      assert CentsText(c) == u;
      assert u[0] == w[0] && IsDigit(u[0]);
    }
  }


  /** Ruby's `<` on strings: lexicographic by character code, a prefix first. */
  predicate StrLess(a: string, b: string) {
    if a == [] then b != []
    else if b == [] then false
    else if a[0] == b[0] then StrLess(a[1..], b[1..])
    else a[0] < b[0]
  }

  predicate StrLeq(a: string, b: string) {
    a == b || StrLess(a, b)
  }

  lemma {:induction false} StrLessIrreflexive(a: string)
    ensures !StrLess(a, a)
  {
    if a != [] {
      StrLessIrreflexive(a[1..]);
    }
  }

  lemma {:induction false} StrLessTransitive(a: string, b: string, c: string)
    requires StrLess(a, b) && StrLess(b, c)
    ensures StrLess(a, c)
  {
    if a != [] && b != [] && c != [] && a[0] == b[0] && b[0] == c[0] {
      StrLessTransitive(a[1..], b[1..], c[1..]);
    }
  }

  lemma {:induction false} StrLessTotal(a: string, b: string)
    ensures a == b || StrLess(a, b) || StrLess(b, a)
  {
    if a != [] && b != [] && a[0] == b[0] {
      StrLessTotal(a[1..], b[1..]);
      if a[1..] == b[1..] {
        assert a == [a[0]] + a[1..] && b == [b[0]] + b[1..];
      }
    }
  }

  lemma StrLessAsymmetric(a: string, b: string)
    requires StrLess(a, b)
    ensures !StrLess(b, a)
  {
    if StrLess(b, a) {
      StrLessTransitive(a, b, a);
      StrLessIrreflexive(a);
    }
  }

  /** `s` begins with `prefix`. */
  predicate StartsWith(s: string, prefix: string) {
    |prefix| <= |s| && s[..|prefix|] == prefix
  }

  /** `s.include?(sub)`: `sub` occurs somewhere in `s`. */
  predicate Contains(s: string, sub: string)
    decreases |s|
  {
    StartsWith(s, sub) || (s != [] && Contains(s[1..], sub))
  }

  /** An occurrence at a position found by hand witnesses `Contains`. */
  lemma {:induction false} ContainsAt(s: string, sub: string, i: nat)
    requires i + |sub| <= |s| && s[i..i + |sub|] == sub
    ensures Contains(s, sub)
    decreases i
  {
    if i > 0 {
      assert s[1..][i - 1..i - 1 + |sub|] == sub;
      ContainsAt(s[1..], sub, i - 1);
    }
  }
}
