/** Decimal text: `strconv.Itoa`, `%06d`-style padding, `strconv.Atoi`, and Go's byte order on strings. */
module Text {

  datatype Option<+T> = None | Some(value: T)

  const MAX_INT64: int := 0x7FFF_FFFF_FFFF_FFFF
  const MIN_INT64: int := -0x8000_0000_0000_0000

  /** Two's complement wrap-around of Go's 64-bit `int`. */
  function Wrap64(x: int): (r: int)
    ensures MIN_INT64 <= r <= MAX_INT64
    ensures MIN_INT64 <= x <= MAX_INT64 ==> r == x
  {
    (x - MIN_INT64) % 0x1_0000_0000_0000_0000 + MIN_INT64
  }

  predicate IsDigit(c: char) { '0' <= c <= '9' }

  predicate AllDigits(s: string) { forall i :: 0 <= i < |s| ==> IsDigit(s[i]) }

  function Digit(d: nat): (c: char)
    requires d < 10
    ensures IsDigit(c)
  {
    '0' + d as char
  }

  function DigitValue(c: char): nat
    requires IsDigit(c)
  {
    c as int - '0' as int
  }

  /** The number a string of decimal digits denotes. */
  function Value(s: string): nat
    requires AllDigits(s)
  {
    if s == [] then 0 else 10 * Value(s[..|s| - 1]) + DigitValue(s[|s| - 1])
  }

  /** `fmt.Sprintf("%0<w>d", n)`: the decimal digits of n, at least w of them. */
  function Pad(w: nat, n: nat): (s: string)
    ensures AllDigits(s) && |s| >= 1 && |s| >= w
    decreases n + w
  {
    if n < 10 && w <= 1 then [Digit(n)] else Pad(if w == 0 then 0 else w - 1, n / 10) + [Digit(n % 10)]
  }

  /** `strconv.Itoa` of a non-negative number. */
  function Itoa(n: nat): (s: string)
    ensures AllDigits(s) && |s| >= 1
  {
    Pad(1, n)
  }

  function Pow10(w: nat): nat { if w == 0 then 1 else 10 * Pow10(w - 1) }

  lemma {:induction false} PadValue(w: nat, n: nat)
    ensures Value(Pad(w, n)) == n
    decreases n + w
  {
    if n < 10 && w <= 1 {
      assert [Digit(n)][..0] == [];
    } else {
      var v := if w == 0 then 0 else w - 1;
      PadValue(v, n / 10);
      assert Pad(w, n)[..|Pad(w, n)| - 1] == Pad(v, n / 10);
    }
  }

  /** Padding adds no digit beyond the width exactly to the numbers that fit it. */
  lemma {:induction false} PadLength(w: nat, n: nat)
    requires w >= 1
    ensures |Pad(w, n)| == w <==> n < Pow10(w)
    decreases n + w
  {
    if n < 10 && w <= 1 {
    } else if w == 1 {
      assert |Pad(1, n)| == |Pad(0, n / 10)| + 1;
      assert Pow10(1) == 10 * Pow10(0) == 10;
    } else {
      PadLength(w - 1, n / 10);
    }
  }

  lemma PadInjective(w: nat, m: nat, n: nat)
    requires Pad(w, m) == Pad(w, n)
    ensures m == n
  {
    PadValue(w, m);
    PadValue(w, n);
  }

  /** `strconv.Atoi`: an optional sign, then at least one digit, within 64 bits. */
  function Atoi(s: string): (r: Option<int>)
    ensures r.Some? ==> MIN_INT64 <= r.value <= MAX_INT64
  {
    if s == [] then None
    else
      var signed := s[0] == '-' || s[0] == '+';
      var digits := if signed then s[1..] else s;
      if digits == [] || !AllDigits(digits) then None
      else
        var v := if s[0] == '-' then -(Value(digits) as int) else Value(digits);
        if MIN_INT64 <= v <= MAX_INT64 then Some(v) else None
  }

  lemma AtoiPad(w: nat, n: nat)
    ensures Atoi(Pad(w, n)) == if n <= MAX_INT64 then Some(n) else None
  {
    PadValue(w, n);
    assert IsDigit(Pad(w, n)[0]);
  }

  /** Go's `<` on strings: byte order, a proper prefix first. */
  predicate Less(a: string, b: string) {
    b != [] && (a == [] || a[0] < b[0] || (a[0] == b[0] && Less(a[1..], b[1..])))
  }

  lemma {:induction false} LessSnoc(a: string, b: string, x: char, y: char)
    requires |a| == |b|
    ensures Less(a + [x], b + [y]) <==> (Less(a, b) || (a == b && x < y))
  {
    if a == [] {
      assert a + [x] == [x] && b + [y] == [y];
    } else {
      assert (a + [x])[1..] == a[1..] + [x] && (b + [y])[1..] == b[1..] + [y];
      assert a == [a[0]] + a[1..] && b == [b[0]] + b[1..];
      LessSnoc(a[1..], b[1..], x, y);
    }
  }

  /** On digit strings of one length, byte order is numeric order. */
  lemma {:induction false} LessIsNumeric(a: string, b: string)
    requires |a| == |b| && AllDigits(a) && AllDigits(b)
    ensures Less(a, b) <==> Value(a) < Value(b)
    ensures Value(a) == Value(b) ==> a == b
  {
    if a != [] {
      var n := |a| - 1;
      assert a == a[..n] + [a[n]] && b == b[..n] + [b[n]];
      LessIsNumeric(a[..n], b[..n]);
      LessSnoc(a[..n], b[..n], a[n], b[n]);
    }
  }

  lemma {:induction false} LessTransitive(a: string, b: string, c: string)
    requires Less(a, b) && Less(b, c)
    ensures Less(a, c)
  {
    if a != [] && a[0] == b[0] && b[0] == c[0] {
      LessTransitive(a[1..], b[1..], c[1..]);
    }
  }

  lemma {:induction false} LessIrreflexive(a: string)
    ensures !Less(a, a)
  {
    if a != [] { LessIrreflexive(a[1..]); }
  }

  lemma {:induction false} LessTotal(a: string, b: string)
    requires a != b
    ensures Less(a, b) || Less(b, a)
  {
    if a != [] && b != [] && a[0] == b[0] {
      assert a == [a[0]] + a[1..] && b == [b[0]] + b[1..];
      LessTotal(a[1..], b[1..]);
    }
  }

  /** A prefix shared by both sides does not affect the order. */
  lemma {:induction false} LessPrefix(p: string, a: string, b: string)
    ensures Less(p + a, p + b) <==> Less(a, b)
  {
    if p == [] {
      assert p + a == a && p + b == b;
    } else {
      assert (p + a)[1..] == p[1..] + a && (p + b)[1..] == p[1..] + b;
      LessPrefix(p[1..], a, b);
    }
  }

  /** Digits after the last separator are read back from the right. */
  lemma SplitRight(s: string, d: string, t: string, e: string, sep: char)
    requires AllDigits(d) && AllDigits(e) && !IsDigit(sep)
    requires s + [sep] + d == t + [sep] + e
    ensures s == t && d == e
  {
    var x, y := s + [sep] + d, t + [sep] + e;
    assert x[|s|] == sep && forall i :: |s| < i < |x| ==> x[i] == d[i - |s| - 1];
    assert y[|t|] == sep && forall i :: |t| < i < |y| ==> y[i] == e[i - |t| - 1];
    assert x[..|s|] == s && y[..|t|] == t;
    assert x[|s| + 1..] == d && y[|t| + 1..] == e;
  }

  /** Digits before the first separator are read back from the left. */
  lemma SplitLeft(d: string, s: string, e: string, t: string, sep: char)
    requires AllDigits(d) && AllDigits(e) && !IsDigit(sep)
    requires d + [sep] + s == e + [sep] + t
    ensures d == e && s == t
  {
    var x, y := d + [sep] + s, e + [sep] + t;
    assert x[|d|] == sep && forall i :: 0 <= i < |d| ==> x[i] == d[i];
    assert y[|e|] == sep && forall i :: 0 <= i < |e| ==> y[i] == e[i];
    assert x[..|d|] == d && y[..|e|] == e;
    assert x[|d| + 1..] == s && y[|e| + 1..] == t;
  }

  predicate HasPrefix(s: string, p: string) { |s| >= |p| && s[..|p|] == p }

  predicate HasSuffix(s: string, p: string) { |s| >= |p| && s[|s| - |p|..] == p }

  function TrimPrefix(s: string, p: string): string { if HasPrefix(s, p) then s[|p|..] else s }

  /** `strings.Index` of one character. */
  function Index(s: string, c: char): (r: Option<nat>)
    ensures r.None? <==> c !in s
    ensures r.Some? ==> r.value < |s| && s[r.value] == c && c !in s[..r.value]
  {
    if s == [] then None
    else if s[0] == c then Some(0)
    else
      match Index(s[1..], c)
      case None => None
      case Some(i) => assert s[..i + 1] == [s[0]] + s[1..][..i]; Some(i + 1)
  }
}
