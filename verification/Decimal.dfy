/** Decimal numerals as JavaScript strings: printing, parsing, zero padding and
    the code-unit order that `<` and `<=` use on strings. */
module Decimal {
  import opened Basics

  predicate IsDigit(c: char) { '0' <= c <= '9' }

  predicate AllDigits(s: string) { forall i :: 0 <= i < |s| ==> IsDigit(s[i]) }

  function Digit(n: nat): (c: char)
    requires n < 10
    ensures IsDigit(c)
  {
    ('0' as int + n) as char
  }

  function DigitValue(c: char): (n: nat)
    requires IsDigit(c)
    ensures n < 10 && Digit(n) == c
  {
    c as int - '0' as int
  }

  /** `String(n)` for a non-negative integer. */
  function ToString(n: nat): (s: string)
    ensures |s| > 0 && AllDigits(s)
  {
    if n < 10 then [Digit(n)] else ToString(n / 10) + [Digit(n % 10)]
  }

  /** `Number(s)` for a string of digits. */
  function Parse(s: string): (n: nat)
    requires AllDigits(s)
  {
    if s == [] then 0 else Parse(s[..|s| - 1]) * 10 + DigitValue(s[|s| - 1])
  }

  function Pow10(w: nat): (p: nat)
    ensures p > 0
  {
    if w == 0 then 1 else 10 * Pow10(w - 1)
  }

  lemma Powers()
    ensures Pow10(2) == 100 && Pow10(3) == 1000 && Pow10(4) == 10000
  {
    assert Pow10(1) == 10;
    assert Pow10(2) == 100;
    assert Pow10(3) == 1000;
  }

  /** `String(n).padStart(w, '0')` for a number of at most `w` digits. */
  function Pad(n: nat, w: nat): (s: string)
    ensures |s| == w && AllDigits(s)
  {
    if w == 0 then [] else Pad(n / 10, w - 1) + [Digit(n % 10)]
  }

  lemma ParseSnoc(s: string, c: char)
    requires AllDigits(s) && IsDigit(c)
    ensures AllDigits(s + [c]) && Parse(s + [c]) == Parse(s) * 10 + DigitValue(c)
  {
    assert (s + [c])[..|s|] == s;
  }

  lemma {:induction false} ParseToString(n: nat)
    ensures Parse(ToString(n)) == n
  {
    if n >= 10 {
      ParseToString(n / 10);
      ParseSnoc(ToString(n / 10), Digit(n % 10));
    }
  }

  lemma PadTwo(n: nat)
    requires n < 100
    ensures Pad(n, 2) == [Digit(n / 10), Digit(n % 10)]
  {
    assert Pad(n / 10 / 10, 0) == [];
    assert Pad(n / 10, 1) == [] + [Digit(n / 10 % 10)];
  }

  lemma EmptyIsZero()
    ensures Parse([]) == 0
  {
  }

  lemma TenthFits(n: nat, w: nat)
    requires w > 0 && n < Pow10(w)
    ensures n / 10 < Pow10(w - 1)
  {
  }

  lemma {:induction false} ParsePad(n: nat, w: nat)
    requires n < Pow10(w)
    ensures Parse(Pad(n, w)) == n
  {
    hide Parse, AllDigits;
    if w > 0 {
      var front := n / 10;
      TenthFits(n, w);
      ParsePad(front, w - 1);
      assert Pad(n, w) == Pad(front, w - 1) + [Digit(n % 10)];
      hide Pad, Pow10;
      ParseSnoc(Pad(front, w - 1), Digit(n % 10));
    } else {
      EmptyIsZero();
    }
  }

  /** A string of digits is the padding of its own value. */
  lemma {:induction false} PadParse(s: string)
    requires AllDigits(s)
    ensures Parse(s) < Pow10(|s|) && Pad(Parse(s), |s|) == s
  {
    if s != [] {
      var front := s[..|s| - 1];
      PadParse(front);
      assert s == front + [s[|s| - 1]];
    }
  }

  /** A number of exactly four digits needs no padding to four. */
  lemma FourDigits(n: nat)
    requires 1000 <= n <= 9999
    ensures ToString(n) == Pad(n, 4)
  {
    assert n / 10 / 10 / 10 < 10;
    assert ToString(n / 10 / 10 / 10) == Pad(n / 10 / 10 / 10, 1);
    assert ToString(n / 10 / 10) == Pad(n / 10 / 10, 2);
    assert ToString(n / 10) == Pad(n / 10, 3);
  }

  /** The order of JavaScript's `<` on strings. */
  predicate StrLess(a: string, b: string) {
    if b == [] then false
    else if a == [] then true
    else if a[0] != b[0] then a[0] < b[0]
    else StrLess(a[1..], b[1..])
  }

  predicate StrLessEq(a: string, b: string) { a == b || StrLess(a, b) }

  lemma {:induction false} LexConcat(a: string, b: string, x: string, y: string)
    requires |a| == |b|
    ensures StrLess(a + x, b + y) <==> StrLess(a, b) || (a == b && StrLess(x, y))
  {
    if a == [] {
      assert a + x == x && b + y == y;
    } else {
      LexConcat(a[1..], b[1..], x, y);
      assert (a + x)[1..] == a[1..] + x && (b + y)[1..] == b[1..] + y;
      assert a == [a[0]] + a[1..] && b == [b[0]] + b[1..];
    }
  }

  lemma {:induction false} PadInjective(m: nat, n: nat, w: nat)
    requires m < Pow10(w) && n < Pow10(w)
    ensures Pad(m, w) == Pad(n, w) <==> m == n
  {
    ParsePad(m, w);
    ParsePad(n, w);
  }

  /** On zero-padded numerals of one width, string order is numeric order. */
  lemma {:induction false} PadOrder(m: nat, n: nat, w: nat)
    requires m < Pow10(w) && n < Pow10(w)
    ensures StrLess(Pad(m, w), Pad(n, w)) <==> m < n
  {
    if w > 0 {
      PadOrder(m / 10, n / 10, w - 1);
      PadInjective(m / 10, n / 10, w - 1);
      LexConcat(Pad(m / 10, w - 1), Pad(n / 10, w - 1), [Digit(m % 10)], [Digit(n % 10)]);
    }
  }

  lemma {:induction false} StrLessIrreflexive(a: string)
    ensures !StrLess(a, a)
  {
    if a != [] { StrLessIrreflexive(a[1..]); }
  }

  lemma {:induction false} StrLessTransitive(a: string, b: string, c: string)
    requires StrLess(a, b) && StrLess(b, c)
    ensures StrLess(a, c)
  {
    if a != [] && a[0] == b[0] == c[0] { StrLessTransitive(a[1..], b[1..], c[1..]); }
  }

  lemma {:induction false} StrLessTotal(a: string, b: string)
    ensures StrLess(a, b) || a == b || StrLess(b, a)
  {
    if a != [] && b != [] && a[0] == b[0] {
      StrLessTotal(a[1..], b[1..]);
      assert a == [a[0]] + a[1..] && b == [b[0]] + b[1..];
    }
  }

  lemma StrLessEqIff(a: string, b: string)
    ensures StrLessEq(a, b) <==> !StrLess(b, a)
  {
    hide StrLess;
    StrLessTotal(a, b);
    if StrLess(b, a) {
      if StrLess(a, b) { StrLessTransitive(a, b, a); }
      StrLessIrreflexive(a);
    }
  }

  /** `String(n)` of an integer. */
  function IntText(n: int): string { if n < 0 then "-" + ToString(-n) else ToString(n) }

  lemma IntTextShape(n: int)
    ensures IntText(n) == if n < 0 then "-" + ToString(Abs(n)) else ToString(Abs(n))
    ensures IntText(n)[0] == '-' <==> n < 0
    ensures n < 0 ==> IntText(n)[1..] == ToString(Abs(n))
  {
  }

  lemma IntTextInjective(m: int, n: int)
    requires IntText(m) == IntText(n)
    ensures m == n
  {
    IntTextShape(m);
    IntTextShape(n);
    ParseToString(Abs(m));
    ParseToString(Abs(n));
    hide IntText, ToString, Parse;
  }
}
