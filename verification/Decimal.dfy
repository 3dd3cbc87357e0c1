/** Decimal numerals, zero-padded or not, and their order as strings. */
module Decimal {
  import opened Wrappers

  function Pow10(w: nat): (p: nat)
    ensures p > 0
  {
    if w == 0 then 1 else 10 * Pow10(w - 1)
  }

  function Digit(d: nat): (c: char)
    requires d < 10
    ensures IsDigit(c) && c as int - '0' as int == d
  {
    ('0' as int + d) as char
  }

  predicate IsDigit(c: char) {
    '0' <= c <= '9'
  }

  /** The last w digits of n. */
  function Padded(n: nat, w: nat): (s: string)
    ensures |s| == w
  {
    if w == 0 then "" else Padded(n / 10, w - 1) + [Digit(n % 10)]
  }

  /** strconv.Itoa. */
  function Numeral(n: nat): (s: string)
    ensures s != [] && IsDigit(s[0])
  {
    if n < 10 then [Digit(n)] else Numeral(n / 10) + [Digit(n % 10)]
  }

  /** The verb %0wd: at least w digits. */
  function ZeroPadded(n: nat, w: nat): string {
    if n < Pow10(w) then Padded(n, w) else Numeral(n)
  }

  /** The order of strings in Go. */
  predicate Less(a: string, b: string) {
    if b == [] then false
    else if a == [] then true
    else a[0] < b[0] || (a[0] == b[0] && Less(a[1..], b[1..]))
  }

  lemma {:induction false} LessLast(a: string, b: string, x: char, y: char)
    requires |a| == |b|
    ensures Less(a + [x], b + [y]) <==> Less(a, b) || (a == b && x < y)
  {
    if a != [] {
      assert (a + [x])[1..] == a[1..] + [x] && (b + [y])[1..] == b[1..] + [y];
      LessLast(a[1..], b[1..], x, y);
      assert a == [a[0]] + a[1..] && b == [b[0]] + b[1..];
    }
  }

  lemma {:induction false} LessPrefix(p: string, a: string, b: string)
    ensures Less(p + a, p + b) <==> Less(a, b)
  {
    if p == [] {
      assert p + a == a && p + b == b;
    } else {
      assert (p + a)[1..] == p[1..] + a && (p + b)[1..] == p[1..] + b;
      LessPrefix(p[1..], a, b);
    }
  }

  /** For every width: numerals padded to the width are in the order of the numbers, and
      different numbers have different numerals. */
  lemma {:induction false} PaddedOrder(n: nat, m: nat, w: nat)
    requires n < Pow10(w) && m < Pow10(w)
    ensures Less(Padded(n, w), Padded(m, w)) <==> n < m
    ensures Padded(n, w) == Padded(m, w) <==> n == m
  {
    if w > 0 {
      PaddedOrder(n / 10, m / 10, w - 1);
      LessLast(Padded(n / 10, w - 1), Padded(m / 10, w - 1), Digit(n % 10), Digit(m % 10));
      LastOfConcat(Padded(n / 10, w - 1), Padded(m / 10, w - 1), Digit(n % 10), Digit(m % 10));
    }
  }

  lemma LastOfConcat(a: string, b: string, x: char, y: char)
    requires |a| == |b|
    ensures a + [x] == b + [y] <==> a == b && x == y
  {
    if a + [x] == b + [y] {
      assert (a + [x])[..|a|] == (b + [y])[..|b|];
      assert (a + [x])[|a|] == (b + [y])[|b|];
    }
  }

  lemma {:induction false} FirstDigits(w: nat)
    ensures Numeral(Pow10(w))[0] == '1'
    ensures w > 0 ==> Padded(Pow10(w) - 1, w)[0] == '9'
  {
    if w > 0 {
      FirstDigits(w - 1);
      assert Pow10(w) / 10 == Pow10(w - 1) && (Pow10(w) - 1) / 10 == Pow10(w - 1) - 1;
    }
  }

  /** Beyond the width the order breaks down. */
  lemma OrderEndsAtWidth(w: nat)
    requires w > 0
    ensures !Less(ZeroPadded(Pow10(w) - 1, w), ZeroPadded(Pow10(w), w))
  {
    FirstDigits(w);
  }

  lemma {:induction false} LessIsTotal(a: string, b: string)
    ensures a == b || Less(a, b) || Less(b, a)
  {
    if a != [] && b != [] && a[0] == b[0] {
      LessIsTotal(a[1..], b[1..]);
      assert a == [a[0]] + a[1..] && b == [b[0]] + b[1..];
    }
  }

  lemma {:induction false} LessIsStrict(a: string, b: string, c: string)
    ensures !Less(a, a)
    ensures Less(a, b) && Less(b, c) ==> Less(a, c)
  {
    if a != [] {
      LessIsStrict(a[1..], if b == [] then [] else b[1..], if c == [] then [] else c[1..]);
    }
  }

  // Parsing.

  const INT64_LIMIT := 0x8000_0000_0000_0000

  /** The value of a string of digits. */
  function Value(s: string): Option<nat> {
    if s == [] then Some(0)
    else
      var rest, c := Value(s[..|s| - 1]), s[|s| - 1];
      if rest.None? || !IsDigit(c) then None else Some(10 * rest.value + (c as int - '0' as int))
  }

  /** strconv.ParseInt in base 10 with 64 bits. */
  function ParseInt(s: string): Option<int> {
    var negative := s != [] && s[0] == '-';
    var digits := if s != [] && s[0] in "+-" then s[1..] else s;
    var v := Value(digits);
    if digits == [] || v.None? || v.value > INT64_LIMIT || (!negative && v.value == INT64_LIMIT) then None
    else
      var n: int := v.value;
      Some(if negative then -n else n)
  }

  lemma {:induction false} ValueOfNumeral(n: nat)
    ensures Value(Numeral(n)) == Some(n)
  {
    var s := Numeral(n);
    if n < 10 {
      assert s[..0] == [];
    } else {
      ValueOfNumeral(n / 10);
      assert s[..|s| - 1] == Numeral(n / 10);
    }
  }

  lemma {:induction false} ValueOfPadded(n: nat, w: nat)
    requires n < Pow10(w)
    ensures Value(Padded(n, w)) == Some(n)
  {
    if w > 0 {
      var s := Padded(n, w);
      ValueOfPadded(n / 10, w - 1);
      assert s[..|s| - 1] == Padded(n / 10, w - 1);
    }
  }

  lemma {:induction false} NumeralLength(n: nat, w: nat)
    requires n >= Pow10(w)
    ensures |Numeral(n)| > w
  {
    if w > 0 {
      NumeralLength(n / 10, w - 1);
    }
  }

  /** A padded numeral has at least the width, and the value of the number. */
  lemma PaddedTellsNumber(n: nat, w: nat)
    ensures Value(ZeroPadded(n, w)) == Some(n) && |ZeroPadded(n, w)| >= w
    ensures n < Pow10(w) ==> |ZeroPadded(n, w)| == w
  {
    hide Padded, Value, Numeral, Pow10;
    if n < Pow10(w) {
      ValueOfPadded(n, w);
    } else {
      ValueOfNumeral(n);
      NumeralLength(n, w);
    }
  }

  /** A string of digits is a numeral with zeros in front. */
  lemma {:induction false} DigitsAreNumeral(s: string) returns (k: nat)
    requires s != [] && Value(s).Some?
    ensures k < |s| && s[k..] == Numeral(Value(s).value) && forall i :: 0 <= i < k ==> s[i] == '0'
  {
    var n := |s| - 1;
    assert s == s[..n] + [s[n]];
    if n == 0 {
      k := 0;
    } else {
      k := DigitsAreNumeral(s[..n]);
      if Value(s[..n]).value == 0 {
        k := n;
      } else {
        assert s[k..] == s[..n][k..] + [s[n]];
      }
    }
  }

  /** Only numerals are parsed: a sign at most, zeros, and the numeral of a 63-bit number
      (or of the least negative one). */
  lemma OnlyNumeralsParse(s: string) returns (k: nat)
    requires ParseInt(s).Some?
    ensures var v := ParseInt(s).value;
      && k < |s| && s[k..] == Numeral(if v >= 0 then v else -v)
      && (v < 0 ==> s[0] == '-') && -9_223_372_036_854_775_808 <= v < 9_223_372_036_854_775_808
      && forall i :: 0 <= i < k ==> s[i] == '0' || (i == 0 && s[i] in "+-")
  {
    if s[0] in "+-" {
      var j := DigitsAreNumeral(s[1..]);
      k := j + 1;
    } else {
      k := DigitsAreNumeral(s);
    }
  }

  /** Parsing a numeral gives the number. */
  lemma ParseNumeral(n: nat)
    requires n < 9_223_372_036_854_775_808
    ensures ParseInt(Numeral(n)) == Some(n)
  {
    ValueOfNumeral(n);
  }
}
