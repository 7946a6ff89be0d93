/** Fixed-width decimal numbers as text, and the bytewise order of text. */
module Decimal {

  function Pow10(w: nat): nat {
    if w == 0 then 1 else 10 * Pow10(w - 1)
  }

  lemma PowersOfTen()
    ensures Pow10(2) == 100 && Pow10(4) == 10_000 && Pow10(9) == 1_000_000_000
  {
    assert Pow10(6) == 1_000_000;
    assert Pow10(8) == 100_000_000;
  }

  function DigitChar(d: int): char
    requires 0 <= d < 10
  {
    ('0' as int + d) as char
  }

  predicate IsDigit(c: char) {
    '0' <= c <= '9'
  }

  predicate AllDigits(s: string) {
    forall i | 0 <= i < |s| :: IsDigit(s[i])
  }

  /** The last `w` decimal digits of `n`. */
  function Digits(n: int, w: nat): (s: string)
    ensures |s| == w && AllDigits(s)
    decreases w
  {
    if w == 0 then "" else Digits(n / 10, w - 1) + [DigitChar(n % 10)]
  }

  function Value(s: string): (n: nat)
    requires AllDigits(s)
    ensures n < Pow10(|s|)
  {
    if s == "" then 0 else 10 * Value(s[..|s| - 1]) + (s[|s| - 1] as int - '0' as int)
  }

  lemma ValueOfLast(s: string, d: int)
    requires AllDigits(s) && 0 <= d < 10
    ensures AllDigits(s + [DigitChar(d)]) && Value(s + [DigitChar(d)]) == 10 * Value(s) + d
  {
    assert (s + [DigitChar(d)])[..|s|] == s;
  }

  lemma {:induction false} DigitsValue(n: int, w: nat)
    requires 0 <= n < Pow10(w)
    ensures Value(Digits(n, w)) == n
  {
    if w > 0 {
      hide Value;
      DigitsValue(n / 10, w - 1);
      ValueOfLast(Digits(n / 10, w - 1), n % 10);
    } else {
      assert Digits(n, w) == "" && Value("") == 0;
    }
  }

  predicate AllZeros(s: string) {
    forall i | 0 <= i < |s| :: s[i] == '0'
  }

  lemma ZerosAreZero(s: string)
    requires AllZeros(s)
    ensures AllDigits(s) && Value(s) == 0
  {
    if s != "" {
      ZerosAreZero(s[..|s| - 1]);
    }
  }

  function TrimZeros(s: string): (r: string)
    ensures |r| <= |s| && r == s[..|r|] && AllZeros(s[|r|..])
  {
    if s == "" || s[|s| - 1] != '0' then s
    else
      var r := TrimZeros(s[..|s| - 1]);
      assert s[|r|..] == s[..|s| - 1][|r|..] + "0";
      r
  }

  /** Padding a trimmed number of nine digits with zeros restores it. */
  lemma TrimmedPadsBack(s: string)
    requires |s| == 9 && AllDigits(s)
    ensures (TrimZeros(s) + "000000000")[..9] == s && AllDigits(TrimZeros(s))
  {
    var r := TrimZeros(s);
    forall i | 0 <= i < 9 ensures (r + "000000000")[i] == s[i] {
      if i < |r| {
        assert r[i] == s[i];
      } else {
        assert s[|r|..][i - |r|] == '0';
      }
    }
  }

  // ---------------------------------------------------------------------------
  // Bytewise order
  // ---------------------------------------------------------------------------

  /** The first differing character decides; a proper prefix comes first. */
  predicate TextLess(a: string, b: string) {
    && b != ""
    && (a == "" || a[0] < b[0] || (a[0] == b[0] && TextLess(a[1..], b[1..])))
  }

  /** Below means: equal up to some point, where the one ends or has the smaller character. */
  lemma {:induction false} TextLessIff(a: string, b: string)
    ensures TextLess(a, b) <==>
      exists k :: 0 <= k <= |a| && k < |b| && a[..k] == b[..k] && (k == |a| || a[k] < b[k])
  {
    if a == "" {
      assert b != "" ==> a[..0] == b[..0];
    } else if b != "" {
      TextLessIff(a[1..], b[1..]);
      if a[0] < b[0] {
        assert a[..0] == b[..0];
      } else if TextLess(a, b) {
        var k :| 0 <= k <= |a[1..]| && k < |b[1..]| && a[1..][..k] == b[1..][..k]
          && (k == |a[1..]| || a[1..][k] < b[1..][k]);
        assert a[..k + 1] == [a[0]] + a[1..][..k] && b[..k + 1] == [b[0]] + b[1..][..k];
      } else {
        forall k | 0 <= k <= |a| && k < |b| && a[..k] == b[..k] ensures !(k == |a| || a[k] < b[k]) {
          if k > 0 {
            assert a[0] == a[..k][0] == b[..k][0] == b[0];
            assert a[1..][..k - 1] == a[..k][1..] == b[..k][1..] == b[1..][..k - 1];
          }
        }
      }
    }
  }

  /** Equal lengths: the fronts decide, and only if they are equal the rests. */
  lemma {:induction false} FrontsDecide(x: string, y: string, r: string, q: string)
    requires |x| == |y|
    ensures TextLess(x + r, y + q) <==> TextLess(x, y) || (x == y && TextLess(r, q))
  {
    if x == "" {
      assert x + r == r && y + q == q;
    } else {
      assert (x + r)[1..] == x[1..] + r && (y + q)[1..] == y[1..] + q;
      assert x == [x[0]] + x[1..] && y == [y[0]] + y[1..];
      FrontsDecide(x[1..], y[1..], r, q);
    }
  }

  lemma LessIsIrreflexive(a: string)
    ensures !TextLess(a, a)
  {
  }

  lemma LastCharDecides(a: char, b: char)
    ensures TextLess([a], [b]) <==> a < b
  {
  }

  lemma {:induction false} DigitsOrder(m: int, n: int, w: nat)
    requires 0 <= m < Pow10(w) && 0 <= n < Pow10(w)
    ensures TextLess(Digits(m, w), Digits(n, w)) <==> m < n
    ensures Digits(m, w) == Digits(n, w) <==> m == n
  {
    DigitsValue(m, w);
    DigitsValue(n, w);
    if w > 0 {
      DigitsOrder(m / 10, n / 10, w - 1);
      FrontsDecide(Digits(m / 10, w - 1), Digits(n / 10, w - 1), [DigitChar(m % 10)], [DigitChar(n % 10)]);
      LastCharDecides(DigitChar(m % 10), DigitChar(n % 10));
    }
  }

  /** A fixed-width number, a separator, and the rest. */
  lemma FieldThen(m: int, n: int, w: nat, sep: string, r: string, q: string)
    requires 0 <= m < Pow10(w) && 0 <= n < Pow10(w)
    ensures TextLess(Digits(m, w) + sep + r, Digits(n, w) + sep + q) <==> m < n || (m == n && TextLess(r, q))
  {
    DigitsOrder(m, n, w);
    FrontsDecide(Digits(m, w), Digits(n, w), sep + r, sep + q);
    FrontsDecide(sep, sep, r, q);
    LessIsIrreflexive(sep);
    assert Digits(m, w) + (sep + r) == Digits(m, w) + sep + r;
    assert Digits(n, w) + (sep + q) == Digits(n, w) + sep + q;
  }

  /** Bytewise order is a strict total order on text. */
  lemma {:induction false} TextLessConnects(a: string, b: string)
    ensures a == b || TextLess(a, b) || TextLess(b, a)
  {
    if a != "" && b != "" {
      TextLessConnects(a[1..], b[1..]);
      assert a == [a[0]] + a[1..] && b == [b[0]] + b[1..];
    }
  }

  lemma {:induction false} TextLessChains(a: string, b: string, c: string)
    requires TextLess(a, b) && TextLess(b, c)
    ensures TextLess(a, c)
  {
    if a != "" && a[0] == b[0] == c[0] {
      TextLessChains(a[1..], b[1..], c[1..]);
    }
  }
}
