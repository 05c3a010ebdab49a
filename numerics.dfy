/** Fixed-width machine integers and the decimal text forms the emulator
    builds with Rust's `format!("{:0w}", n)` and reads back with
    `str::parse::<u32>()`. Text is a `string` of ASCII characters. */
module Numerics {

  type U8 = x: int | 0 <= x < 0x100
  type I8 = x: int | -0x80 <= x < 0x80
  type U32 = x: int | 0 <= x < 0x1_0000_0000
  type I32 = x: int | -0x8000_0000 <= x < 0x8000_0000

  datatype Option<+T> = None | Some(value: T)

  function Pow10(n: nat): (r: nat)
    ensures r >= 1
  {
    if n == 0 then 1 else 10 * Pow10(n - 1)
  }

  lemma {:induction false} Pow10Monotone(a: nat, b: nat)
    requires a <= b
    ensures Pow10(a) <= Pow10(b)
  {
    if a < b {
      Pow10Monotone(a, b - 1);
    }
  }

  predicate IsDigit(c: char) {
    '0' <= c <= '9'
  }

  predicate AllDigits(s: string) {
    forall i :: 0 <= i < |s| ==> IsDigit(s[i])
  }

  function DigitChar(d: nat): (c: char)
    requires d < 10
    ensures IsDigit(c)
  {
    ('0' as int + d) as char
  }

  function DigitValue(c: char): (d: nat)
    requires IsDigit(c)
    ensures d < 10 && DigitChar(d) == c
  {
    c as int - '0' as int
  }

  /** The last `w` decimal digits of `n`, most significant first. */
  function Fixed(n: nat, w: nat): (s: string)
    ensures |s| == w && AllDigits(s)
  {
    if w == 0 then [] else Fixed(n / 10, w - 1) + [DigitChar(n % 10)]
  }

  /** How many decimal digits `n` has when written without leading zeros. */
  function NumDigits(n: nat): (k: nat)
    ensures k >= 1
  {
    if n < 10 then 1 else 1 + NumDigits(n / 10)
  }

  /** `format!("{:0w}", n)` for an unsigned `n`: its decimal digits padded on
      the left with '0' to at least `w` characters; never truncated. */
  function Format(n: nat, w: nat): (s: string)
    ensures AllDigits(s)
    ensures |s| == if w < NumDigits(n) then NumDigits(n) else w
  {
    Fixed(n, if w < NumDigits(n) then NumDigits(n) else w)
  }

  /** `format!("{:0w}", x)` (and `{}` with `w == 0`) for a signed `x`: a
      leading '-' counts towards the width. */
  function FormatSigned(x: int, w: nat): (s: string)
    ensures x >= 0 ==> s == Format(x, w)
    ensures x < 0 ==> |s| >= 2 && s[0] == '-'
    ensures x < 0 ==> AllDigits(s[1..]) && ParseDigits(s[1..]) == -x
    ensures x < 0 ==> |s| == if w < NumDigits(-x) + 1 then NumDigits(-x) + 1 else w
  {
    if x < 0 then
      var digits := Format(-x, if w == 0 then 0 else w - 1);
      FormatParses(-x, if w == 0 then 0 else w - 1);
      assert ("-" + digits)[1..] == digits;
      "-" + digits
    else Format(x, w)
  }

  /** The value of a string of decimal digits. */
  function ParseDigits(s: string): (n: nat)
    requires AllDigits(s)
    ensures n < Pow10(|s|)
  {
    if s == [] then 0 else ParseDigits(s[..|s| - 1]) * 10 + DigitValue(s[|s| - 1])
  }

  /** `s.parse::<u32>()` on text made of ASCII decimal digits only. */
  function ParseU32(s: string): (r: Option<U32>)
    ensures r.Some? <==> |s| > 0 && AllDigits(s) && ParseDigits(s) < 0x1_0000_0000
    ensures r.Some? ==> r.value == ParseDigits(s)
  {
    if |s| > 0 && AllDigits(s) && ParseDigits(s) < 0x1_0000_0000 then Some(ParseDigits(s)) else None
  }

  lemma {:induction false} MulAtLeast(m: nat, k: nat)
    requires k >= 1
    ensures m * k >= m
  {
    if k > 1 {
      MulAtLeast(m, k - 1);
      assert m * k == m * (k - 1) + m;
    }
  }

  /** If `n == m * q + r` with `0 <= r < m`, then `q` and `r` are the
      quotient and remainder of `n` by `m`. */
  lemma DivModUnique(n: int, m: int, q: int, r: int)
    requires m > 0 && 0 <= r < m && n == m * q + r
    ensures n / m == q && n % m == r
  {
    var q', r' := n / m, n % m;
    assert m * q' + r' == n;
    if q > q' {
      assert m * q == m * (q - q') + m * q';
      MulAtLeast(m, q - q');
      assert false;
    } else if q < q' {
      assert m * q' == m * (q' - q) + m * q;
      MulAtLeast(m, q' - q);
      assert false;
    }
  }

  lemma ModOfShift(n: nat, p: nat)
    requires p >= 1
    ensures ((n / 10) % p) * 10 + n % 10 == n % (10 * p)
  {
    var a, b, d := (n / 10) / p, (n / 10) % p, n % 10;
    assert n / 10 == p * a + b;
    assert n == (10 * p) * a + (10 * b + d);
    DivModUnique(n, 10 * p, a, 10 * b + d);
  }

  /** Reading back a fixed-width rendering gives the value modulo 10^w. */
  lemma {:induction false} ParseFixed(n: nat, w: nat)
    ensures ParseDigits(Fixed(n, w)) == n % Pow10(w)
  {
    if w > 0 {
      var s := Fixed(n, w);
      assert s[..w - 1] == Fixed(n / 10, w - 1);
      ParseFixed(n / 10, w - 1);
      ModOfShift(n, Pow10(w - 1));
    }
  }

  /** A value fits in `w` digits exactly when its digit count is at most `w`. */
  lemma {:induction false} NumDigitsFits(n: nat, w: nat)
    requires w >= 1
    ensures NumDigits(n) <= w <==> n < Pow10(w)
  {
    if n >= 10 {
      if w >= 2 {
        NumDigitsFits(n / 10, w - 1);
      } else {
        assert Pow10(w) == 10;
      }
    } else {
      Pow10Monotone(1, w);
    }
  }

  lemma NumDigitsBound(n: nat)
    ensures n < Pow10(NumDigits(n))
  {
    NumDigitsFits(n, NumDigits(n));
  }

  /** Text produced by `Format` parses back to the number it renders. */
  lemma FormatParses(n: nat, w: nat)
    ensures ParseDigits(Format(n, w)) == n
  {
    var k := if w < NumDigits(n) then NumDigits(n) else w;
    ParseFixed(n, k);
    NumDigitsBound(n);
    Pow10Monotone(NumDigits(n), k);
    DivModUnique(n, Pow10(k), 0, n);
  }

  /** `Format(n, w)` is exactly `w` characters long iff `n` has at most `w` digits. */
  lemma FormatWidth(n: nat, w: nat)
    requires w >= 1
    ensures |Format(n, w)| == w <==> n < Pow10(w)
  {
    NumDigitsFits(n, w);
  }

  lemma ShiftDigit(x: int, p: int, y: int, v: int)
    ensures (x * p + y) * 10 + v == x * (10 * p) + (y * 10 + v)
  {
  }

  /** Parsing a concatenation: the left part is shifted by the right part's width. */
  lemma {:induction false} ParseAppend(a: string, b: string)
    requires AllDigits(a) && AllDigits(b)
    ensures AllDigits(a + b)
    ensures ParseDigits(a + b) == ParseDigits(a) * Pow10(|b|) + ParseDigits(b)
  {
    var ab := a + b;
    assert AllDigits(ab) by {
      forall i | 0 <= i < |ab| ensures IsDigit(ab[i]) {
        if i < |a| { assert ab[i] == a[i]; } else { assert ab[i] == b[i - |a|]; }
      }
    }
    if b == [] {
      assert ab == a;
    } else {
      var b' := b[..|b| - 1];
      assert ab[..|ab| - 1] == a + b';
      ParseAppend(a, b');
      var pa, pb', v := ParseDigits(a), ParseDigits(b'), DigitValue(b[|b| - 1]);
      assert ParseDigits(ab) == ParseDigits(a + b') * 10 + v;
      assert ParseDigits(b) == pb' * 10 + v;
      ShiftDigit(pa, Pow10(|b'|), pb', v);
    }
  }
}
