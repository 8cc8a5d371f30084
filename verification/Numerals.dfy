/** Positional numerals: `Number.prototype.toString(base)`, `padStart` with zeros, and reading back. */
module Numerals {

  /** The digits are `0` to `9`, then `a` to `z`. */
  function Digit(d: nat): char
    requires d < 36
  {
    (if d < 10 then '0' as int + d else 'a' as int + d - 10) as char
  }

  type Base = b: nat | 2 <= b <= 36 witness 2

  /** `n.toString(base)` */
  function Numeral(n: nat, base: Base): (s: string)
    ensures s != ""
    decreases n
  {
    if n < base then [Digit(n)]
    else
      assert n / base < n by { QuotientBound(n, base, n); }
      Numeral(n / base, base) + [Digit(n % base)]
  }

  /** `s.padStart(width, "0")` */
  function PadStart(s: string, width: nat): string
    decreases width - |s|
  {
    if width <= |s| then s else PadStart("0" + s, width)
  }

  function Pow(base: nat, n: nat): nat
  {
    if n == 0 then 1 else base * Pow(base, n - 1)
  }

  function DigitValue(c: char): nat
  {
    if '0' <= c <= '9' then c as int - '0' as int
    else if 'a' <= c <= 'z' then c as int - 'a' as int + 10
    else 0
  }

  /** The number a positional numeral denotes. */
  function Value(s: string, base: Base): nat
  {
    if s == "" then 0
    else Value(s[..|s| - 1], base) * base + DigitValue(s[|s| - 1])
  }

  lemma QuotientBound(n: nat, base: Base, bound: nat)
    requires n < base * bound
    ensures n / base < bound
  {
    var q := n / base;
    assert n == base * q + n % base;
    if q >= bound {
      MulMonotone(base, bound, q);
      assert false;
    }
  }

  lemma MulMonotone(a: nat, x: nat, y: nat)
    requires x <= y
    ensures a * x <= a * y
  {
  }

  lemma DivMod(n: nat, base: Base)
    ensures n == (n / base) * base + n % base && n % base < base
    ensures n >= base ==> n / base < n
  {
    if n >= base {
      QuotientBound(n, base, n);
    }
  }

  lemma ValueAppend(s: string, d: nat, base: Base)
    requires d < base
    ensures Value(s + [Digit(d)], base) == Value(s, base) * base + d
  {
    var t := s + [Digit(d)];
    assert t[..|t| - 1] == s;
  }

  lemma {:induction false} NumeralValue(n: nat, base: Base)
    ensures Value(Numeral(n, base), base) == n
    decreases n
  {
    DivMod(n, base);
    if n < base {
      ValueAppend("", n, base);
      assert "" + [Digit(n)] == [Digit(n)];
    } else {
      NumeralValue(n / base, base);
      ValueAppend(Numeral(n / base, base), n % base, base);
    }
  }

  lemma PowStep(base: Base, k: nat)
    requires k > 0
    ensures Pow(base, k) == base * Pow(base, k - 1)
    ensures Pow(base, 1) == base
  {
    assert Pow(base, 1) == base * Pow(base, 0);
  }

  lemma {:induction false} NumeralLength(n: nat, base: Base, k: nat)
    requires k > 0 && n < Pow(base, k)
    ensures |Numeral(n, base)| <= k
    decreases n
  {
    PowStep(base, k);
    if n >= base {
      DivMod(n, base);
      QuotientBound(n, base, Pow(base, k - 1));
      NumeralLength(n / base, base, k - 1);
    }
  }

  lemma {:induction false} PadStartValue(s: string, width: nat, base: Base)
    ensures |PadStart(s, width)| == if |s| < width then width else |s|
    ensures Value(PadStart(s, width), base) == Value(s, base)
    decreases width - |s|
  {
    if |s| < width {
      LeadingZero(s, base);
      PadStartValue("0" + s, width, base);
    }
  }

  lemma {:induction false} LeadingZero(s: string, base: Base)
    ensures Value("0" + s, base) == Value(s, base)
  {
    var z := "0" + s;
    if s == "" {
      assert z[..0] == "";
    } else {
      assert z[..|z| - 1] == "0" + s[..|s| - 1];
      LeadingZero(s[..|s| - 1], base);
    }
  }

  /** A numeral holds digits and lower-case letters only. */
  lemma {:induction false} NumeralCharacters(n: nat, base: Base)
    ensures forall c :: c in Numeral(n, base) ==> '0' <= c <= '9' || 'a' <= c <= 'z'
    decreases n
  {
    DivMod(n, base);
    if n >= base {
      NumeralCharacters(n / base, base);
    }
  }
}
