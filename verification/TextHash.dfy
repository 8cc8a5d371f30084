/**
 The two rolling text hashes: the unsigned one of the local work loop, printed in base 16, and the
 signed one of the work surface preview, printed in base 36.
 */
module TextHash {
  import opened Numerals

  /** A UTF-16 code unit, as `charCodeAt` returns it. */
  type CodeUnit = c: int | 0 <= c < 0x1_0000

  const WORD := 0x1_0000_0000

  /** Above this bound a JavaScript number is no longer an exact integer. */
  const SAFE_INTEGER := 0x20_0000_0000_0000

  /** `x >>> 0` */
  function ToUint32(x: int): int
  {
    x % WORD
  }

  /** `x | 0` */
  function ToInt32(x: int): int
  {
    if x % WORD < 0x8000_0000 then x % WORD else x % WORD - WORD
  }

  /** `x << 5` */
  function ShiftLeft5(x: int): int
  {
    ToInt32(x * 32)
  }

  /** The sum of `text[i] * 31^(n-1-i)`, the number both hashes stand for. */
  function Polynomial(text: seq<CodeUnit>): nat
  {
    if text == [] then 0 else text[0] * Pow(31, |text| - 1) + Polynomial(text[1..])
  }

  lemma {:induction false} Horner(text: seq<CodeUnit>, c: CodeUnit)
    ensures Polynomial(text + [c]) == 31 * Polynomial(text) + c
  {
    if text == [] {
      assert Polynomial([c]) == c * Pow(31, 0) + Polynomial([]);
    } else {
      var n := |text|;
      assert (text + [c])[1..] == text[1..] + [c];
      Horner(text[1..], c);
      assert Pow(31, n) == 31 * Pow(31, n - 1);
      assert text[0] * (31 * Pow(31, n - 1)) == 31 * (text[0] * Pow(31, n - 1));
    }
  }

  /** One turn of the unsigned loop multiplies by 31 and never leaves the exact integers. */
  lemma UnsignedStep(p: nat, c: CodeUnit)
    ensures ToUint32(ToUint32(p) * 31 + c) == ToUint32(31 * p + c)
    ensures ToUint32(p) * 31 + c < SAFE_INTEGER
  {
    assert 31 * p + c == (p % WORD) * 31 + c + WORD * (31 * (p / WORD));
  }

  /** A signed word differs from the number it was cut from by a multiple of 2^32. */
  lemma ToInt32Wraps(x: int) returns (k: int)
    ensures ToInt32(x) == x + WORD * k
  {
    k := if x % WORD < 0x8000_0000 then -(x / WORD) else -(x / WORD) - 1;
  }

  lemma ToInt32Periodic(x: int, k: int)
    ensures ToInt32(x + WORD * k) == ToInt32(x)
  {
    assert (x + WORD * k) % WORD == x % WORD;
  }

  /** One turn of the signed loop multiplies by 31, however often the words wrapped, and stays exact. */
  lemma SignedStep(p: nat, c: CodeUnit)
    ensures ToInt32(ShiftLeft5(ToInt32(p)) - ToInt32(p) + c) == ToInt32(31 * p + c)
    ensures -SAFE_INTEGER < ShiftLeft5(ToInt32(p)) - ToInt32(p) + c < SAFE_INTEGER
  {
    var j := ToInt32Wraps(p);
    var k := ToInt32Wraps(ToInt32(p) * 32);
    ToInt32Periodic(31 * p + c, 31 * j + k);
  }

  /** `s.slice(0, 8)` */
  function Slice8(s: string): string
  {
    if |s| <= 8 then s else s[..8]
  }

  /** `hash.toString(16).padStart(8, "0").slice(0, 8)` */
  function UnsignedText(text: seq<CodeUnit>): string
  {
    Slice8(PadStart(Numeral(ToUint32(Polynomial(text)), 16), 8))
  }

  function Abs(x: int): nat
  {
    if x < 0 then -x else x
  }

  /** `Math.abs(hash).toString(36).padStart(6, "0").slice(0, 8)` */
  function SignedText(text: seq<CodeUnit>): string
  {
    Slice8(PadStart(Numeral(Abs(ToInt32(Polynomial(text))), 36), 6))
  }

  /**
   `hashText` of the local work loop. Every step stays an exact JavaScript integer, and the text
   printed is that of the polynomial mod 2^32.
   */
  method LocalLoopHashText(text: seq<CodeUnit>) returns (r: string)
    ensures r == UnsignedText(text)
  {
    var hash: nat := 0;
    for i := 0 to |text|
      invariant hash == ToUint32(Polynomial(text[..i]))
    {
      Horner(text[..i], text[i]);
      UnsignedStep(Polynomial(text[..i]), text[i]);
      assert text[..i + 1] == text[..i] + [text[i]];
      hash := ToUint32(hash * 31 + text[i]);
    }
    assert text[..|text|] == text;
    r := Slice8(PadStart(Numeral(hash, 16), 8));
  }

  /** `hashText` of the work surface preview: the same polynomial, as a signed word. */
  method PreviewHashText(text: seq<CodeUnit>) returns (r: string)
    ensures r == SignedText(text)
  {
    var hash := 0;
    for i := 0 to |text|
      invariant hash == ToInt32(Polynomial(text[..i]))
    {
      Horner(text[..i], text[i]);
      SignedStep(Polynomial(text[..i]), text[i]);
      assert text[..i + 1] == text[..i] + [text[i]];
      hash := ToInt32(ShiftLeft5(hash) - hash + text[i]);
    }
    assert text[..|text|] == text;
    r := Slice8(PadStart(Numeral(Abs(hash), 36), 6));
  }

  // ---------- the promises about the two renderings ----------

  /** The base-16 text is exactly eight digits and reads back as the hash. */
  lemma UnsignedTextFixed(text: seq<CodeUnit>)
    ensures |UnsignedText(text)| == 8
    ensures Value(UnsignedText(text), 16) == ToUint32(Polynomial(text))
  {
    var h := ToUint32(Polynomial(text));
    assert Pow(16, 8) == WORD by { PowTable(); }
    NumeralLength(h, 16, 8);
    NumeralValue(h, 16);
    PadStartValue(Numeral(h, 16), 8, 16);
  }

  /** The base-36 text is exactly six digits, so cutting it at eight never loses one. */
  lemma SignedTextFixed(text: seq<CodeUnit>)
    ensures |SignedText(text)| == 6
    ensures Value(SignedText(text), 36) == Abs(ToInt32(Polynomial(text)))
  {
    var h := Abs(ToInt32(Polynomial(text)));
    assert h < Pow(36, 6) by { PowTable(); }
    NumeralLength(h, 36, 6);
    NumeralValue(h, 36);
    PadStartValue(Numeral(h, 36), 6, 36);
  }

  lemma PowTable()
    ensures Pow(16, 8) == WORD
    ensures Pow(36, 6) == 2_176_782_336
  {
    assert Pow(16, 4) == 65_536;
    assert Pow(16, 8) == 16 * (16 * (16 * (16 * Pow(16, 4))));
    assert Pow(36, 3) == 46_656;
    assert Pow(36, 6) == 36 * (36 * (36 * Pow(36, 3)));
  }

  lemma SameTexts(a: seq<CodeUnit>, b: seq<CodeUnit>)
    ensures UnsignedText(a) == UnsignedText(b) <==> Polynomial(a) % WORD == Polynomial(b) % WORD
    ensures SignedText(a) == SignedText(b) <==> Abs(ToInt32(Polynomial(a))) == Abs(ToInt32(Polynomial(b)))
  {
    UnsignedTextFixed(a);
    UnsignedTextFixed(b);
    SignedTextFixed(a);
    SignedTextFixed(b);
  }

  lemma SameResidue(a: nat, b: nat)
    ensures a % WORD == b % WORD <==> (a - b) % WORD == 0
  {
  }

  lemma SameMagnitudeWord(x: int, y: int)
    requires -0x8000_0000 <= x < 0x8000_0000 && -0x8000_0000 <= y < 0x8000_0000
    ensures Abs(x) == Abs(y) <==> (x - y) % WORD == 0 || (x + y) % WORD == 0
  {
  }

  lemma SameMagnitude(a: nat, b: nat)
    ensures Abs(ToInt32(a)) == Abs(ToInt32(b)) <==> (a - b) % WORD == 0 || (a + b) % WORD == 0
  {
    var j := ToInt32Wraps(a);
    var k := ToInt32Wraps(b);
    SameMagnitudeWord(ToInt32(a), ToInt32(b));
    Divides(a - b, ToInt32(a) - ToInt32(b), k - j);
    Divides(a + b, ToInt32(a) + ToInt32(b), -k - j);
  }

  lemma Divides(n: int, m: int, k: int)
    requires n == m + WORD * k
    ensures n % WORD == 0 <==> m % WORD == 0
  {
  }

  /** Two texts get the same base-16 text exactly when their polynomials agree mod 2^32. */
  lemma UnsignedTextEqual(a: seq<CodeUnit>, b: seq<CodeUnit>)
    ensures UnsignedText(a) == UnsignedText(b)
       <==> (Polynomial(a) - Polynomial(b)) % WORD == 0
  {
    SameTexts(a, b);
    SameResidue(Polynomial(a), Polynomial(b));
  }

  /** The base-36 text forgets the sign as well: it also identifies opposite polynomials. */
  lemma SignedTextEqual(a: seq<CodeUnit>, b: seq<CodeUnit>)
    ensures SignedText(a) == SignedText(b)
       <==> (Polynomial(a) - Polynomial(b)) % WORD == 0 || (Polynomial(a) + Polynomial(b)) % WORD == 0
  {
    SameTexts(a, b);
    SameMagnitude(Polynomial(a), Polynomial(b));
  }

  /** The polynomial as the loop accumulates it, without wrapping. */
  function Accumulated(text: seq<CodeUnit>, n: nat): nat
    requires n <= |text|
  {
    if n == 0 then 0 else 31 * Accumulated(text, n - 1) + text[n - 1]
  }

  lemma {:induction false} HornerRun(text: seq<CodeUnit>, n: nat)
    requires n <= |text|
    ensures Polynomial(text[..n]) == Accumulated(text, n)
  {
    if n > 0 {
      HornerRun(text, n - 1);
      Horner(text[..n - 1], text[n - 1]);
      assert text[..n] == text[..n - 1] + [text[n - 1]];
    }
  }

  /** So the preview hash never separates two texts the record hash identifies ... */
  lemma SignedCoarser(a: seq<CodeUnit>, b: seq<CodeUnit>)
    requires UnsignedText(a) == UnsignedText(b)
    ensures SignedText(a) == SignedText(b)
  {
    UnsignedTextEqual(a, b);
    SignedTextEqual(a, b);
  }

  lemma OppositeTextsCollide(a: seq<CodeUnit>, b: seq<CodeUnit>)
    requires Polynomial(a) == 1 && Polynomial(b) == WORD - 1
    ensures SignedText(a) == SignedText(b) && UnsignedText(a) != UnsignedText(b)
  {
    UnsignedTextEqual(a, b);
    SignedTextEqual(a, b);
  }

  lemma MinusOne(text: seq<CodeUnit>)
    requires text == [4650, 19, 29, 24, 3]
    ensures Polynomial(text) == WORD - 1
  {
    HornerRun(text, 5);
    assert text[..5] == text;
    assert Accumulated(text, 1) == 31 * Accumulated(text, 0) + 4650;
    assert Accumulated(text, 2) == 31 * Accumulated(text, 1) + 19;
    assert Accumulated(text, 3) == 31 * Accumulated(text, 2) + 29;
    assert Accumulated(text, 4) == 31 * Accumulated(text, 3) + 24;
  }

  /** ... but it does identify texts the record hash separates. */
  lemma SignedStrictlyCoarser()
    ensures exists a: seq<CodeUnit>, b: seq<CodeUnit> ::
      SignedText(a) == SignedText(b) && UnsignedText(a) != UnsignedText(b)
  {
    var a: seq<CodeUnit> := [1];
    var b: seq<CodeUnit> := [4650, 19, 29, 24, 3];
    MinusOne(b);
    Horner([], 1);
    assert [] + [1] == a;
    OppositeTextsCollide(a, b);
  }
}
