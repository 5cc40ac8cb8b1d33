/**
  Fixed-width integers as the Rust source uses them, Rust's truncating
  division, and the textual renderings of numbers produced by Rust's
  formatting machinery (decimal and lower-case hex, with zero padding).
*/
module Numbers {

  type byte = x: int | 0 <= x < 0x100
  type u8 = x: int | 0 <= x < 0x100
  type u16 = x: int | 0 <= x < 0x1_0000
  type i32 = x: int | -0x8000_0000 <= x < 0x8000_0000

  /** The two radixes the source prints numbers in. */
  type Radix = b: nat | b == 10 || b == 16 witness 10

  /** Rust's `x as u16`: keep the low 16 bits. */
  function AsU16(x: int): u16 { x % 0x1_0000 }

  /** Rust's `x as u8`: keep the low 8 bits. */
  function AsU8(x: int): u8 { x % 0x100 }

  /** Rust's `/` on signed integers, which rounds toward zero. */
  function Quot(a: int, b: int): int
    requires b > 0
  {
    if a >= 0 then a / b else -((-a) / b)
  }

  /** Rust's `%` on signed integers: the remainder takes the sign of `a`. */
  function Rem(a: int, b: int): (r: int)
    requires b > 0
    ensures a == b * Quot(a, b) + r
    ensures a >= 0 ==> 0 <= r < b
    ensures a < 0 ==> -b < r <= 0
  {
    a - b * Quot(a, b)
  }

  // ---------------------------------------------------------------------
  // Digits in base 10 and base 16 (lower case)

  /** The value of a digit character, or 16 for a character that is no digit. */
  function CharDigit(c: char): nat
  {
    if '0' <= c <= '9' then c as int - '0' as int
    else if 'a' <= c <= 'f' then c as int - 'a' as int + 10
    else 16
  }

  function DigitChar(d: nat): (c: char)
    requires d < 16
    ensures CharDigit(c) == d
  {
    if d < 10 then ('0' as int + d) as char else ('a' as int + d - 10) as char
  }

  predicate IsDigit(c: char) { '0' <= c <= '9' }

  predicate AllDigitsIn(s: string, base: Radix)
  {
    forall i :: 0 <= i < |s| ==> CharDigit(s[i]) < base
  }

  /** The number a string of digits denotes, most significant digit first. */
  function Value(s: string, base: Radix): nat
    requires AllDigitsIn(s, base)
    decreases |s|
  {
    if s == [] then 0 else Value(s[..|s| - 1], base) * base + CharDigit(s[|s| - 1])
  }

  /** The shortest rendering of `n` in `base`, as Rust's decimal and lower-case hex formatting print it. */
  function Render(n: nat, base: Radix): (s: string)
    ensures |s| >= 1 && AllDigitsIn(s, base)
    ensures n > 0 ==> s[0] != '0'
    ensures n == 0 ==> s == "0"
    decreases n
  {
    if n < base then [DigitChar(n)] else Render(n / base, base) + [DigitChar(n % base)]
  }

  function Decimal(n: nat): string { Render(n, 10) }

  function LowerHex(n: nat): string { Render(n, 16) }

  /** Rust's `{}` on a signed integer. */
  function SignedDecimal(x: int): string
  {
    if x < 0 then "-" + Decimal(-x) else Decimal(x)
  }

  function Zeros(k: nat): (s: string)
    ensures |s| == k && forall i :: 0 <= i < k ==> s[i] == '0'
  {
    seq(k, _ => '0')
  }

  /** Rust's zero padding to a width: zeros on the left up to `width` characters. */
  function ZeroPad(s: string, width: nat): (r: string)
    ensures |r| == if |s| >= width then |s| else width
  {
    if |s| >= width then s else Zeros(width - |s|) + s
  }

  /** Reading back a rendering gives the number that was rendered. */
  lemma {:induction false} RenderValue(n: nat, base: Radix)
    ensures Value(Render(n, base), base) == n
    decreases n
  {
    var s := Render(n, base);
    if n >= base {
      RenderValue(n / base, base);
      assert s[..|s| - 1] == Render(n / base, base);
    }
  }

  /** A string of digits with a non-zero leading digit has a positive value. */
  lemma {:induction false} LeadingDigitPositive(s: string, base: Radix)
    requires AllDigitsIn(s, base) && s != [] && s[0] != '0'
    ensures Value(s, base) >= 1
    decreases |s|
  {
    if |s| > 1 {
      LeadingDigitPositive(s[..|s| - 1], base);
    } else {
      assert CharDigit(s[0]) != 0;
    }
  }

  /** Rendering the value of a string of digits without leading zeros gives the string back. */
  lemma {:induction false} CanonicalRender(s: string, base: Radix)
    requires AllDigitsIn(s, base) && s != []
    requires s[0] != '0' || |s| == 1
    ensures Render(Value(s, base), base) == s
    decreases |s|
  {
    var init, c := s[..|s| - 1], s[|s| - 1];
    var v := Value(s, base);
    if |s| == 1 {
      assert v == CharDigit(c) && DigitChar(CharDigit(c)) == c;
    } else {
      CanonicalRender(init, base);
      LeadingDigitPositive(init, base);
      assert v / base == Value(init, base) && v % base == CharDigit(c);
      assert DigitChar(CharDigit(c)) == c;
    }
  }

  /** Leading zeros do not change the value of a string of digits. */
  lemma {:induction false} ZerosValue(k: nat, s: string, base: Radix)
    requires AllDigitsIn(s, base)
    ensures AllDigitsIn(Zeros(k) + s, base)
    ensures Value(Zeros(k) + s, base) == Value(s, base)
    decreases |s|
  {
    var z := Zeros(k);
    if s == [] {
      assert z + s == z;
      ZerosOnlyValue(k, base);
    } else {
      ZerosValue(k, s[..|s| - 1], base);
      assert (z + s)[..|z + s| - 1] == z + s[..|s| - 1];
    }
  }

  lemma {:induction false} ZerosOnlyValue(k: nat, base: Radix)
    ensures AllDigitsIn(Zeros(k), base) && Value(Zeros(k), base) == 0
  {
    if k > 0 {
      ZerosOnlyValue(k - 1, base);
      assert Zeros(k)[..k - 1] == Zeros(k - 1);
    }
  }

  /** A rendering has at most `digits` characters when `n` is below `base` to the power `digits`. */
  lemma {:induction false} RenderLength(n: nat, base: Radix, digits: nat)
    requires digits >= 1 && n < Pow(base, digits)
    ensures |Render(n, base)| <= digits
    decreases digits
  {
    if n >= base {
      assert Pow(base, 1) == base;
      assert digits > 1;
      assert n / base < Pow(base, digits - 1);
      RenderLength(n / base, base, digits - 1);
    }
  }

  function Pow(base: Radix, k: nat): nat
  {
    if k == 0 then 1 else base * Pow(base, k - 1)
  }

  /** The ASCII bytes of a string whose characters are all below 256. */
  function AsciiBytes(s: string): (b: seq<byte>)
    requires forall i :: 0 <= i < |s| ==> s[i] as int < 0x100
    ensures |b| == |s| && forall i :: 0 <= i < |s| ==> b[i] == s[i] as int
  {
    seq(|s|, i requires 0 <= i < |s| => s[i] as int as byte)
  }
}
