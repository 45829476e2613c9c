/**
 * The parts of java.lang that the modelled code relies on: the ranges of `int`
 * and `long`, two's-complement wrap-around, `String.hashCode`, `Objects.hash`,
 * decimal rendering and `Long.parseLong`.
 */
module JavaLang {
  import opened Wrappers

  const INT_MIN: int := -0x8000_0000
  const INT_MAX: int := 0x7fff_ffff
  const LONG_MIN: int := -0x8000_0000_0000_0000
  const LONG_MAX: int := 0x7fff_ffff_ffff_ffff

  predicate IsInt(x: int) { INT_MIN <= x <= INT_MAX }
  predicate IsLong(x: int) { LONG_MIN <= x <= LONG_MAX }

  type Int = x: int | IsInt(x)
  type Long = x: int | IsLong(x)

  /** The Java `int` that `x` becomes when it is computed in 32-bit arithmetic. */
  function Wrap32(x: int): (r: Int)
    ensures (r - x) % 0x1_0000_0000 == 0
    ensures IsInt(x) ==> r == x
  {
    var m := x % 0x1_0000_0000;
    if m > INT_MAX then m - 0x1_0000_0000 else m
  }

  /** Java's `a / d` on `int`: the quotient rounded toward zero. */
  function TruncDiv(a: int, d: int): (q: int)
    requires d > 0
    ensures 0 <= a ==> q == a / d
    ensures a < 0 ==> q == 0 - (0 - a) / d
  {
    if a >= 0 then a / d else 0 - (0 - a) / d
  }

  /** `String.hashCode`: h = 31 * h + c over the characters, in `int` arithmetic. */
  function StringHash(s: string): Int
  {
    if s == [] then 0 else Wrap32(31 * StringHash(s[..|s| - 1]) + s[|s| - 1] as int)
  }

  /** `Arrays.hashCode` of a list whose elements hash to `hs` (and so `Objects.hash`). */
  function ListHash(hs: seq<int>): Int
  {
    if hs == [] then 1 else Wrap32(31 * ListHash(hs[..|hs| - 1]) + hs[|hs| - 1])
  }

  /** Two values congruent modulo 2^32 become the same `int`. */
  lemma Wrap32Congruent(a: int, b: int)
    requires (a - b) % 0x1_0000_0000 == 0
    ensures Wrap32(a) == Wrap32(b)
  {
    var t := (a - b) / 0x1_0000_0000;
    assert a == b + 0x1_0000_0000 * t;
    assert a % 0x1_0000_0000 == b % 0x1_0000_0000;
  }

  /** Wrapping an intermediate result of `k * x + y` does not change the final `int`. */
  lemma Wrap32Step(k: int, x: int, y: int)
    ensures Wrap32(k * Wrap32(x) + y) == Wrap32(k * x + y)
  {
    var t := (Wrap32(x) - x) / 0x1_0000_0000;
    assert Wrap32(x) - x == 0x1_0000_0000 * t;
    assert (k * Wrap32(x) + y) - (k * x + y) == 0x1_0000_0000 * (k * t);
    Wrap32Congruent(k * Wrap32(x) + y, k * x + y);
  }

  /** `Objects.hash(a)` is `31 + a` in `int` arithmetic. */
  lemma ObjectsHash1(a: int)
    ensures ListHash([a]) == Wrap32(31 + a)
  {
    assert [a][..0] == [];
  }

  /** `Objects.hash(a, b)` is `31^2 + 31 a + b` in `int` arithmetic. */
  lemma ObjectsHash2(a: int, b: int)
    ensures ListHash([a, b]) == Wrap32(961 + 31 * a + b)
  {
    assert [a, b][..1] == [a];
    ObjectsHash1(a);
    Wrap32Step(31, 31 + a, b);
  }

  /** `Objects.hash(a, b, c)` is `31^3 + 31^2 a + 31 b + c` in `int` arithmetic. */
  lemma ObjectsHash3(a: int, b: int, c: int)
    ensures ListHash([a, b, c]) == Wrap32(29791 + 961 * a + 31 * b + c)
  {
    assert [a, b, c][..2] == [a, b];
    ObjectsHash2(a, b);
    Wrap32Step(31, 961 + 31 * a + b, c);
  }

  /** `Long.hashCode(v)`: the low 32 bits of `v ^ (v >>> 32)`, read as an `int`. */
  function LongHash(v: Long): Int
  {
    var b := (v % 0x1_0000_0000_0000_0000) as bv64;
    var folded := b ^ (b >> 32);
    Wrap32((folded & 0xffff_ffff) as int)
  }

  // ---------------------------------------------------------------------------
  // Decimal digits

  predicate IsDigit(c: char) { '0' <= c <= '9' }

  function DigitValue(c: char): nat
    requires IsDigit(c)
  {
    c as nat - '0' as nat
  }

  function DigitChar(d: nat): (c: char)
    requires d < 10
    ensures IsDigit(c) && DigitValue(c) == d
  {
    ('0' as nat + d) as char
  }

  /** The decimal rendering of `n` that `String.format("%d")` and `Long.toString` produce. */
  function NatToString(n: nat): (s: string)
    ensures |s| > 0 && forall i :: 0 <= i < |s| ==> IsDigit(s[i])
    decreases n
  {
    if n < 10 then [DigitChar(n)] else NatToString(n / 10) + [DigitChar(n % 10)]
  }

  /** The number a string of decimal digits denotes. */
  function DigitsValue(s: string): nat
    requires forall i :: 0 <= i < |s| ==> IsDigit(s[i])
  {
    if s == [] then 0 else 10 * DigitsValue(s[..|s| - 1]) + DigitValue(s[|s| - 1])
  }

  lemma {:induction false} DigitsOfNatToString(n: nat)
    ensures DigitsValue(NatToString(n)) == n
    decreases n
  {
    if n >= 10 {
      var s := NatToString(n);
      assert s[..|s| - 1] == NatToString(n / 10);
      DigitsOfNatToString(n / 10);
    }
  }

  /** `Long.toString(v)`. */
  function LongToString(v: Long): string
  {
    if v < 0 then "-" + NatToString(0 - v as int) else NatToString(v)
  }

  datatype NumberFormatException = NumberFormatException(input: string)

  /**
   * `Long.parseLong(s)` for ASCII input: an optional sign, one or more decimal
   * digits, and a value in the range of `long`; anything else throws.
   */
  function ParseLong(s: string): (r: Result<Long, NumberFormatException>)
    ensures r.Ok? ==> |s| > 0
  {
    var negative := |s| > 0 && s[0] == '-';
    var start := if |s| > 0 && (s[0] == '-' || s[0] == '+') then 1 else 0;
    var digits := s[start..];
    if digits == [] || !(forall i :: 0 <= i < |digits| ==> IsDigit(digits[i])) then
      Err(NumberFormatException(s))
    else
      var magnitude := DigitsValue(digits);
      var v: int := if negative then 0 - magnitude else magnitude;
      if IsLong(v) then Ok(v) else Err(NumberFormatException(s))
  }

  /** `Long.parseLong` inverts `Long.toString` on every `long`. */
  lemma ParseLongOfToString(v: Long)
    ensures ParseLong(LongToString(v)) == Ok(v)
  {
    var s := LongToString(v);
    if v < 0 {
      DigitsOfNatToString(0 - v as int);
      assert s[1..] == NatToString(0 - v as int);
    } else {
      DigitsOfNatToString(v);
      assert s[0] != '-' && s[0] != '+';
      assert s[0..] == s;
    }
  }

  /** Java's `String.toLowerCase` on the ASCII letters the enum names use. */
  function ToLowerAscii(s: string): (r: string)
    ensures |r| == |s|
    ensures forall i :: 0 <= i < |s| ==>
      r[i] == (if 'A' <= s[i] <= 'Z' then (s[i] as int + 32) as char else s[i])
  {
    if s == [] then []
    else [if 'A' <= s[0] <= 'Z' then (s[0] as int + 32) as char else s[0]] + ToLowerAscii(s[1..])
  }
}
