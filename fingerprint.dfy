/**
 * The browser fingerprint id of app/page.tsx (`generateFingerprint`): a 32-bit
 * hash folded over the UTF-16 code units of the serialized fingerprint,
 * printed as "fp-" followed by the base-36 digits of its absolute value.
 * Collecting and serializing the browser data is outside the model; the
 * serialized string is the input.
 */
module Fingerprint {
  import opened JsText

  const TwoTo31: int := 0x8000_0000
  const TwoTo32: int := 0x1_0000_0000

  predicate IsInt32(x: int)
  {
    -TwoTo31 <= x < TwoTo31
  }

  /** ECMAScript ToInt32 of an integral number: the int32 congruent to x modulo 2^32. */
  function ToInt32(x: int): (r: int)
    ensures IsInt32(r)
    ensures (r - x) % TwoTo32 == 0
  {
    var m := x % TwoTo32;
    if m >= TwoTo31 then m - TwoTo32 else m
  }

  lemma ToInt32Congruent(x: int, y: int)
    requires (x - y) % TwoTo32 == 0
    ensures ToInt32(x) == ToInt32(y)
  {
    var k := (x - y) / TwoTo32;
    assert x == y + TwoTo32 * k;
    assert x % TwoTo32 == y % TwoTo32;
  }

  lemma ToInt32OfInt32(x: int)
    requires IsInt32(x)
    ensures ToInt32(x) == x
  {
    ToInt32Congruent(x, ToInt32(x));
  }

  /** A multiple of 2^32 and its quotient. */
  lemma MultipleOf(d: int)
    requires d % TwoTo32 == 0
    ensures d == TwoTo32 * (d / TwoTo32)
  {
  }

  lemma MultipleIs(d: int, k: int)
    requires d == TwoTo32 * k
    ensures d % TwoTo32 == 0
  {
  }

  /** `x << 5`: both operand and result are converted to int32. */
  function ShiftLeft5(x: int): (r: int)
    ensures IsInt32(r)
    ensures (r - 32 * x) % TwoTo32 == 0
  {
    var y := ToInt32(x);
    MultipleOf(y - x);
    var r := ToInt32(y * 32);
    MultipleOf(r - y * 32);
    MultipleIs(r - 32 * x, (r - y * 32) / TwoTo32 + 32 * ((y - x) / TwoTo32));
    r
  }

  /**
   * One pass of the loop body as written: `hash = ((hash << 5) - hash) + char`
   * (exact in double arithmetic, the magnitude stays below 2^33) followed by
   * `hash = hash & hash`, which is ToInt32.
   */
  function Step(hash: int, c: CodeUnit): (r: int)
    ensures IsInt32(r)
    ensures (r - (31 * hash + c)) % TwoTo32 == 0
  {
    var s := ShiftLeft5(hash);
    MultipleOf(s - 32 * hash);
    var r := ToInt32((s - hash) + c);
    MultipleOf(r - ((s - hash) + c));
    MultipleIs(r - (31 * hash + c), (r - ((s - hash) + c)) / TwoTo32 + (s - 32 * hash) / TwoTo32);
    r
  }

  /** The loop step is the Java `hashCode` step `31 * hash + c` reduced to int32. */
  lemma StepIsTimes31(hash: int, c: CodeUnit)
    ensures IsInt32(Step(hash, c))
    ensures Step(hash, c) == ToInt32(31 * hash + c)
  {
    ToInt32OfInt32(Step(hash, c));
    ToInt32Congruent(Step(hash, c), 31 * hash + c);
  }

  /** The hash of s, as the loop leaves it: a left fold of the step from 0. */
  function HashFold(s: JsString): (h: int)
    ensures IsInt32(h)
  {
    if |s| == 0 then 0 else ToInt32(31 * HashFold(s[..|s| - 1]) + s[|s| - 1])
  }

  function Pow(base: nat, n: nat): nat
  {
    if n == 0 then 1 else base * Pow(base, n - 1)
  }

  /** Java's definition of `String.hashCode` before the wrap: s[0]*31^(n-1) + ... + s[n-1]. */
  function JavaSum(s: JsString): int
  {
    if |s| == 0 then 0 else s[0] * Pow(31, |s| - 1) + JavaSum(s[1..])
  }

  lemma {:induction false} JavaSumSnoc(s: JsString, c: CodeUnit)
    ensures JavaSum(s + [c]) == 31 * JavaSum(s) + c
  {
    if |s| == 0 {
      assert s + [c] == [c];
      assert JavaSum([c]) == c * Pow(31, 0) + JavaSum([]);
    } else {
      var t := s + [c];
      assert t[1..] == s[1..] + [c];
      JavaSumSnoc(s[1..], c);
      assert Pow(31, |t| - 1) == 31 * Pow(31, |s| - 1);
      calc {
        JavaSum(t);
        s[0] * Pow(31, |t| - 1) + JavaSum(s[1..] + [c]);
        s[0] * (31 * Pow(31, |s| - 1)) + 31 * JavaSum(s[1..]) + c;
        { assert s[0] * (31 * Pow(31, |s| - 1)) == 31 * (s[0] * Pow(31, |s| - 1)); }
        31 * (s[0] * Pow(31, |s| - 1) + JavaSum(s[1..])) + c;
      }
    }
  }

  /** Congruent hashes stay congruent through one step. */
  lemma StepCongruent(h: int, j: int, c: int)
    requires (h - j) % TwoTo32 == 0
    ensures ToInt32(31 * h + c) == ToInt32(31 * j + c)
  {
    var k := (h - j) / TwoTo32;
    assert h - j == TwoTo32 * k;
    assert (31 * h + c) - (31 * j + c) == TwoTo32 * (31 * k);
    ToInt32Congruent(31 * h + c, 31 * j + c);
  }

  /** The fold computes Java's `String.hashCode`: the polynomial in 31 reduced to int32. */
  lemma {:induction false} HashIsJavaHashCode(s: JsString)
    ensures HashFold(s) == ToInt32(JavaSum(s))
  {
    if |s| > 0 {
      var init, c := s[..|s| - 1], s[|s| - 1];
      assert s == init + [c];
      HashIsJavaHashCode(init);
      JavaSumSnoc(init, c);
      StepCongruent(HashFold(init), JavaSum(init), c);
    }
  }

  /** `Math.abs` on an integral number. */
  function Abs(x: int): (r: nat)
    ensures r == x || r == -x
  {
    if x < 0 then -x else x
  }

  // ------------------------------------------------------------- base 36

  predicate IsBase36Digit(c: CodeUnit)
  {
    '0' as int <= c <= '9' as int || 'a' as int <= c <= 'z' as int
  }

  /** The digit `Number.prototype.toString(36)` prints for d: 0-9, then lower-case a-z. */
  function Digit(d: nat): (c: CodeUnit)
    requires d < 36
    ensures IsBase36Digit(c)
  {
    if d < 10 then '0' as int + d else 'a' as int + (d - 10)
  }

  function DigitValue(c: CodeUnit): (d: nat)
    requires IsBase36Digit(c)
    ensures d < 36 && Digit(d) == c
  {
    if c <= '9' as int then c - '0' as int else c - 'a' as int + 10
  }

  /** The number a string of base-36 digits denotes, most significant first. */
  function Value(digits: JsString): nat
    requires forall i :: 0 <= i < |digits| ==> IsBase36Digit(digits[i])
  {
    if |digits| == 0 then 0 else 36 * Value(digits[..|digits| - 1]) + DigitValue(digits[|digits| - 1])
  }

  /**
   * `n.toString(36)`: at least one digit, no leading zero, and the digits
   * denote n.
   */
  function Base36(n: nat): (r: JsString)
    ensures |r| >= 1
    ensures forall i :: 0 <= i < |r| ==> IsBase36Digit(r[i])
    ensures |r| > 1 ==> r[0] != '0' as int
    ensures Value(r) == n
    decreases n
  {
    if n < 36 then [Digit(n)]
    else
      var high := Base36(n / 36);
      var r := high + [Digit(n % 36)];
      assert r[..|r| - 1] == high;
      r
  }

  /** A number below 36^k has at most k digits. */
  lemma {:induction false} Base36Length(n: nat, k: nat)
    requires k >= 1 && n < Pow(36, k)
    ensures |Base36(n)| <= k
  {
    if n >= 36 {
      assert Pow(36, 0) == 1;
      assert Pow(36, k) == 36 * Pow(36, k - 1);
      assert n / 36 < Pow(36, k - 1);
      Base36Length(n / 36, k - 1);
    }
  }

  // ---------------------------------------------------------- the id

  const IdPrefix: JsString := Ascii("fp-")

  /** What `generateFingerprint` returns for the serialized fingerprint str. */
  function FingerprintId(str: JsString): (id: JsString)
    ensures |id| >= 4 && id[..3] == IdPrefix
  {
    IdPrefix + Base36(Abs(HashFold(str)))
  }

  /** "fp-" followed by one to six lower-case base-36 digits without a leading zero. */
  predicate IsFingerprintId(id: JsString)
  {
    4 <= |id| <= 9 && id[..3] == IdPrefix &&
    (forall i :: 3 <= i < |id| ==> IsBase36Digit(id[i])) &&
    (|id| > 4 ==> id[3] != '0' as int)
  }

  /** Every id has that shape, since |hash| <= 2^31 < 36^6, and its digits give back |hash|. */
  lemma FingerprintIdShape(str: JsString)
    ensures IsFingerprintId(FingerprintId(str))
    ensures Value(FingerprintId(str)[3..]) == Abs(HashFold(str))
  {
    var digits := Base36(Abs(HashFold(str)));
    assert Pow(36, 6) == 2176782336;
    Base36Length(Abs(HashFold(str)), 6);
    var id := FingerprintId(str);
    assert id[3..] == digits;
    assert id[..3] == IdPrefix;
  }

  /** The empty string hashes to 0, so its id is "fp-0". */
  lemma EmptyFingerprint()
    ensures FingerprintId([]) == Ascii("fp-0")
  {
    assert Base36(0) == ['0' as int];
  }

  /** `generateFingerprint` (lines 49-58) from the serialized string on. */
  method GenerateFingerprint(str: JsString) returns (id: JsString)
    ensures id == FingerprintId(str)
    ensures IsFingerprintId(id)
  {
    var hash := 0;
    var i := 0;
    while i < |str|
      invariant 0 <= i <= |str|
      invariant IsInt32(hash)
      invariant hash == HashFold(str[..i])
    {
      var code := str[i];
      StepIsTimes31(hash, code);
      hash := (ShiftLeft5(hash) - hash) + code;
      hash := ToInt32(hash);   // hash & hash
      assert str[..i + 1][..i] == str[..i];
      i := i + 1;
    }
    assert str[..|str|] == str;
    id := IdPrefix + Base36(Abs(hash));
    FingerprintIdShape(str);
  }
}
