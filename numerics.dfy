/** Number formats of the C# code: 32-bit `int` with unchecked (wrapping)
    arithmetic, and the few real-valued helpers (`Mathf.Abs`, `Mathf.Min`,
    `Mathf.Max`) used over idealised coordinates. */
module Numerics {

  const TWO_POW_31: int := 0x8000_0000
  const TWO_POW_32: int := 0x1_0000_0000

  /** C#'s `int`. */
  newtype int32 = x: int | -0x8000_0000 <= x < 0x8000_0000

  /** Reduces a mathematical integer to the 32-bit two's-complement value with
      the same low 32 bits, as an unchecked C# conversion does. */
  function Wrap(x: int): (r: int32)
    ensures (r as int - x) % TWO_POW_32 == 0
    ensures -TWO_POW_31 <= x < TWO_POW_31 ==> r as int == x
  {
    (((x + TWO_POW_31) % TWO_POW_32) - TWO_POW_31) as int32
  }

  /** `a + b` on C# `int` in an unchecked context. */
  function WrapAdd(a: int32, b: int32): (r: int32)
    ensures (r as int - (a as int + b as int)) % TWO_POW_32 == 0
    ensures -TWO_POW_31 <= a as int + b as int < TWO_POW_31 ==> r as int == a as int + b as int
  {
    Wrap(a as int + b as int)
  }

  /** Two integers that agree modulo 2^32 wrap to the same `int`. */
  lemma {:induction false} WrapCongruent(x: int, y: int)
    requires (x - y) % TWO_POW_32 == 0
    ensures Wrap(x) == Wrap(y)
  {
    var k := (x - y) / TWO_POW_32;
    assert x == y + k * TWO_POW_32;
    assert (x + TWO_POW_31) % TWO_POW_32 == (y + TWO_POW_31) % TWO_POW_32 by {
      ModShift(y + TWO_POW_31, k);
    }
  }

  lemma {:induction false} ModShift(a: int, k: int)
    ensures (a + k * TWO_POW_32) % TWO_POW_32 == a % TWO_POW_32
  {
    var q := a / TWO_POW_32;
    var m := a % TWO_POW_32;
    assert a == q * TWO_POW_32 + m;
    assert a + k * TWO_POW_32 == (q + k) * TWO_POW_32 + m;
  }

  /** Wrapping addition is associative, like addition modulo 2^32. */
  lemma {:induction false} WrapAddAssociative(a: int32, b: int32, c: int32)
    ensures WrapAdd(WrapAdd(a, b), c) == WrapAdd(a, WrapAdd(b, c))
  {
    WrapCongruent(WrapAdd(a, b) as int + c as int, a as int + b as int + c as int);
    WrapCongruent(a as int + WrapAdd(b, c) as int, a as int + b as int + c as int);
  }

  /** The C# negation `-a` (which maps `int.MinValue` to itself). */
  function WrapNeg(a: int32): (r: int32)
    ensures WrapAdd(a, r) == 0
  {
    var r := Wrap(-(a as int));
    WrapCongruent(a as int + r as int, 0);
    r
  }

  /** `Mathf.Abs`. */
  function Abs(x: real): real {
    if x < 0.0 then -x else x
  }

  /** `Mathf.Min`. */
  function Min(a: real, b: real): real {
    if a <= b then a else b
  }

  /** `Mathf.Max`. */
  function Max(a: real, b: real): real {
    if a >= b then a else b
  }
}
