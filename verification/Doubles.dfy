/**
 IEEE 754 bit patterns, as far as the wire depends on them: NaN has one
 pattern, whole numbers travel as integers, integers that are too large as the
 nearest double, and single precision is widened exactly.
 */
module Doubles {
  import opened Wrappers

  type bits64 = n: nat | n < 0x1_0000_0000_0000_0000
  type bits32 = n: nat | n < 0x1_0000_0000

  /** The sign bit, and so the pattern of -0. */
  const SIGN: nat := 0x8000_0000_0000_0000
  const SIGN32: nat := 0x8000_0000

  /** 2^52, the leading bit that normal numbers do not store. */
  const HIDDEN: nat := 0x10_0000_0000_0000
  const HIDDEN32: nat := 0x80_0000

  /** The pattern every NaN is written with. */
  const NAN: bits64 := 0x7FF8_0000_0000_0000
  const NAN32: bits32 := 0x7FC0_0000

  /** 2^53 - 1: up to here every integer is a double of its own. */
  const MAX_SAFE: int := 9007199254740991

  predicate IsNaN(b: bits64) { b % SIGN > 0x7FF0_0000_0000_0000 }

  predicate IsNaN32(w: bits32) { w % SIGN32 > 0x7F80_0000 }

  function WireDouble(b: bits64): bits64 { if IsNaN(b) then NAN else b }

  function WireSingle(w: bits32): bits32 { if IsNaN32(w) then NAN32 else w }

  // -------------------------------------------------------------- powers of two

  /** `a` times 2^k. */
  function Raised(a: nat, k: nat): nat { if k == 0 then a else 2 * Raised(a, k - 1) }

  /** The number that is `a` when raised by `k`, if there is one. */
  function Lowered(a: nat, k: nat): (r: Option<nat>)
    ensures r.Some? ==> Raised(r.value, k) == a && r.value <= a
    decreases k
  {
    if k == 0 then Some(a)
    else if a % 2 != 0 then None
    else Lowered(a / 2, k - 1)
  }

  lemma RaisedStep(a: nat, k: nat)
    ensures Raised(a, k) == if k == 0 then a else 2 * Raised(a, k - 1)
  {
  }

  lemma {:induction false} LoweredPower(k: nat)
    ensures Lowered(Raised(1, k), k) == Some(1)
  {
    hide Raised;
    if k == 0 {
      assert Raised(1, 0) == 1 by { RaisedStep(1, 0); }
    } else {
      RaisedStep(1, k);
      var a := Raised(1, k - 1);
      assert 2 * a % 2 == 0 && 2 * a / 2 == a;
      LoweredPower(k - 1);
    }
  }

  lemma {:induction false} RaisedMore(a: nat, b: nat, k: nat)
    requires a <= b
    ensures Raised(a, k) <= Raised(b, k)
  {
    if k > 0 {
      RaisedMore(a, b, k - 1);
    }
  }

  lemma {:induction false} RaisedDouble(a: nat, k: nat)
    ensures Raised(2 * a, k) == 2 * Raised(a, k)
  {
    if k > 0 {
      RaisedDouble(a, k - 1);
    }
  }

  lemma {:induction false} RaisedFurther(a: nat, j: nat, k: nat)
    requires j < k && a > 0
    ensures Raised(a, k) >= 2 * Raised(a, j) && Raised(a, j) > 0
    decreases k
  {
    if j < k - 1 {
      RaisedFurther(a, j, k - 1);
    } else if j > 0 {
      RaisedFurther(a, 0, j);
    }
  }

  /** How far `a` must be raised to reach `floor`. */
  function Lift(a: nat, floor: nat): (k: nat)
    requires 0 < a < 2 * floor
    ensures floor <= Raised(a, k) < 2 * floor
    decreases 2 * floor - a
  {
    if a >= floor then 0
    else
      var k := Lift(2 * a, floor);
      RaisedDouble(a, k);
      k + 1
  }

  lemma LiftIs(a: nat, floor: nat, k: nat)
    requires 0 < a < 2 * floor && floor <= Raised(a, k) < 2 * floor
    ensures Lift(a, floor) == k
  {
    var j := Lift(a, floor);
    if j < k {
      RaisedFurther(a, j, k);
    } else if k < j {
      RaisedFurther(a, k, j);
    }
  }

  lemma LiftBound(a: nat, floor: nat, k: nat)
    requires 0 < a < 2 * floor <= Raised(1, k)
    ensures Lift(a, floor) < k
  {
    var j := Lift(a, floor);
    if j >= k {
      RaisedMore(1, a, k);
      if j > k {
        RaisedFurther(a, k, j);
      }
    }
  }

  // ------------------------------------------------------------- whole numbers

  /** The safe integer a pattern stands for, if it does; -0 counts as 0. */
  function WholeOf(b: bits64): (n: Option<int>)
    ensures n.Some? ==> -MAX_SAFE <= n.value <= MAX_SAFE
  {
    var exponent, fraction := b % SIGN / HIDDEN, b % HIDDEN;
    if b % SIGN == 0 then Some(0)
    else if exponent < 1023 || exponent > 1075 then None
    else
      var a :- Lowered(HIDDEN + fraction, 1075 - exponent);
      var n: int := a;
      Some(if b >= SIGN then -n else n)
  }

  /** `a` lowered by `k`, what is lost left off. */
  function Truncated(a: nat, k: nat): nat
    decreases k
  {
    if k == 0 then a else Truncated(a / 2, k - 1)
  }

  /** How far a large integer must be lowered to fit 53 bits. */
  function Excess(a: nat): (k: nat)
    ensures a >= HIDDEN ==> HIDDEN <= Truncated(a, k) < 2 * HIDDEN
    ensures a >= 2 * HIDDEN ==> k > 0
  {
    if a < 2 * HIDDEN then 0 else Excess(a / 2) + 1
  }

  lemma {:induction false} ExcessBound(a: nat, k: nat)
    requires a < Raised(2 * HIDDEN, k)
    ensures Excess(a) <= k
  {
    if k > 0 && a >= 2 * HIDDEN {
      ExcessBound(a / 2, k - 1);
    }
  }

  /** The nearest number of 53 bits, ties to even. */
  function Nearest(a: nat): (q: nat)
    requires a >= 2 * HIDDEN
    ensures HIDDEN <= q <= 2 * HIDDEN
  {
    var k := Excess(a);
    var q := Truncated(a, k);
    var lost, half := a - Raised(q, k), Raised(1, k - 1);
    if lost > half || (lost == half && q % 2 == 1) then q + 1 else q
  }

  /** An integer of 64 bits, signed or not. */
  predicate IsInt64(n: int) { -0x8000_0000_0000_0000 <= n < 0x1_0000_0000_0000_0000 }

  /** A positive integer's nearest double. */
  function Magnitude(a: nat): (b: nat)
    requires 0 < a < 0x1_0000_0000_0000_0000
    ensures HIDDEN <= b < 2000 * HIDDEN
  {
    if a < 2 * HIDDEN then
      var k := Lift(a, HIDDEN);
      assert k < 54 by { Powers(); LiftBound(a, HIDDEN, 54); }
      (1075 - k) * HIDDEN + (Raised(a, k) - HIDDEN)
    else
      assert Excess(a) <= 11 by { Powers(); ExcessBound(a, 11); }
      (1075 + Excess(a)) * HIDDEN + (Nearest(a) - HIDDEN)
  }

  lemma Powers()
    ensures Raised(1, 52) == HIDDEN && Raised(1, 54) == 4 * HIDDEN && Raised(2 * HIDDEN, 11) == 0x1_0000_0000_0000_0000
    ensures Raised(1, 25) == 4 * HIDDEN32
  {
    assert Raised(1, 9) == 0x200;
    assert Raised(1, 18) == 0x4_0000;
    assert Raised(1, 25) == 0x200_0000;
    assert Raised(1, 27) == 0x800_0000;
    assert Raised(1, 36) == 0x10_0000_0000;
    assert Raised(1, 45) == 0x2000_0000_0000;
    RaisedEleven(2 * HIDDEN);
  }

  lemma RaisedEleven(a: nat)
    ensures Raised(a, 11) == 2048 * a
  {
    assert Raised(a, 0) == a;
    assert Raised(a, 2) == 4 * a;
    assert Raised(a, 4) == 16 * a;
    assert Raised(a, 6) == 64 * a;
    assert Raised(a, 8) == 256 * a;
    assert Raised(a, 10) == 1024 * a;
  }

  /** The double nearest to an integer. */
  function DoubleOf(n: int): (b: bits64)
    requires IsInt64(n)
    ensures !IsNaN(b)
  {
    if n == 0 then 0 else if n > 0 then Magnitude(n) else SIGN + Magnitude(-n)
  }

  /** A pattern that stands for a safe integer is that integer's own, but for -0. */
  lemma DoubleOfWhole(b: bits64)
    requires WholeOf(b).Some?
    ensures DoubleOf(WholeOf(b).value) == if b == SIGN then 0 else b
  {
    var exponent, fraction := b % SIGN / HIDDEN, b % HIDDEN;
    if b % SIGN != 0 {
      var k := 1075 - exponent;
      var a := Lowered(HIDDEN + fraction, k).value;
      Parts(b);
      if a == 0 {
        RaisedNone(k);
      }
      LiftIs(a, HIDDEN, k);
    }
  }

  lemma {:induction false} RaisedNone(k: nat)
    ensures Raised(0, k) == 0
  {
    if k > 0 {
      RaisedNone(k - 1);
    }
  }

  lemma Parts(b: bits64)
    ensures b % SIGN == b % SIGN / HIDDEN * HIDDEN + b % HIDDEN
    ensures b == (if b >= SIGN then SIGN else 0) + b % SIGN
  {
  }

  // -------------------------------------------------------------- single precision

  /** A number that is not negative, in double precision. */
  function Wide(w: nat): (b: nat)
    requires w <= 0x7F80_0000
    ensures b <= 0x7FF0_0000_0000_0000 && (b == 0 <==> w == 0)
  {
    var exponent, fraction := w / HIDDEN32, w % HIDDEN32;
    if w == 0 then 0
    else if exponent == 255 then 2047 * HIDDEN
    else if exponent > 0 then (exponent + 896) * HIDDEN + fraction * 0x2000_0000
    else
      var k := Lift(fraction, HIDDEN32);
      assert k < 25 by { Powers(); LiftBound(fraction, HIDDEN32, 25); }
      (897 - k) * HIDDEN + (Raised(fraction, k) - HIDDEN32) * 0x2000_0000
  }

  /** The same number in double precision; every NaN is the NaN. */
  function Widen(w: bits32): (b: bits64)
    ensures WireDouble(b) == b && (b == SIGN <==> w == SIGN32) && (w == 0 ==> b == 0)
  {
    if IsNaN32(w) then NAN else if w >= SIGN32 then SIGN + Wide(w - SIGN32) else Wide(w)
  }

  lemma {:induction false} RaisedInjective(a: nat, b: nat, k: nat)
    requires Raised(a, k) == Raised(b, k)
    ensures a == b
  {
    if k > 0 {
      RaisedInjective(a, b, k - 1);
    }
  }

  /** Where a widened number lies, by the kind of single it is. */
  lemma WideRange(w: nat)
    requires 0 < w <= 0x7F80_0000
    ensures w < HIDDEN32 ==>
              var k := Lift(w, HIDDEN32);
              && k < 25 && Wide(w) == (897 - k) * HIDDEN + (Raised(w, k) - HIDDEN32) * 0x2000_0000
              && Wide(w) < 897 * HIDDEN
    ensures HIDDEN32 <= w < 0x7F80_0000 ==>
              Wide(w) == 896 * HIDDEN + w * 0x2000_0000 && 897 * HIDDEN <= Wide(w) < 1151 * HIDDEN
    ensures w == 0x7F80_0000 ==> Wide(w) == 2047 * HIDDEN
  {
    if w < HIDDEN32 {
      Powers();
      LiftBound(w, HIDDEN32, 25);
    }
  }

  lemma WideInjective(v: nat, w: nat)
    requires v <= 0x7F80_0000 && w <= 0x7F80_0000 && Wide(v) == Wide(w)
    ensures v == w
  {
    if v != 0 && w != 0 {
      WideRange(v);
      WideRange(w);
      if v < HIDDEN32 && w < HIDDEN32 {
        hide Wide;
        RaisedInjective(v, w, Lift(v, HIDDEN32));
      }
    }
  }

  /** Widening loses nothing but which NaN it was. */
  lemma WidenInjective(v: bits32, w: bits32)
    requires Widen(v) == Widen(w)
    ensures WireSingle(v) == WireSingle(w)
  {
    hide Wide;
    if !IsNaN32(v) && !IsNaN32(w) {
      assert v >= SIGN32 <==> w >= SIGN32;
      if v >= SIGN32 {
        WideInjective(v - SIGN32, w - SIGN32);
      } else {
        WideInjective(v, w);
      }
    }
  }
}
