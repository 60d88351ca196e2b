/**
 The primitive encodings digit by digit: which byte says what. The round trips
 of `Wire`, `Utf8` and `Utf16` hold of any two inverse encodings; these hold of
 the protocol's.
 */
module WireFormat {
  import opened Wrappers
  import opened Wire
  import opened Doubles
  import Utf8
  import Utf16

  // -------------------------------------------------------------------- varints

  /** The `i`-th group of seven bits, the lowest first. */
  function Group(n: nat, i: nat): nat
    decreases i
  {
    if i == 0 then n % 128 else Group(n / 128, i - 1)
  }

  /** What is left of `n` above its `i` lowest groups. */
  function Above(n: nat, i: nat): nat
    decreases i
  {
    if i == 0 then n else Above(n / 128, i - 1)
  }

  /** Groups of seven bits, the lowest first; all but the last byte have the top bit set; no byte is left over. */
  lemma {:induction false} VarintIs(n: nat, i: nat)
    requires i < |Varint(n)|
    ensures Varint(n)[i] == Group(n, i) + (if i + 1 < |Varint(n)| then 128 else 0)
    ensures Above(n, |Varint(n)|) == 0 && (|Varint(n)| > 1 ==> Above(n, |Varint(n)| - 1) > 0)
    decreases n
  {
    if n >= 128 {
      VarintIs(n / 128, if i == 0 then 0 else i - 1);
    }
  }

  /** The first `k + 1` bytes of `s` are a varint. */
  predicate IsVarint(s: seq<byte>, k: nat) {
    k < |s| && k < 5 && s[k] < 128 && forall j :: 0 <= j < k ==> s[j] >= 128
  }

  /** Their value, the first group lowest. */
  function GroupsValue(s: seq<byte>, k: nat): nat
    requires k < |s|
    decreases k
  {
    s[0] % 128 + (if k == 0 then 0 else 128 * GroupsValue(s[1..], k - 1))
  }

  lemma VarintTail(s: seq<byte>, k: nat)
    ensures IsVarint(s, k) && s[0] >= 128 ==> k > 0 && IsVarint(s[1..], k - 1)
  {
  }

  lemma {:induction false} BoundedIs(s: seq<byte>, limit: nat)
    requires limit <= 5
    ensures match ReadVarintBounded(s, limit)
            case Some((n, rest)) =>
              exists k: nat :: k < limit && IsVarint(s, k) && n == GroupsValue(s, k) && rest == s[k + 1..]
            case None => forall k: nat :: k < limit ==> !IsVarint(s, k)
    decreases limit
  {
    if limit > 0 && s != [] {
      if s[0] < 128 {
        assert IsVarint(s, 0) && GroupsValue(s, 0) == s[0];
      } else {
        BoundedIs(s[1..], limit - 1);
        match ReadVarintBounded(s[1..], limit - 1) {
          case Some((n, rest)) =>
            var k: nat :| k < limit - 1 && IsVarint(s[1..], k) && n == GroupsValue(s[1..], k)
                && rest == s[1..][k + 1..];
            forall j | 0 <= j < k + 1
              ensures s[j] >= 128
            {
              assert j > 0 ==> s[j] == s[1..][j - 1];
            }
            assert IsVarint(s, k + 1) && s[1..][k + 1..] == s[k + 2..];
          case None =>
            forall k: nat | k < limit
              ensures !IsVarint(s, k)
            {
              VarintTail(s, k);
            }
        }
      }
    }
  }

  /** A varint is read from at most five bytes, and refused above 2^32 - 1. */
  lemma ReadVarintIs(s: seq<byte>)
    ensures match ReadVarint(s)
            case Some((n, rest)) =>
              && n <= 0xFFFF_FFFF
              && exists k: nat :: k < 5 && IsVarint(s, k) && n == GroupsValue(s, k) && rest == s[k + 1..]
            case None => forall k: nat :: IsVarint(s, k) ==> GroupsValue(s, k) > 0xFFFF_FFFF
  {
    BoundedIs(s, 5);
    hide ReadVarintBounded, GroupsValue;
    if ReadVarint(s).None? {
      forall k: nat | IsVarint(s, k)
        ensures GroupsValue(s, k) > 0xFFFF_FFFF
      {
        if ReadVarintBounded(s, 5).Some? {
          var (n, rest) := ReadVarintBounded(s, 5).value;
          var j: nat :| j < 5 && IsVarint(s, j) && n == GroupsValue(s, j) && rest == s[j + 1..];
          assert j == k;
        }
      }
    }
  }

  /** 0, -1, 1, -2, 2 and so on. */
  lemma ZigzagIs(n: int)
    ensures Zigzag(n) % 2 == (if n < 0 then 1 else 0) && Zigzag(n) / 2 == (if n < 0 then -n - 1 else n)
    ensures Unzigzag(Zigzag(n)) == n
  {
  }

  // ------------------------------------------------------------------ fixed width

  /** The `i`-th byte of a number, the lowest first. */
  function ByteOf(n: nat, i: nat): byte
    decreases i
  {
    if i == 0 then n % 256 else ByteOf(n / 256, i - 1)
  }

  lemma {:induction false} LittleEndianIs(n: nat, size: nat, i: nat)
    requires i < size
    ensures LittleEndian(n, size)[i] == ByteOf(n, i)
    decreases i
  {
    if i > 0 {
      LittleEndianIs(n / 256, size - 1, i - 1);
    }
  }

  lemma {:induction false} BigEndianIs(n: nat, size: nat, i: nat)
    requires i < size
    ensures BigEndian(n, size)[size - 1 - i] == ByteOf(n, i)
    decreases i
  {
    if i > 0 {
      BigEndianIs(n / 256, size - 1, i - 1);
    }
  }

  // ------------------------------------------------------------------------ texts

  predicate IsTail(b: byte) { 0x80 <= b <= 0xBF }

  /** What a byte carries above its marker. */
  function Bits(b: byte, marker: int): int { b as int - marker }

  /** Section 3 of RFC 3629: how many bytes, which first byte, and six bits in each byte after it. */
  lemma CharIs(c: char)
    ensures var n, b := c as int, Utf8.EncodeChar(c);
            && (n <= 0x7F ==> |b| == 1 && b[0] == n)
            && (0x80 <= n <= 0x7FF ==>
                  |b| == 2 && 0xC2 <= b[0] <= 0xDF && IsTail(b[1]) && n == Bits(b[0], 0xC0) * 64 + Bits(b[1], 0x80))
            && (0x800 <= n <= 0xFFFF ==>
                  && |b| == 3 && 0xE0 <= b[0] <= 0xEF && IsTail(b[1]) && IsTail(b[2])
                  && n == Bits(b[0], 0xE0) * 4096 + Bits(b[1], 0x80) * 64 + Bits(b[2], 0x80))
            && (n >= 0x10000 ==>
                  && |b| == 4 && 0xF0 <= b[0] <= 0xF4 && IsTail(b[1]) && IsTail(b[2]) && IsTail(b[3])
                  && n == Bits(b[0], 0xF0) * 262144 + Bits(b[1], 0x80) * 4096 + Bits(b[2], 0x80) * 64 + Bits(b[3],
                      0x80))
  {
    var n := c as int;
    Parts(n, 0x40);
    Parts(n / 0x40, 0x40);
    Parts(n / 0x1000, 0x40);
    assert n / 0x40 / 0x40 == n / 0x1000 && n / 0x1000 / 0x40 == n / 0x40000;
  }

  lemma Parts(n: nat, m: nat)
    requires m > 0
    ensures n == n / m * m + n % m
  {
  }

  /** A text is encoded character by character, in order. */
  lemma {:induction false} TextIs(a: string, b: string)
    ensures Utf8.Encode([]) == [] && Utf8.Encode(a + b) == Utf8.Encode(a) + Utf8.Encode(b)
    ensures forall c :: Utf8.Encode([c]) == Utf8.EncodeChar(c)
  {
    Utf8.EncodeAppend(a, b);
    forall c: char
      ensures Utf8.Encode([c]) == Utf8.EncodeChar(c)
    {
      assert [c][1..] == "";
    }
  }

  /** The UTF-16 units of a character: two for a supplementary one. */
  function UnitsOfChar(c: char): seq<int> {
    var n := c as int;
    if n < 0x10000 then [n] else [0xD800 + (n - 0x10000) / 0x400, 0xDC00 + (n - 0x10000) % 0x400]
  }

  function UnitsOf(text: string): seq<int> {
    if text == "" then [] else UnitsOfChar(text[0]) + UnitsOf(text[1..])
  }

  predicate High(u: int) { 0xD800 <= u <= 0xDBFF }

  predicate Low(u: int) { 0xDC00 <= u <= 0xDFFF }

  /** A surrogate that is no half of a pair. */
  predicate IsLone(units: seq<Utf16.unit>, i: nat)
    requires i < |units|
  {
    || (High(units[i]) && !(i + 1 < |units| && Low(units[i + 1])))
    || (Low(units[i]) && !(i > 0 && High(units[i - 1])))
  }

  predicate PairFirst(units: seq<Utf16.unit>) { |units| > 1 && High(units[0]) && Low(units[1]) }

  /** Whether a unit is lone does not depend on the pair, or the unit that is in none, before it. */
  lemma LoneLater(units: seq<Utf16.unit>, i: nat)
    requires units != []
    ensures var k := if PairFirst(units) then 2 else 1;
            k <= i < |units| ==> (IsLone(units, i) <==> IsLone(units[k..], i - k))
  {
  }

  lemma PairIs(h: int, l: int)
    requires High(h) && Low(l)
    ensures UnitsOfChar((0x10000 + 0x400 * (h - 0xD800) + (l - 0xDC00)) as char) == [h, l]
  {
    var n := 0x400 * (h - 0xD800) + (l - 0xDC00);
    assert n / 0x400 == h - 0xD800 && n % 0x400 == l - 0xDC00;
  }

  lemma SingleIs(n: int)
    requires 0 <= n < 0xD800 || 0xDFFF < n < 0x10000
    ensures UnitsOfChar(n as char) == [n]
  {
  }

  lemma WireTextFirst(units: seq<Utf16.unit>)
    requires units != []
    ensures var k, text := if PairFirst(units) then 2 else 1, Utf16.WireText(units);
            && text != "" && text[1..] == Utf16.WireText(units[k..])
            && UnitsOfChar(text[0]) ==
               if PairFirst(units) then [units[0], units[1]]
               else [if units[0] == 0 || IsLone(units, 0) then 0xFFFD else units[0]]
  {
    hide UnitsOfChar;
    if PairFirst(units) {
      PairIs(units[0], units[1]);
    } else {
      assert High(units[0]) || Low(units[0]) <==> IsLone(units, 0);
      SingleIs(0xFFFD);
      if !High(units[0]) && !Low(units[0]) {
        SingleIs(units[0]);
      }
    }
  }

  /** The text written for UTF-16 units is those units, with U+FFFD for lone surrogates and U+0000. */
  lemma {:induction false} WireTextIs(units: seq<Utf16.unit>)
    ensures |UnitsOf(Utf16.WireText(units))| == |units|
    ensures forall i :: 0 <= i < |units| ==>
              UnitsOf(Utf16.WireText(units))[i] == if units[i] == 0 || IsLone(units, i) then 0xFFFD else units[i]
    decreases |units|
  {
    if units != [] {
      var k := if PairFirst(units) then 2 else 1;
      assert PairFirst(units) ==> !IsLone(units, 0) && !IsLone(units, 1) && units[0] != 0 && units[1] != 0;
      hide IsLone, UnitsOfChar, Utf16.WireText;
      WireTextFirst(units);
      WireTextIs(units[k..]);
      forall i | 0 <= i < |units|
        ensures UnitsOf(Utf16.WireText(units))[i] == if units[i] == 0 || IsLone(units, i) then 0xFFFD else units[i]
      {
        LoneLater(units, i);
        if i >= k {
          assert units[i] == units[k..][i - k];
        }
      }
    }
  }

  // ---------------------------------------------------------------------- doubles

  /** The integer a double pattern stands for: its 53 bits, lowered by what the exponent leaves of them. */
  lemma WholeIs(b: bits64, n: int)
    requires n >= 0 && b % 0x8000_0000_0000_0000 != 0
    ensures var exponent, bits := b / 0x10_0000_0000_0000 % 0x800, 0x10_0000_0000_0000 + b % 0x10_0000_0000_0000;
            WholeOf(b) == Some(if b >= 0x8000_0000_0000_0000 then -n else n) <==>
              1023 <= exponent <= 1075 && Raised(n, 1075 - exponent) == bits
  {
    var exponent, bits := b % SIGN / HIDDEN, HIDDEN + b % HIDDEN;
    assert exponent == b / HIDDEN % 0x800;
    if 1023 <= exponent <= 1075 {
      LoweredIs(bits, 1075 - exponent, n);
      if Lowered(bits, 1075 - exponent).Some? && Lowered(bits, 1075 - exponent).value == 0 {
        RaisedNone(1075 - exponent);
      }
    }
  }

  lemma {:induction false} LoweredIs(a: nat, k: nat, n: nat)
    ensures Lowered(a, k) == Some(n) <==> Raised(n, k) == a
    decreases k
  {
    hide Raised;
    RaisedStep(n, k);
    if k > 0 && a % 2 == 0 {
      LoweredIs(a / 2, k - 1, n);
    } else if k > 0 {
      assert a != 2 * Raised(n, k - 1);
    }
  }

  /** A large integer is rounded to the nearest number of 53 bits. */
  lemma NearestIs(a: nat)
    requires a >= 0x20_0000_0000_0000
    ensures var q, k := Nearest(a), Excess(a);
            var error, unit: int := 2 * (Raised(q, k) - a), Raised(1, k);
            -unit <= error <= unit && (error == unit || error == -unit ==> q % 2 == 0)
  {
    hide Raised, Truncated, Excess;
    var k := Excess(a);
    var q := Truncated(a, k);
    TruncatedIs(a, k);
    RaisedNext(q, k);
    RaisedStep(1, k);
  }

  lemma {:induction false} TruncatedIs(a: nat, k: nat)
    ensures Raised(Truncated(a, k), k) <= a < Raised(Truncated(a, k), k) + Raised(1, k)
    decreases k
  {
    if k > 0 {
      TruncatedIs(a / 2, k - 1);
    }
  }

  lemma {:induction false} RaisedNext(a: nat, k: nat)
    ensures Raised(a + 1, k) == Raised(a, k) + Raised(1, k)
  {
    if k > 0 {
      RaisedNext(a, k - 1);
    }
  }

  /** The exponent field of a double, and its 53 bits. */
  function ExponentOf(b: bits64): nat { b / 0x10_0000_0000_0000 % 0x800 }

  function BitsIn(b: bits64): nat { 0x10_0000_0000_0000 + b % 0x10_0000_0000_0000 }

  lemma FieldsAre(exponent: nat, fraction: nat, sign: nat)
    requires exponent < 0x800 && fraction < HIDDEN && (sign == 0 || sign == SIGN)
    ensures var b := sign + exponent * HIDDEN + fraction;
            && b < 2 * SIGN && ExponentOf(b) == exponent && BitsIn(b) == HIDDEN + fraction
            && (b >= SIGN <==> sign == SIGN)
  {
  }

  /** An integer past 53 bits becomes the nearest double: off by at most half a unit of its last bit, ties to even. */
  lemma LargeIs(a: nat)
    requires 0x20_0000_0000_0000 <= a < 0x1_0000_0000_0000_0000
    ensures var b := DoubleOf(a);
            && b < SIGN && 1075 < ExponentOf(b) < 0x7FF
            && var k := ExponentOf(b) - 1075;
               var error, unit: int := 2 * (Raised(BitsIn(b), k) - a), Raised(1, k);
               -unit <= error <= unit && (error == unit || error == -unit ==> BitsIn(b) % 2 == 0)
    ensures IsInt64(-(a as int)) ==> DoubleOf(-(a as int)) == 0x8000_0000_0000_0000 + DoubleOf(a)
  {
    hide Raised, Truncated, Excess, Nearest, ExponentOf, BitsIn;
    var q, k := Nearest(a), Excess(a);
    assert k <= 11 by {
      Powers();
      ExcessBound(a, 11);
    }
    NearestIs(a);
    if q < 2 * HIDDEN {
      FieldsAre(1075 + k, q - HIDDEN, 0);
    } else {
      FieldsAre(1076 + k, 0, 0);
      RaisedStep(1, k + 1);
      RaisedStep(HIDDEN, k + 1);
      RaisedDouble(HIDDEN, k);
      RaisedPositive(k);
    }
  }

  lemma {:induction false} RaisedPositive(k: nat)
    ensures Raised(1, k) > 0
  {
    if k > 0 {
      RaisedPositive(k - 1);
    }
  }

  /** A single is the same number as a double: its sign, its bits, and its exponent against the other bias. */
  lemma WidenIs(w: bits32)
    ensures var b, exponent, fraction := Widen(w), w / 0x80_0000 % 0x100, w % 0x80_0000;
            if exponent == 0xFF && fraction != 0 then b == 0x7FF8_0000_0000_0000
            else
              && (b >= 0x8000_0000_0000_0000 <==> w >= 0x8000_0000)
              && (exponent == 0xFF ==> ExponentOf(b) == 0x7FF && BitsIn(b) == 0x10_0000_0000_0000)
              && (0 < exponent < 0xFF ==>
                    ExponentOf(b) == exponent + 896 && BitsIn(b) == (0x80_0000 + fraction) * 0x2000_0000)
              && (exponent == 0 && fraction == 0 ==> b % 0x8000_0000_0000_0000 == 0)
              && (exponent == 0 && fraction > 0 ==>
                    0 < ExponentOf(b) <= 897 && BitsIn(b) == Raised(fraction, 926 - ExponentOf(b)))
  {
    hide ExponentOf, BitsIn, Raised, Lift, Wide, IsNaN32;
    SingleParts(w);
    if !IsNaN32(w) {
      WideIs(w % SIGN32, if w >= SIGN32 then SIGN else 0);
    }
  }

  lemma SingleParts(w: bits32)
    ensures var v, exponent, fraction := w % SIGN32, w / 0x80_0000 % 0x100, w % 0x80_0000;
            && v == (if w >= SIGN32 then w - SIGN32 else w)
            && exponent == v / HIDDEN32 && fraction == v % HIDDEN32
            && (IsNaN32(w) <==> exponent == 0xFF && fraction != 0) && (!IsNaN32(w) ==> v <= 0x7F80_0000)
            && (v == 0 <==> exponent == 0 && fraction == 0)
  {
  }

  lemma WideIs(v: nat, sign: nat)
    requires v <= 0x7F80_0000 && (sign == 0 || sign == SIGN)
    ensures sign + Wide(v) < 2 * SIGN
    ensures var b, exponent, fraction := sign + Wide(v), v / HIDDEN32, v % HIDDEN32;
            && (b >= SIGN <==> sign == SIGN)
            && (exponent == 0xFF ==> ExponentOf(b) == 0x7FF && BitsIn(b) == HIDDEN)
            && (0 < exponent < 0xFF ==>
                  ExponentOf(b) == exponent + 896 && BitsIn(b) == (HIDDEN32 + fraction) * 0x2000_0000)
            && (v == 0 ==> b == sign)
            && (exponent == 0 && fraction > 0 ==>
                  0 < ExponentOf(b) <= 897 && BitsIn(b) == Raised(fraction, 926 - ExponentOf(b)))
  {
    hide ExponentOf, BitsIn, Raised, Lift;
    var exponent, fraction := v / HIDDEN32, v % HIDDEN32;
    if exponent == 0xFF {
      FieldsAre(0x7FF, 0, sign);
    } else if exponent > 0 {
      FieldsAre(exponent + 896, fraction * 0x2000_0000, sign);
    } else if fraction > 0 {
      var k := Lift(fraction, HIDDEN32);
      WideRange(v);
      FieldsAre(897 - k, (Raised(fraction, k) - HIDDEN32) * 0x2000_0000, sign);
      RaisedMuch(fraction, k);
    }
  }

  /** Twenty-nine places more. */
  lemma RaisedMuch(a: nat, k: nat)
    ensures Raised(a, k + 29) == Raised(a, k) * 0x2000_0000
  {
    RaisedBy(a, k, 10);
    RaisedBy(a, k + 10, 10);
    RaisedBy(a, k + 20, 9);
    hide Raised;
    assert Twice(10) == 0x400 && Twice(9) == 0x200;
  }

  /** 2^n. */
  function Twice(n: nat): nat { if n == 0 then 1 else 2 * Twice(n - 1) }

  lemma {:induction false} RaisedBy(a: nat, k: nat, n: nat)
    ensures Raised(a, k + n) == Raised(a, k) * Twice(n)
  {
    if n > 0 {
      RaisedBy(a, k, n - 1);
    }
  }
}
