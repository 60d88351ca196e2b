/**
 The primitive encodings of the protocol: LEB128 varints (at most five bytes,
 at most 2^32 - 1), zigzag, and fixed-width little- and big-endian integers.
 A reader is a function from the bytes left to the value read and the bytes
 left after it; `None` is a failed read.
 */
module Wire {
  import opened Wrappers

  type byte = b: int | 0 <= b < 256

  const MAX_UINT32: nat := 0xFFFF_FFFF

  const MAX_INT32: nat := 0x7FFF_FFFF

  // ---------------------------------------------------------------- varints

  function Varint(n: nat): (s: seq<byte>)
    ensures 0 < |s|
    decreases n
  {
    if n < 0x80 then [n] else [n % 0x80 + 0x80] + Varint(n / 0x80)
  }

  /** The lowest seven bits with the continuation bit, and what is above them. */
  function LowGroup(n: nat): byte { n % 0x80 + 0x80 }

  function HighGroups(n: nat): (r: nat)
    ensures n >= 0x80 ==> r < n
  {
    n / 0x80
  }

  lemma VarintStep(n: nat)
    ensures n < 0x80 ==> Varint(n) == [n]
    ensures n >= 0x80 ==> Varint(n)[0] == LowGroup(n) && Varint(n)[1..] == Varint(HighGroups(n))
  {
  }

  /** One turn of the writing loop: `k` bytes of `all` are out, `rest` is what they leave. */
  lemma VarintProgress(all: seq<byte>, k: nat, rest: nat)
    requires k <= |all| && Varint(rest) == all[k..]
    ensures rest >= 0x80 ==>
              k + 1 < |all| && all[..k + 1] == all[..k] + [LowGroup(rest)] && Varint(HighGroups(rest)) == all[k + 1..]
    ensures rest < 0x80 ==> all == all[..k] + [rest]
  {
    hide Varint, LowGroup, HighGroups;
    VarintStep(rest);
    var tail := all[k..];
    if rest >= 0x80 {
      assert all[k] == tail[0] && all[k + 1..] == tail[1..];
    }
  }

  lemma VarintLength(n: nat)
    requires n <= MAX_UINT32
    ensures 1 <= |Varint(n)| <= 5
  {
    VarintRoundTrip(n, []);
  }

  /** The value of the first varint of `s`, read from at most `limit` bytes. */
  function ReadVarintBounded(s: seq<byte>, limit: nat): (r: Option<(nat, seq<byte>)>)
    ensures r.Some? ==> |r.value.1| < |s|
  {
    if limit == 0 || s == [] then None
    else if s[0] < 0x80 then Some((s[0], s[1..]))
    else
      var (v, rest) :- ReadVarintBounded(s[1..], limit - 1);
      Some((s[0] - 0x80 + 0x80 * v, rest))
  }

  function ReadVarint(s: seq<byte>): (r: Option<(nat, seq<byte>)>)
    ensures r.Some? ==> r.value.0 <= MAX_UINT32
    ensures r.Some? ==> |r.value.1| < |s|
  {
    var (v, rest) :- ReadVarintBounded(s, 5);
    if v <= MAX_UINT32 then Some((v, rest)) else None
  }

  /** 128^limit, the first value that does not fit `limit` bytes. */
  function VarintRange(limit: nat): nat {
    if limit == 0 then 1 else 0x80 * VarintRange(limit - 1)
  }

  lemma {:induction false} VarintBoundedRoundTrip(n: nat, limit: nat, rest: seq<byte>)
    requires 0 < limit && n < VarintRange(limit)
    ensures ReadVarintBounded(Varint(n) + rest, limit) == Some((n, rest))
    ensures |Varint(n)| <= limit
    decreases limit
  {
    var s := Varint(n) + rest;
    if n < 0x80 {
      assert s[1..] == rest;
    } else {
      var low, high := n % 0x80, n / 0x80;
      assert limit > 1 && high < VarintRange(limit - 1) by {
        assert VarintRange(0) == 1;
      }
      assert s[0] == low + 0x80 && s[1..] == Varint(high) + rest;
      VarintBoundedRoundTrip(high, limit - 1, rest);
      assert ReadVarintBounded(s, limit) == Some((s[0] - 0x80 + 0x80 * high, rest));
    }
  }

  lemma VarintRoundTrip(n: nat, rest: seq<byte>)
    requires n <= MAX_UINT32
    ensures ReadVarint(Varint(n) + rest) == Some((n, rest))
    ensures 1 <= |Varint(n)| <= 5
  {
    assert VarintRange(5) == 0x8_0000_0000 by {
      assert VarintRange(2) == 0x4000;
      assert VarintRange(4) == 0x1000_0000;
    }
    VarintBoundedRoundTrip(n, 5, rest);
  }

  // ----------------------------------------------------------------- zigzag

  /** An int32 as a uint32: 0, -1, 1, -2 become 0, 1, 2, 3. */
  function Zigzag(n: int): nat {
    if n >= 0 then 2 * n else -2 * n - 1
  }

  function Unzigzag(n: nat): int {
    if n % 2 == 0 then n / 2 else -(n / 2) - 1
  }

  predicate IsInt32(n: int) { -0x8000_0000 <= n <= MAX_INT32 }

  // ----------------------------------------------- fixed-width little-endian

  function LittleEndian(n: nat, size: nat): (s: seq<byte>)
    ensures |s| == size
  {
    if size == 0 then [] else [n % 0x100] + LittleEndian(n / 0x100, size - 1)
  }

  function FromLittleEndian(s: seq<byte>): nat {
    if s == [] then 0 else s[0] + 0x100 * FromLittleEndian(s[1..])
  }

  function Range256(size: nat): nat {
    if size == 0 then 1 else 0x100 * Range256(size - 1)
  }

  lemma {:induction false} LittleEndianRoundTrip(n: nat, size: nat)
    requires n < Range256(size)
    ensures FromLittleEndian(LittleEndian(n, size)) == n
    decreases size
  {
    if size > 0 {
      assert n / 0x100 < Range256(size - 1);
      LittleEndianRoundTrip(n / 0x100, size - 1);
      assert LittleEndian(n, size)[1..] == LittleEndian(n / 0x100, size - 1);
    }
  }

  // -------------------------------------------------- fixed-width big-endian

  function BigEndian(n: nat, size: nat): (s: seq<byte>)
    ensures |s| == size
  {
    if size == 0 then [] else BigEndian(n / 0x100, size - 1) + [n % 0x100]
  }

  function FromBigEndian(s: seq<byte>): nat {
    if s == [] then 0 else 0x100 * FromBigEndian(s[..|s| - 1]) + s[|s| - 1]
  }

  lemma {:induction false} BigEndianRoundTrip(n: nat, size: nat)
    requires n < Range256(size)
    ensures FromBigEndian(BigEndian(n, size)) == n
    decreases size
  {
    if size > 0 {
      assert n / 0x100 < Range256(size - 1);
      BigEndianRoundTrip(n / 0x100, size - 1);
      var s := BigEndian(n, size);
      assert s[..|s| - 1] == BigEndian(n / 0x100, size - 1);
    }
  }

  // ------------------------------------------------------------------ slices

  function Take(s: seq<byte>, n: nat): (r: Option<(seq<byte>, seq<byte>)>)
    ensures r.Some? ==> r.value.0 + r.value.1 == s && |r.value.0| == n
  {
    if n <= |s| then Some((s[..n], s[n..])) else None
  }
}
