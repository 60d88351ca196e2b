/**
 The growable output buffer and the sticky-error input of the protocol's
 primitives. The writer's methods append exactly the encodings of `Wire` and
 `Utf8`; the reader's follow the read functions of `Wire`.
 */
module Buffers {
  import opened Wrappers
  import opened Wire
  import Utf8
  import Utf16

  class ByteWriter {
    var bytes: array<byte>
    var length: nat

    ghost predicate Valid()
      reads this
    {
      length <= bytes.Length && 0 < bytes.Length
    }

    ghost function Contents(): seq<byte>
      requires Valid()
      reads this, bytes
    {
      bytes[..length]
    }

    constructor ()
      ensures Valid() && fresh(bytes) && Contents() == []
    {
      bytes := new byte[256](_ => 0);
      length := 0;
    }

    /** Makes room for `extra` bytes, doubling the buffer; the contents stay. */
    method Reserve(extra: nat)
      requires Valid()
      modifies this
      ensures Valid() && length == old(length) && Contents() == old(Contents())
      ensures length + extra <= bytes.Length
      ensures fresh(bytes) || bytes == old(bytes)
      ensures old(length) + extra <= old(bytes.Length) ==> bytes == old(bytes)
    {
      var needed := length + extra;
      if needed <= bytes.Length {
        return;
      }
      var size := bytes.Length * 2;
      while size < needed
        invariant 0 < size && bytes.Length <= size
        decreases needed - size
      {
        size := size * 2;
      }
      var grown := new byte[size](i requires 0 <= i < size reads this, bytes =>
        if i < length && i < bytes.Length then bytes[i] else 0);
      bytes := grown;
    }

    method U8(value: byte)
      requires Valid()
      modifies this, bytes
      ensures Valid() && Contents() == old(Contents()) + [value]
      ensures fresh(bytes) || bytes == old(bytes)
    {
      Reserve(1);
      bytes[length] := value;
      length := length + 1;
    }

    /** Replaces one of the bytes written so far. */
    method Patch(at: nat, value: byte)
      requires Valid() && at < length
      modifies bytes
      ensures Valid() && Contents() == old(Contents())[at := value]
    {
      bytes[at] := value;
    }

    method Bytes(data: seq<byte>)
      requires Valid()
      modifies this, bytes
      ensures Valid() && Contents() == old(Contents()) + data
      ensures fresh(bytes) || bytes == old(bytes)
    {
      Reserve(|data|);
      forall i | 0 <= i < |data| {
        bytes[length + i] := data[i];
      }
      length := length + |data|;
    }

    /** One byte into room already reserved. */
    method Push(value: byte)
      requires Valid() && length < bytes.Length
      modifies this`length, bytes
      ensures Valid() && length == old(length) + 1 && Contents() == old(Contents()) + [value]
      ensures forall i :: length <= i < bytes.Length ==> bytes[i] == old(bytes[i])
    {
      bytes[length] := value;
      length := length + 1;
    }

    /**
     Unsigned LEB128. With five bytes of room the buffer is not replaced, and
     nothing past the written bytes changes.
     */
    method Varint(value: nat)
      requires Valid() && value <= MAX_UINT32
      modifies this, bytes
      ensures Valid() && Contents() == old(Contents()) + Wire.Varint(value)
      ensures fresh(bytes) || bytes == old(bytes)
      ensures old(length) + 5 <= old(bytes.Length) ==>
                bytes == old(bytes) &&
                forall i :: length <= i < bytes.Length ==> bytes[i] == old(bytes[i])
    {
      hide Wire.Varint;
      VarintLength(value);
      Reserve(5);
      PushVarint(value);
    }

    /** The seven-bit groups of `value`, into room already reserved. */
    method PushVarint(value: nat)
      requires Valid() && length + |Wire.Varint(value)| <= bytes.Length
      modifies this`length, bytes
      ensures Valid() && Contents() == old(Contents()) + Wire.Varint(value)
      ensures forall i :: length <= i < bytes.Length ==> bytes[i] == old(bytes[i])
    {
      hide Wire.Varint, LowGroup, HighGroups;
      ghost var prefix, start, all, k := Contents(), length, Wire.Varint(value), 0;
      var rest := value;
      assert prefix + all[..0] == prefix && all[0..] == all;
      while rest >= 0x80
        invariant Valid() && k < |all| && length == start + k
        invariant Wire.Varint(rest) == all[k..]
        invariant Contents() == prefix + all[..k]
        invariant forall i :: length <= i < bytes.Length ==> bytes[i] == old(bytes[i])
        decreases rest
      {
        PushGroup(prefix, all, k, rest);
        Push(LowGroup(rest));
        rest := HighGroups(rest);
        k := k + 1;
      }
      PushGroup(prefix, all, k, rest);
      Push(rest);
    }

    /** One turn of the loop above. */
    static lemma PushGroup(prefix: seq<byte>, all: seq<byte>, k: nat, rest: nat)
      requires k < |all| && Wire.Varint(rest) == all[k..]
      ensures rest >= 0x80 ==>
                k + 1 < |all| && prefix + all[..k] + [LowGroup(rest)] == prefix + all[..k + 1]
                    && Wire.Varint(HighGroups(rest)) == all[k + 1..]
      ensures rest < 0x80 ==> prefix + all[..k] + [rest] == prefix + all
    {
      hide Wire.Varint, LowGroup, HighGroups;
      VarintProgress(all, k, rest);
    }

    /** `TextEncoder.encodeInto`: the UTF-8 bytes of `text`, written in place at `at`. */
    method EncodeInto(text: string, at: nat) returns (written: nat)
      requires Valid() && at + |Utf8.Encode(text)| <= bytes.Length
      modifies bytes
      ensures written == |Utf8.Encode(text)|
      ensures bytes[at..at + written] == Utf8.Encode(text)
      ensures bytes[..at] == old(bytes[..at])
    {
      hide Utf8.EncodeChar, Utf8.Encode;
      written := 0;
      Utf8.EncodeStep(text, 0);
      for k := 0 to |text|
        invariant Valid() && written == |Utf8.Encode(text[..k])| && at + written <= bytes.Length
        invariant bytes[at..at + written] == Utf8.Encode(text[..k])
        invariant bytes[..at] == old(bytes[..at])
      {
        ghost var done := bytes[at..at + written];
        Utf8.EncodeStep(text, k);
        var one := Utf8.EncodeChar(text[k]);
        forall i | 0 <= i < |one| {
          bytes[at + written + i] := one[i];
        }
        assert bytes[at..at + written + |one|] == done + one;
        written := written + |one|;
      }
      assert text[..|text|] == text;
    }

    /** `TypedArray.copyWithin`: moves `count` bytes, as if through a copy. */
    method CopyWithin(to: nat, from: nat, count: nat)
      requires Valid() && to + count <= bytes.Length && from + count <= bytes.Length
      modifies bytes
      ensures bytes[to..to + count] == old(bytes[from..from + count])
      ensures bytes[..to] == old(bytes[..to])
    {
      forall i | 0 <= i < count {
        bytes[to + i] := bytes[from + i];
      }
    }

    /** The short path: the body stands one byte past `start`, its length fits that byte. */
    method PrefixInPlace(start: nat, written: nat, ghost utf8: seq<byte>)
      requires Valid() && written == |utf8| < 0x80 && start + 1 + written <= bytes.Length
      requires bytes[start + 1..start + 1 + written] == utf8
      modifies this`length, bytes
      ensures Valid() && Contents() == old(bytes[..start]) + Wire.Varint(written) + utf8
    {
      VarintStep(written);
      bytes[start] := written;
      length := start + 1 + written;
    }

    /**
     The long path: the body stands five bytes past `start`. The prefix is
     written before it without replacing the buffer or touching the body,
     which then moves down.
     */
    method PrefixAndMoveDown(start: nat, written: nat, ghost utf8: seq<byte>)
      requires Valid() && written == |utf8| <= MAX_UINT32 && start + 5 + written <= bytes.Length
      requires bytes[start + 5..start + 5 + written] == utf8
      modifies this, bytes
      ensures Valid() && bytes == old(bytes) && Contents() == old(bytes[..start]) + Wire.Varint(written) + utf8
    {
      hide Wire.Varint;
      VarintLength(written);
      var body := start + 5;
      length := start;
      Varint(written);
      assert bytes[body..body + written] == utf8;
      ghost var head := Contents();
      CopyWithin(length, body, written);
      length := length + written;
      assert Contents() == head + utf8;
    }

    /**
     Length prefix and UTF-8 bytes of a UTF-16 string, without a second
     buffer: below 43 units the prefix is one byte; otherwise the bytes are
     written past the longest prefix and moved down to the real one.
     */
    method String(units: seq<Utf16.unit>)
      requires Valid() && 3 * |units| <= MAX_UINT32
      modifies this, bytes
      ensures Valid() && (fresh(bytes) || bytes == old(bytes))
      ensures var utf8 := Utf8.Encode(Utf16.WireText(units));
              Contents() == old(Contents()) + Wire.Varint(|utf8|) + utf8
    {
      hide Utf8.Encode, Wire.Varint, Utf16.WireText;
      var value := Utf16.WireText(units);
      ghost var utf8 := Utf8.Encode(value);
      Utf16.WireTextLength(units);
      Utf16.Utf8Bound(value);
      Reserve(5 + |units| * 3);
      ghost var prefix := Contents();
      var start := length;
      var lengthSize := if |units| < 43 then 1 else 5;
      var written := EncodeInto(value, start + lengthSize);
      assert bytes[..start] == prefix;
      if lengthSize == 1 {
        PrefixInPlace(start, written, utf8);
      } else {
        PrefixAndMoveDown(start, written, utf8);
      }
    }

    /** Length prefix and UTF-8 bytes, through an encoded copy. */
    method Text(utf8: seq<byte>)
      requires Valid() && |utf8| <= MAX_UINT32
      modifies this, bytes
      ensures Valid() && (fresh(bytes) || bytes == old(bytes))
      ensures Contents() == old(Contents()) + (Wire.Varint(|utf8|) + utf8)
    {
      Varint(|utf8|);
      Bytes(utf8);
    }
  }

  /** The bytes left after a read, `None` once any read failed: errors are sticky. */
  ghost function After<T>(before: Option<seq<byte>>, r: seq<byte> -> Option<(T, seq<byte>)>): Option<seq<byte>> {
    match before
    case None => None
    case Some(s) => if r(s).Some? then Some(r(s).value.1) else None
  }

  /** A group's digits at the scale of its position. */
  function Scaled(digits: nat, scale: nat): nat { digits * scale }

  lemma VarintLoopStep(s: seq<byte>, limit: nat, value: nat, scale: nat, target: Option<(nat, seq<byte>)>, b: int)
    requires s != [] && b == s[0]
    requires VarintFrom(s, limit, value, scale) == target
    ensures limit == 0 ==> target == None
    ensures limit > 0 && b < 0x80 ==> target == Some((value + Scaled(b, scale), s[1..]))
    ensures limit > 0 && b >= 0x80 ==>
              VarintFrom(s[1..], limit - 1, value + Scaled(b - 0x80, scale), scale * 0x80) == target
  {
    if limit > 0 && b >= 0x80 {
      var inner := ReadVarintBounded(s[1..], limit - 1);
      if inner.Some? {
        var v := inner.value.0;
        assert scale * (b - 0x80 + 0x80 * v) == (b - 0x80) * scale + (scale * 0x80) * v;
      }
    }
  }

  /** What is left to read of a varint whose earlier groups gave `value`. */
  ghost function VarintFrom(s: seq<byte>, limit: nat, value: nat, scale: nat): Option<(nat, seq<byte>)> {
    match ReadVarintBounded(s, limit)
    case None => None
    case Some((v, rest)) => Some((value + scale * v, rest))
  }

  class ByteReader {
    const data: seq<byte>
    var pos: nat
    var failed: bool

    ghost predicate Valid()
      reads this
    {
      pos <= |data| && (failed ==> pos == |data|)
    }

    ghost function Rest(): Option<seq<byte>>
      requires Valid()
      reads this
    {
      if failed then None else Some(data[pos..])
    }

    constructor (data: seq<byte>)
      ensures Valid() && this.data == data && Rest() == Some(data)
    {
      this.data := data;
      pos, failed := 0, false;
    }

    /** Records a failure and stops reading. */
    method Fail()
      requires Valid()
      modifies this
      ensures Valid() && Rest() == None
    {
      failed, pos := true, |data|;
    }

    predicate Done()
      reads this
    {
      pos >= |data|
    }

    method U8() returns (b: byte)
      requires Valid()
      modifies this
      ensures Valid()
      ensures old(Rest()).None? || old(Rest()).value == [] ==> Rest() == None
      ensures old(Rest()).Some? && old(Rest()).value != [] ==>
                b == old(Rest()).value[0] && Rest() == Some(old(Rest()).value[1..])
    {
      if pos >= |data| {
        Fail();
        return 0;
      }
      b := data[pos];
      pos := pos + 1;
    }

    /** Unsigned LEB128, at most five bytes, at most 2^32 - 1. */
    method Varint() returns (v: nat)
      requires Valid()
      modifies this
      ensures Valid() && v <= MAX_UINT32
      ensures Rest() == After(old(Rest()), ReadVarint)
      ensures Rest().Some? ==> v == ReadVarint(old(Rest()).value).value.0
    {
      hide ReadVarintBounded, VarintFrom, Scaled;
      ghost var target, was := ReadVarintBounded(data[pos..], 5), failed;
      VarintFromStart(data[pos..]);
      var value: nat, scale: nat := 0, 1;
      for i := 0 to 5
        invariant Valid() && failed == was && (was ==> pos == |data|)
        invariant !was ==> VarintFrom(data[pos..], 5 - i, value, scale) == target
      {
        if pos == |data| {
          VarintEnds(data[pos..], 5 - i, value, scale);
          Fail();
          return 0;
        }
        var b: int := data[pos];
        ghost var s := data[pos..];
        VarintLoopStep(s, 5 - i, value, scale, target, b);
        pos := pos + 1;
        assert data[pos..] == s[1..];
        if b < 0x80 {
          value := value + Scaled(b, scale);
          if value > MAX_UINT32 {
            Fail();
            return 0;
          }
          return value;
        }
        value := value + Scaled(b - 0x80, scale);
        scale := scale * 0x80;
      }
      VarintEnds(data[pos..], 0, value, scale);
      Fail();
      return 0;
    }

    /** The next `count` bytes. */
    method Take(count: nat) returns (b: seq<byte>)
      requires Valid()
      modifies this
      ensures Valid() && Rest() == After(old(Rest()), s => Wire.Take(s, count))
      ensures Rest().Some? ==> b == Wire.Take(old(Rest()).value, count).value.0
    {
      if failed || |data| - pos < count {
        Fail();
        return [];
      }
      b := data[pos..pos + count];
      pos := pos + count;
    }
  }

  lemma VarintFromStart(s: seq<byte>)
    ensures VarintFrom(s, 5, 0, 1) == ReadVarintBounded(s, 5)
  {
  }

  lemma VarintEnds(s: seq<byte>, limit: nat, value: nat, scale: nat)
    requires s == [] || limit == 0
    ensures VarintFrom(s, limit, value, scale) == None
  {
  }

  // --------------------------------------------- loops that write or read parts

  /** `done` is out, and `rest` of `all` is to come. */
  ghost predicate Remains<T>(all: Option<seq<T>>, done: seq<T>, rest: Option<seq<T>>) {
    all == if rest.Some? then Some(done + rest.value) else None
  }

  lemma RemainsFirst<T>(all: Option<seq<T>>)
    ensures Remains(all, [], all)
  {
    if all.Some? {
      assert [] + all.value == all.value;
    }
  }

  lemma RemainsNext<T>(all: Option<seq<T>>, done: seq<T>, first: seq<T>, rest: Option<seq<T>>)
    requires Remains(all, done, if rest.Some? then Some(first + rest.value) else None)
    ensures Remains(all, done + first, rest)
  {
    if rest.Some? {
      assert done + (first + rest.value) == (done + first) + rest.value;
    }
  }

  lemma RemainsLast<T>(all: Option<seq<T>>, done: seq<T>)
    requires Remains(all, done, Some([]))
    ensures all == Some(done)
  {
    assert done + [] == done;
  }

  /** What a read leaves and gives, as its function says: nothing is left once it fails. */
  ghost predicate Got<T>(spec: Option<(T, seq<byte>)>, left: Option<seq<byte>>, value: T) {
    && left == (if spec.Some? then Some(spec.value.1) else None)
    && (spec.Some? ==> value == spec.value.0)
  }

  /** `items` are read, and `r` is what reading the rest gives. */
  ghost predicate Continues<T>(all: Option<(seq<T>, seq<byte>)>, items: seq<T>, r: Option<(seq<T>, seq<byte>)>) {
    all == if r.Some? then Some((items + r.value.0, r.value.1)) else None
  }

  lemma ContinuesNext<T>(all: Option<(seq<T>, seq<byte>)>, items: seq<T>, first: seq<T>, r: Option<(seq<T>, seq<byte>)>)
    requires Continues(all, items, if r.Some? then Some((first + r.value.0, r.value.1)) else None)
    ensures Continues(all, items + first, r)
  {
    if r.Some? {
      assert items + (first + r.value.0) == (items + first) + r.value.0;
    }
  }

  lemma ContinuesFirst<T>(all: Option<(seq<T>, seq<byte>)>)
    ensures Continues(all, [], all)
  {
    if all.Some? {
      assert [] + all.value.0 == all.value.0;
    }
  }

  lemma ContinuesNot<T>(all: Option<(seq<T>, seq<byte>)>, items: seq<T>)
    ensures Continues(all, items, None) ==> all == None
  {
  }

  lemma ContinuesLast<T>(all: Option<(seq<T>, seq<byte>)>, items: seq<T>, rest: seq<byte>)
    requires Continues(all, items, Some(([], rest)))
    ensures all == Some((items, rest))
  {
    assert items + [] == items;
  }
}
