/** MessagePack written to a buffer and read from one with sticky errors, as the functions of `MessagePack` do. */
module MessagePackIO {
  import opened Wrappers
  import opened Wire
  import opened Doubles
  import opened MessagePack
  import opened Buffers
  import Utf8

  // ----------------------------------------------------------------- writing

  method WriteTextTo(out: ByteWriter, s: string) returns (ok: bool)
    requires out.Valid()
    modifies out, out.bytes
    ensures out.Valid() && (fresh(out.bytes) || out.bytes == old(out.bytes))
    ensures ok == WriteText(s).Some?
    ensures ok ==> out.Contents() == old(out.Contents()) + WriteText(s).value
  {
    hide BigEndian;
    hide Utf8.Encode, Utf8.WireText;
    var utf8 := Utf8.Encode(Utf8.WireText(s));
    ghost var before := out.Contents();
    var n := |utf8|;
    if n <= 31 {
      out.U8(0xa0 + n);
      assert before + [0xa0 + n] + utf8 == before + ([0xa0 + n] + utf8);
    } else if n > MAX_INT32 {
      return false;
    } else {
      var head := if n <= 0xff then 0xd9 else if n <= 0xffff then 0xda else 0xdb;
      var size := if n <= 0xff then 1 else if n <= 0xffff then 2 else 4;
      out.U8(head);
      out.Bytes(BigEndian(n, size));
      assert before + [head] + BigEndian(n, size) + utf8 == before + ([head] + BigEndian(n, size) + utf8);
    }
    out.Bytes(utf8);
    return true;
  }

  method WriteBinTo(out: ByteWriter, data: seq<byte>) returns (ok: bool)
    requires out.Valid()
    modifies out, out.bytes
    ensures out.Valid() && (fresh(out.bytes) || out.bytes == old(out.bytes))
    ensures ok == WriteBin(data).Some?
    ensures ok ==> out.Contents() == old(out.Contents()) + WriteBin(data).value
  {
    hide BigEndian;
    ghost var before := out.Contents();
    var n := |data|;
    if n > MAX_INT32 {
      return false;
    }
    var head := if n <= 0xff then 0xc4 else if n <= 0xffff then 0xc5 else 0xc6;
    var size := if n <= 0xff then 1 else if n <= 0xffff then 2 else 4;
    out.U8(head);
    out.Bytes(BigEndian(n, size));
    out.Bytes(data);
    assert before + [head] + BigEndian(n, size) + data == before + ([head] + BigEndian(n, size) + data);
    return true;
  }

  method WriteHeaderTo(out: ByteWriter, count: nat, short: byte, wide: byte) returns (ok: bool)
    requires out.Valid() && short + 15 < 256 && wide + 1 < 256
    modifies out, out.bytes
    ensures out.Valid() && (fresh(out.bytes) || out.bytes == old(out.bytes))
    ensures ok == Header(count, short, wide).Some?
    ensures ok ==> out.Contents() == old(out.Contents()) + Header(count, short, wide).value
  {
    hide BigEndian;
    ghost var before := out.Contents();
    if count <= 15 {
      out.U8(short + count);
    } else if count > MAX_INT32 {
      return false;
    } else {
      var head, size := if count <= 0xffff then wide else wide + 1, if count <= 0xffff then 2 else 4;
      out.U8(head);
      out.Bytes(BigEndian(count, size));
      assert before + [head] + BigEndian(count, size) == before + ([head] + BigEndian(count, size));
    }
    return true;
  }

  method WriteTo(out: ByteWriter, v: Value, depth: nat) returns (ok: bool)
    requires out.Valid()
    modifies out, out.bytes
    ensures out.Valid() && (fresh(out.bytes) || out.bytes == old(out.bytes))
    ensures ok == Write(v, depth).Some?
    ensures ok ==> out.Contents() == old(out.Contents()) + Write(v, depth).value
    decreases v, 1
  {
    hide WriteInt, WriteText, WriteBin, WriteFloat, Header, WriteItems, WriteEntries, BigEndian, WholeOf, DoubleOf;
    if depth > MAX_DEPTH {
      return false;
    }
    ok := true;
    match v {
      case Nil => out.U8(0xc0);
      case Flag(b) => out.U8(if b then 0xc3 else 0xc2);
      case Int(n) =>
        if !IsInt64(n) {
          return false;
        }
        if IsSafe(n) {
          out.Bytes(WriteInt(n));
        } else {
          out.Bytes(WriteFloat(DoubleOf(n)));
        }
      case Float(bits) =>
        var whole := WholeOf(bits);
        if whole.Some? {
          out.Bytes(WriteInt(whole.value));
        } else {
          out.Bytes(WriteFloat(bits));
        }
      case Text(s) => ok := WriteTextTo(out, s);
      case Bin(data) => ok := WriteBinTo(out, data);
      case List(items) =>
        ghost var before := out.Contents();
        ok := WriteHeaderTo(out, |items|, 0x90, 0xdc);
        if ok {
          ok := WriteItemsTo(out, items, depth);
        }
        if ok {
          Associates(before, Header(|items|, 0x90, 0xdc).value, WriteItems(items, depth).value);
        }
      case Dict(entries) =>
        ghost var before := out.Contents();
        ok := WriteHeaderTo(out, |entries|, 0x80, 0xde);
        if ok {
          ok := WriteEntriesTo(out, entries, depth);
        }
        if ok {
          Associates(before, Header(|entries|, 0x80, 0xde).value, WriteEntries(entries, depth).value);
        }
    }
  }

  lemma Associates(a: seq<byte>, b: seq<byte>, c: seq<byte>)
    ensures a + b + c == a + (b + c)
  {
  }

  lemma ItemsFrom(items: seq<Value>, i: nat, depth: nat)
    requires i < |items|
    ensures var first, rest := Write(items[i], depth + 1), WriteItems(items[i + 1..], depth);
            WriteItems(items[i..], depth) == if first.Some? && rest.Some? then Some(first.value + rest.value) else None
  {
    hide Write;
    assert items[i..][0] == items[i] && items[i..][1..] == items[i + 1..];
  }

  lemma EntriesFrom(entries: seq<Entry>, i: nat, depth: nat)
    requires i < |entries|
    ensures var first, rest := WriteEntry(entries[i], depth), WriteEntries(entries[i + 1..], depth);
            WriteEntries(entries[i..], depth) == if first.Some? && rest.Some? then Some(first.value + rest.value)
                else None
  {
    hide WriteEntry;
    assert entries[i..][0] == entries[i] && entries[i..][1..] == entries[i + 1..];
  }

  lemma NoneLeft(depth: nat)
    ensures WriteItems([], depth) == Some([]) && WriteEntries([], depth) == Some([])
  {
  }

  method WriteItemsTo(out: ByteWriter, items: seq<Value>, depth: nat) returns (ok: bool)
    requires out.Valid()
    modifies out, out.bytes
    ensures out.Valid() && (fresh(out.bytes) || out.bytes == old(out.bytes))
    ensures ok == WriteItems(items, depth).Some?
    ensures ok ==> out.Contents() == old(out.Contents()) + WriteItems(items, depth).value
    decreases items, 0
  {
    hide Write, WriteItems;
    ghost var start, all, done := out.Contents(), WriteItems(items, depth), [];
    assert items[0..] == items && start + [] == start;
    RemainsFirst(all);
    for i := 0 to |items|
      invariant out.Valid() && (fresh(out.bytes) || out.bytes == old(out.bytes))
      invariant out.Contents() == start + done && Remains(all, done, WriteItems(items[i..], depth))
    {
      ItemsFrom(items, i, depth);
      ok := WriteTo(out, items[i], depth + 1);
      if !ok {
        return;
      }
      ghost var first := Write(items[i], depth + 1).value;
      RemainsNext(all, done, first, WriteItems(items[i + 1..], depth));
      Associates(start, done, first);
      done := done + first;
    }
    assert items[|items|..] == [];
    NoneLeft(depth);
    RemainsLast(all, done);
    ok := true;
  }

  method WriteEntriesTo(out: ByteWriter, entries: seq<Entry>, depth: nat) returns (ok: bool)
    requires out.Valid()
    modifies out, out.bytes
    ensures out.Valid() && (fresh(out.bytes) || out.bytes == old(out.bytes))
    ensures ok == WriteEntries(entries, depth).Some?
    ensures ok ==> out.Contents() == old(out.Contents()) + WriteEntries(entries, depth).value
    decreases entries, 0
  {
    hide WriteEntry, WriteEntries;
    ghost var start, all, done := out.Contents(), WriteEntries(entries, depth), [];
    assert entries[0..] == entries && start + [] == start;
    RemainsFirst(all);
    for i := 0 to |entries|
      invariant out.Valid() && (fresh(out.bytes) || out.bytes == old(out.bytes))
      invariant out.Contents() == start + done && Remains(all, done, WriteEntries(entries[i..], depth))
    {
      EntriesFrom(entries, i, depth);
      ok := WriteEntryTo(out, entries[i], depth);
      if !ok {
        return;
      }
      ghost var first := WriteEntry(entries[i], depth).value;
      RemainsNext(all, done, first, WriteEntries(entries[i + 1..], depth));
      Associates(start, done, first);
      done := done + first;
    }
    assert entries[|entries|..] == [];
    NoneLeft(depth);
    RemainsLast(all, done);
    ok := true;
  }

  method WriteEntryTo(out: ByteWriter, e: Entry, depth: nat) returns (ok: bool)
    requires out.Valid()
    modifies out, out.bytes
    ensures out.Valid() && (fresh(out.bytes) || out.bytes == old(out.bytes))
    ensures ok == WriteEntry(e, depth).Some?
    ensures ok ==> out.Contents() == old(out.Contents()) + WriteEntry(e, depth).value
    decreases e, 1
  {
    hide Write, WriteText;
    ghost var before := out.Contents();
    ok := WriteTextTo(out, e.key);
    if ok {
      ok := WriteTo(out, e.value, depth + 1);
    }
    if ok {
      Associates(before, WriteText(e.key).value, Write(e.value, depth + 1).value);
    }
  }

  method EncodeValue(v: Value) returns (b: Option<seq<byte>>)
    ensures b == Encode(v)
  {
    var out := new ByteWriter();
    var ok := WriteTo(out, v, 0);
    if !ok {
      return None;
    }
    assert [] + Write(v, 0).value == Write(v, 0).value;
    return Some(out.bytes[..out.length]);
  }

  // ----------------------------------------------------------------- reading

  /** The rest of the input, whether or not a read failed, in bytes. */
  ghost function Left(input: ByteReader): nat
    requires input.Valid()
    reads input
  {
    |input.data| - input.pos
  }

  method ReadNumberFrom(input: ByteReader, size: nat) returns (n: nat)
    requires input.Valid()
    modifies input
    ensures input.Valid() && Left(input) <= old(Left(input))
    ensures old(input.Rest()).None? ==> input.Rest() == None
    ensures old(input.Rest()).Some? ==> Got(ReadNumber(old(input.Rest()).value, size), input.Rest(), n)
    ensures n < Range256(size)
  {
    hide FromBigEndian, Range256;
    var b := input.Take(size);
    if input.failed {
      Positive(size);
      return 0;
    }
    BigEndianBound(b);
    n := FromBigEndian(b);
  }

  lemma Positive(size: nat)
    ensures Range256(size) > 0
  {
  }

  /** A float 64, or a float 32 widened to one. */
  method ReadFloatFrom(input: ByteReader, head: byte) returns (v: Value)
    requires input.Valid()
    modifies input
    ensures input.Valid() && Left(input) <= old(Left(input))
    ensures old(input.Rest()).None? ==> input.Rest() == None
    ensures old(input.Rest()).Some? ==> Got(ReadFloat(head, old(input.Rest()).value), input.Rest(), v)
  {
    hide ReadNumber, Range256, Widen;
    Ranges();
    if head == 0xca {
      var n := ReadNumberFrom(input, 4);
      v := Float(Widen(n));
    } else {
      var n := ReadNumberFrom(input, 8);
      v := Float(n);
    }
  }

  method ReadUnsignedFrom(input: ByteReader, head: byte) returns (v: Value)
    requires input.Valid() && 0xcc <= head <= 0xcf
    modifies input
    ensures input.Valid() && Left(input) <= old(Left(input))
    ensures old(input.Rest()).None? ==> input.Rest() == None
    ensures old(input.Rest()).Some? ==> Got(ReadUnsigned(head, old(input.Rest()).value), input.Rest(), v)
  {
    hide ReadNumber, Range256, DoubleOf;
    Ranges();
    var n := ReadNumberFrom(input, Width(head - 0xcc));
    v := if n <= 0x7FFF_FFFF_FFFF_FFFF then Int(n) else Float(DoubleOf(n));
  }

  method ReadLengthFrom(input: ByteReader, size: nat) returns (n: nat)
    requires input.Valid()
    modifies input
    ensures input.Valid() && Left(input) <= old(Left(input))
    ensures old(input.Rest()).None? ==> input.Rest() == None
    ensures old(input.Rest()).Some? ==> Got(ReadLength(old(input.Rest()).value, size), input.Rest(), n)
  {
    hide ReadNumber;
    n := ReadNumberFrom(input, size);
    if !input.failed && n > |input.data| - input.pos {
      input.Fail();
    }
  }

  method ReadTextFrom(input: ByteReader, count: nat) returns (v: Value)
    requires input.Valid()
    modifies input
    ensures input.Valid() && Left(input) <= old(Left(input))
    ensures old(input.Rest()).None? ==> input.Rest() == None
    ensures old(input.Rest()).Some? ==> Got(ReadText(old(input.Rest()).value, count), input.Rest(), v)
  {
    hide Utf8.Decode;
    v := Nil;
    var b := input.Take(count);
    if input.failed {
      return;
    }
    var text := Utf8.Decode(b);
    if text.None? {
      input.Fail();
      return;
    }
    v := Text(text.value);
  }

  method ReadBinFrom(input: ByteReader, count: nat) returns (v: Value)
    requires input.Valid()
    modifies input
    ensures input.Valid() && Left(input) <= old(Left(input))
    ensures old(input.Rest()).None? ==> input.Rest() == None
    ensures old(input.Rest()).Some? ==> Got(ReadBin(old(input.Rest()).value, count), input.Rest(), v)
  {
    var b := input.Take(count);
    v := Bin(b);
  }

  method ReadFrom(input: ByteReader, depth: nat) returns (v: Value)
    requires input.Valid()
    modifies input
    ensures input.Valid() && Left(input) <= old(Left(input))
    ensures old(input.Rest()).None? ==> input.Rest() == None
    ensures old(input.Rest()).Some? ==> Got(Read(old(input.Rest()).value, depth), input.Rest(), v)
    decreases |input.data| - input.pos, 0
  {
    hide ReadMap, ReadArray, ReadText, ReadLong;
    v := Nil;
    if depth > MAX_DEPTH {
      input.Fail();
      return;
    }
    ghost var before := input.Rest();
    var head := input.U8();
    if input.failed {
      return;
    }
    assert |input.Rest().value| == |before.value| - 1;
    assert Left(input) < old(Left(input));
    if head <= 0x7f {
      v := Int(head);
    } else if head >= 0xe0 {
      v := Int(head as int - 0x100);
    } else if head <= 0x8f {
      v := ReadMapFrom(input, head - 0x80, depth);
    } else if head <= 0x9f {
      v := ReadArrayFrom(input, head - 0x90, depth);
    } else if head <= 0xbf {
      v := ReadTextFrom(input, head - 0xa0);
    } else {
      v := ReadLongFrom(input, head, depth);
    }
  }

  method ReadLongFrom(input: ByteReader, head: byte, depth: nat) returns (v: Value)
    requires input.Valid() && depth <= MAX_DEPTH
    modifies input
    ensures input.Valid() && Left(input) <= old(Left(input))
    ensures old(input.Rest()).None? ==> input.Rest() == None
    ensures old(input.Rest()).Some? ==> Got(ReadLong(head, old(input.Rest()).value, depth), input.Rest(), v)
    decreases |input.data| - input.pos, 3
  {
    hide ReadMap, ReadArray, ReadText, ReadBin, ReadLength, ReadNumber, ReadFloat, ReadUnsigned, Range256;
    v := Nil;
    if head == 0xc0 {
    } else if head == 0xc2 || head == 0xc3 {
      v := Flag(head == 0xc3);
    } else if head == 0xca || head == 0xcb {
      v := ReadFloatFrom(input, head);
    } else if 0xcc <= head <= 0xcf {
      v := ReadUnsignedFrom(input, head);
    } else if 0xd0 <= head <= 0xd3 {
      var size := Width(head - 0xd0);
      var n := ReadNumberFrom(input, size);
      v := Int(if 2 * n < Range256(size) then n else n - Range256(size));
    } else if 0xc4 <= head <= 0xc6 {
      var n := ReadLengthFrom(input, Width(head - 0xc4));
      v := ReadBinFrom(input, n);
    } else if 0xd9 <= head <= 0xdb {
      var n := ReadLengthFrom(input, Width(head - 0xd9));
      v := ReadTextFrom(input, n);
    } else if 0xdc <= head <= 0xdd {
      var n := ReadLengthFrom(input, Width(head - 0xdb));
      v := ReadArrayFrom(input, n, depth);
    } else if 0xde <= head <= 0xdf {
      var n := ReadLengthFrom(input, Width(head - 0xdd));
      v := ReadMapFrom(input, n, depth);
    } else {
      input.Fail();
    }
  }

  method ReadArrayFrom(input: ByteReader, count: nat, depth: nat) returns (v: Value)
    requires input.Valid()
    modifies input
    ensures input.Valid() && Left(input) <= old(Left(input))
    ensures old(input.Rest()).None? ==> input.Rest() == None
    ensures old(input.Rest()).Some? ==> Got(ReadArray(old(input.Rest()).value, count, depth), input.Rest(), v)
    decreases |input.data| - input.pos, 2
  {
    hide ReadItems;
    v := Nil;
    if input.failed || count > |input.data| - input.pos {
      input.Fail();
      return;
    }
    var items := ReadItemsFrom(input, count, depth);
    v := List(items);
  }

  lemma ItemsStep(s: seq<byte>, count: nat, depth: nat)
    requires count > 0
    ensures Read(s, depth + 1).None? ==> ReadItems(s, count, depth) == None
    ensures Read(s, depth + 1).Some? ==>
              var (first, after) := Read(s, depth + 1).value;
              var r := ReadItems(after, count - 1, depth);
              ReadItems(s, count, depth) == if r.Some? then Some(([first] + r.value.0, r.value.1)) else None
  {
    hide Read;
  }

  lemma NoMore(s: seq<byte>, depth: nat)
    ensures ReadItems(s, 0, depth) == Some(([], s))
    ensures forall seen :: ReadEntries(s, 0, depth, seen) == Some(([], s))
  {
  }

  method ReadItemsFrom(input: ByteReader, count: nat, depth: nat) returns (items: seq<Value>)
    requires input.Valid() && !input.failed
    modifies input
    ensures input.Valid() && Left(input) <= old(Left(input))
    ensures Got(ReadItems(old(input.Rest()).value, count, depth), input.Rest(), items)
    decreases |input.data| - input.pos, 1
  {
    hide Read, ReadItems, Continues;
    ghost var all := ReadItems(input.Rest().value, count, depth);
    items := [];
    ContinuesFirst(all);
    var i := 0;
    while i < count && !input.failed
      invariant i <= count && input.Valid() && Left(input) <= old(Left(input))
      invariant input.Rest().None? ==> all == None
      invariant input.Rest().Some? ==> Continues(all, items, ReadItems(input.Rest().value, count - i, depth))
      decreases count - i
    {
      ItemsStep(input.Rest().value, count - i, depth);
      ContinuesNot(all, items);
      var one := ReadFrom(input, depth + 1);
      if !input.failed {
        ContinuesNext(all, items, [one], ReadItems(input.Rest().value, count - i - 1, depth));
      }
      items := items + [one];
      i := i + 1;
    }
    if !input.failed {
      NoMore(input.Rest().value, depth);
      ContinuesLast(all, items, input.Rest().value);
    }
  }

  method ReadMapFrom(input: ByteReader, count: nat, depth: nat) returns (v: Value)
    requires input.Valid()
    modifies input
    ensures input.Valid() && Left(input) <= old(Left(input))
    ensures old(input.Rest()).None? ==> input.Rest() == None
    ensures old(input.Rest()).Some? ==> Got(ReadMap(old(input.Rest()).value, count, depth), input.Rest(), v)
    decreases |input.data| - input.pos, 2
  {
    hide ReadEntries;
    v := Nil;
    if input.failed || count > |input.data| - input.pos {
      input.Fail();
      return;
    }
    var entries := ReadEntriesFrom(input, count, depth);
    v := Dict(entries);
  }

  lemma EntriesStep(s: seq<byte>, count: nat, depth: nat, seen: set<string>)
    requires count > 0
    ensures Read(s, depth + 1).None? ==> ReadEntries(s, count, depth, seen) == None
    ensures Read(s, depth + 1).Some? ==>
              var (key, after) := Read(s, depth + 1).value;
              && (!key.Text? || key.s == "__proto__" ==> ReadEntries(s, count, depth, seen) == None)
              && (Read(after, depth + 1).None? ==> ReadEntries(s, count, depth, seen) == None)
              && (key.Text? && key.s in seen ==> ReadEntries(s, count, depth, seen) == None)
              && (key.Text? && key.s != "__proto__" && key.s !in seen && Read(after, depth + 1).Some? ==>
                    var (first, next) := Read(after, depth + 1).value;
                    var r := ReadEntries(next, count - 1, depth, seen + {key.s});
                    ReadEntries(s, count, depth, seen) == if r.Some?
                        then Some(([Entry(key.s, first)] + r.value.0, r.value.1)) else None)
  {
    hide Read;
  }

  method ReadEntriesFrom(input: ByteReader, count: nat, depth: nat) returns (entries: seq<Entry>)
    requires input.Valid() && !input.failed
    modifies input
    ensures input.Valid() && Left(input) <= old(Left(input))
    ensures Got(ReadEntries(old(input.Rest()).value, count, depth, {}), input.Rest(), entries)
    decreases |input.data| - input.pos, 1
  {
    hide Read, ReadEntries, Continues;
    ghost var all := ReadEntries(input.Rest().value, count, depth, {});
    entries := [];
    ContinuesFirst(all);
    var seen: set<string> := {};
    var i := 0;
    while i < count && !input.failed
      invariant i <= count && input.Valid() && Left(input) <= old(Left(input))
      invariant input.Rest().None? ==> all == None
      invariant input.Rest().Some? ==> Continues(all, entries, ReadEntries(input.Rest().value, count - i, depth, seen))
      decreases count - i
    {
      EntriesStep(input.Rest().value, count - i, depth, seen);
      ContinuesNot(all, entries);
      var key := ReadFrom(input, depth + 1);
      if input.failed {
        return;
      }
      if !key.Text? || key.s == "__proto__" {
        input.Fail();
        return;
      }
      var value := ReadFrom(input, depth + 1);
      if input.failed {
        return;
      }
      if key.s in seen {
        input.Fail();
        return;
      }
      ContinuesNext(all, entries, [Entry(key.s, value)], ReadEntries(input.Rest().value, count - i - 1, depth,
                                                                     seen + {key.s}));
      entries := entries + [Entry(key.s, value)];
      seen := seen + {key.s};
      i := i + 1;
    }
    if !input.failed {
      NoMore(input.Rest().value, depth);
      ContinuesLast(all, entries, input.Rest().value);
    }
  }

  /** Exactly one value, with nothing after it. */
  method DecodeValue(data: seq<byte>) returns (v: Option<Value>)
    ensures v == Decode(data)
  {
    hide Read;
    var input := new ByteReader(data);
    var one := ReadFrom(input, 0);
    return if !input.failed && input.Done() then Some(one) else None;
  }
}
