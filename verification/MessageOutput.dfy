/**
 Contract messages written to a buffer and read from one: flags are collected
 while the fields go out and patched in over the zeros that held their place.
 */
module MessageOutput {
  import opened Wrappers
  import opened Wire
  import opened StateTypes
  import opened OpCodec
  import opened Contract
  import opened Messages
  import opened Buffers
  import MessageProofs
  import SchemaSession

  // ------------------------------------------------------------------- flags

  /** `b` with bit `j` set. */
  function WithBit(b: nat, j: nat): nat {
    if j == 0 then (if b % 2 == 0 then b + 1 else b) else 2 * WithBit(b / 2, j - 1) + b % 2
  }

  lemma {:induction false} WithBitIs(b: nat, j: nat, n: nat)
    requires j < n && b < Power2(n)
    ensures WithBit(b, j) < Power2(n) && BitsOf(WithBit(b, j), n) == BitsOf(b, n)[j := true]
    decreases j
  {
    if j > 0 {
      WithBitIs(b / 2, j - 1, n - 1);
      var w := WithBit(b, j);
      assert w % 2 == b % 2 && w / 2 == WithBit(b / 2, j - 1);
      assert BitsOf(b, n)[j := true] == [b % 2 == 1] + BitsOf(b / 2, n - 1)[j - 1 := true];
    } else {
      var w := WithBit(b, 0);
      assert w / 2 == b / 2;
      assert BitsOf(b, n)[0 := true] == [true] + BitsOf(b / 2, n - 1);
    }
  }

  lemma PowerOfEight()
    ensures Power2(8) == 256
  {
    assert Power2(4) == 16;
  }

  lemma {:induction false} UnpackUpdate(s: seq<byte>, k: nat, b: byte, j: nat)
    requires k < |s| && j < 8 && BitsOf(b, 8) == BitsOf(s[k], 8)[j := true]
    ensures UnpackBits(s[k := b]) == UnpackBits(s)[8 * k + j := true]
    decreases k
  {
    hide BitsOf;
    var s' := s[k := b];
    if k == 0 {
      assert s'[1..] == s[1..];
    } else {
      UnpackUpdate(s[1..], k - 1, b, j);
      assert s'[1..] == s[1..][k - 1 := b];
    }
  }

  method SetBit(flags: array<byte>, bit: nat)
    requires bit < 8 * flags.Length
    modifies flags
    ensures UnpackBits(flags[..]) == UnpackBits(old(flags[..]))[bit := true]
  {
    hide UnpackBits, BitsOf, WithBit;
    var k, j := bit / 8, bit % 8;
    PowerOfEight();
    WithBitIs(flags[k], j, 8);
    UnpackUpdate(flags[..], k, WithBit(flags[k], j), j);
    ghost var before := flags[..];
    flags[k] := WithBit(flags[k], j);
    assert flags[..] == before[k := flags[k]];
  }

  /** Bytes are known by their bits. */
  lemma {:induction false} BitsInjective(a: nat, b: nat, n: nat)
    requires a < Power2(n) && b < Power2(n) && BitsOf(a, n) == BitsOf(b, n)
    ensures a == b
    decreases n
  {
    if n > 0 {
      assert BitsOf(a, n)[0] == BitsOf(b, n)[0];
      assert BitsOf(a, n)[1..] == BitsOf(a / 2, n - 1) && BitsOf(b, n)[1..] == BitsOf(b / 2, n - 1);
      BitsInjective(a / 2, b / 2, n - 1);
    }
  }

  lemma {:induction false} UnpackInjective(a: seq<byte>, b: seq<byte>)
    requires |a| == |b| && UnpackBits(a) == UnpackBits(b)
    ensures a == b
    decreases |a|
  {
    hide BitsOf;
    if a != [] {
      assert UnpackBits(a)[..8] == BitsOf(a[0], 8) && UnpackBits(b)[..8] == BitsOf(b[0], 8);
      assert UnpackBits(a)[8..] == UnpackBits(a[1..]) && UnpackBits(b)[8..] == UnpackBits(b[1..]);
      PowerOfEight();
      BitsInjective(a[0], b[0], 8);
      UnpackInjective(a[1..], b[1..]);
      assert a == [a[0]] + a[1..] && b == [b[0]] + b[1..];
    }
  }

  lemma {:induction false} UnpackZeros(s: seq<byte>)
    requires forall i :: 0 <= i < |s| ==> s[i] == 0
    ensures UnpackBits(s) == Zeros(8 * |s|)
    decreases |s|
  {
    if s != [] {
      UnpackZeros(s[1..]);
      BitsOfByte([], 8);
      assert ByteOf([]) == 0 && [] + Zeros(8) == Zeros(8);
    }
  }

  lemma {:induction false} FlagsLast(fields: seq<Field>, f: Field, props: seq<Prop>)
    ensures MessageFlags(fields + [f], props) == MessageFlags(fields, props) + FieldFlags(f.of, Lookup(props, f.name))
  {
    if fields == [] {
      assert [] + [f] == [f] && [f][1..] == [];
    } else {
      assert (fields + [f])[1..] == fields[1..] + [f];
      FlagsLast(fields[1..], f, props);
    }
  }

  lemma {:induction false} FieldsLast(fields: seq<Field>, f: Field, props: seq<Prop>)
    ensures var before, last := WriteFields(fields, props), WriteField(f, Lookup(props, f.name));
            WriteFields(fields + [f], props) == if before.Some? && last.Some? then Some(before.value + last.value)
                else None
  {
    hide WriteField;
    if fields == [] {
      assert [] + [f] == [f] && [f][1..] == [];
      var last := WriteField(f, Lookup(props, f.name));
      if last.Some? {
        assert last.value + [] == last.value && [] + last.value == last.value;
      }
    } else {
      assert (fields + [f])[1..] == fields[1..] + [f];
      FieldsLast(fields[1..], f, props);
      var first, rest, last := WriteField(fields[0], Lookup(props, fields[0].name)), WriteFields(fields[1..], props),
          WriteField(f, Lookup(props, f.name));
      if first.Some? && rest.Some? && last.Some? {
        assert first.value + (rest.value + last.value) == (first.value + rest.value) + last.value;
      }
    }
  }

  /** A field that cannot be written makes the whole message unwritable. */
  lemma {:induction false} FieldsFail(fields: seq<Field>, props: seq<Prop>, i: nat)
    requires i < |fields| && WriteField(fields[i], Lookup(props, fields[i].name)).None?
    ensures WriteFields(fields, props).None?
    decreases |fields|
  {
    hide WriteField;
    if i > 0 {
      FieldsFail(fields[1..], props, i - 1);
    }
  }

  /** `put` over the bits from `at` on. */
  function Placed(bits: seq<bool>, at: nat, put: seq<bool>): seq<bool>
    requires at + |put| <= |bits|
  {
    bits[..at] + put + bits[at + |put|..]
  }

  predicate AllZero(bits: seq<bool>, at: nat, n: nat)
    requires at + n <= |bits|
  {
    forall i :: at <= i < at + n ==> !bits[i]
  }

  /** A field's flags: the presence and value bits the plan gives it. */
  method FlagField(flags: array<byte>, of: FieldType, d: Data, bit: int, valueBit: int, ghost at: nat)
    requires at + BitCount(of) <= 8 * flags.Length && AllZero(UnpackBits(flags[..]), at, BitCount(of))
    requires (BitCount(of) > 0 ==> bit == at) && (BitCount(of) == 2 ==> valueBit == at + 1)
    modifies flags
    ensures UnpackBits(flags[..]) == Placed(UnpackBits(old(flags[..])), at, FieldFlags(of, d))
  {
    hide UnpackBits;
    ghost var bits := UnpackBits(flags[..]);
    if of == TheBool {
      if d == Leaf(Flag(true)) {
        SetBit(flags, bit);
      }
    } else if of.OptionalOf? && d != Nothing {
      SetBit(flags, bit);
      if of.item == TheBool && d == Leaf(Flag(true)) {
        SetBit(flags, valueBit);
      }
    }
    assert UnpackBits(flags[..]) == Placed(bits, at, FieldFlags(of, d));
  }

  // ----------------------------------------------------------------- writing

  method WriteDataTo(out: ByteWriter, of: FieldType, d: Data) returns (ok: bool)
    requires out.Valid()
    modifies out, out.bytes
    ensures out.Valid() && (fresh(out.bytes) || out.bytes == old(out.bytes))
    ensures ok == WriteData(of, d).Some?
    ensures ok ==> out.Contents() == old(out.Contents()) + WriteData(of, d).value
    decreases of, 0, 0
  {
    hide OpCodec.WriteScalar, Varint, WriteItems, WriteProps, WriteMessage;
    ok := false;
    match of {
      case Plain(scalar) =>
        if d.Leaf? {
          ok := SchemaSession.Session.WriteScalar(out, scalar, d.v);
        }
      case Choice(values) =>
        if d.Leaf? {
          var index := ChoiceIndex(values, d.v);
          if index.Some? && index.value <= MAX_UINT32 {
            out.Varint(index.value);
            ok := true;
          }
        }
      case ArrayOf(item) =>
        if d.Items? && |d.items| <= MAX_INT32 {
          ghost var before := out.Contents();
          out.Varint(|d.items|);
          ok := WriteItemsTo(out, item, d.items);
          if ok {
            assert before + Varint(|d.items|) + WriteItems(item, d.items).value
                == before + (Varint(|d.items|) + WriteItems(item, d.items).value);
          }
        }
      case MapOf(item) =>
        if d.Obj? && |d.props| <= MAX_INT32 {
          ghost var before := out.Contents();
          out.Varint(|d.props|);
          ok := WritePropsTo(out, item, d.props);
          if ok {
            assert before + Varint(|d.props|) + WriteProps(item, d.props).value
                == before + (Varint(|d.props|) + WriteProps(item, d.props).value);
          }
        }
      case OptionalOf(item) =>
        ghost var before := out.Contents();
        if d.Nothing? {
          out.U8(0);
          ok := true;
        } else {
          out.U8(1);
          ok := WriteDataTo(out, item, d);
          if ok {
            assert before + [1] + WriteData(item, d).value == before + ([1] + WriteData(item, d).value);
          }
        }
      case NestedOf(message) =>
        ok := WriteMessageTo(out, message, d);
    }
  }

  /** Everything in `items` from `i` on still has to go out. */
  lemma ItemsFrom(item: FieldType, items: seq<Data>, i: nat)
    requires i < |items|
    ensures var first, rest := WriteData(item, items[i]), WriteItems(item, items[i + 1..]);
            WriteItems(item, items[i..]) == if first.Some? && rest.Some? then Some(first.value + rest.value) else None
  {
    hide WriteData;
    assert items[i..][0] == items[i] && items[i..][1..] == items[i + 1..];
  }

  method WriteItemsTo(out: ByteWriter, item: FieldType, items: seq<Data>) returns (ok: bool)
    requires out.Valid()
    modifies out, out.bytes
    ensures out.Valid() && (fresh(out.bytes) || out.bytes == old(out.bytes))
    ensures ok == WriteItems(item, items).Some?
    ensures ok ==> out.Contents() == old(out.Contents()) + WriteItems(item, items).value
    decreases item, 1, |items|
  {
    hide WriteData, WriteItems;
    ghost var start, all, done := out.Contents(), WriteItems(item, items), [];
    assert items[0..] == items;
    RemainsFirst(all);
    assert start + [] == start;
    for i := 0 to |items|
      invariant out.Valid() && (fresh(out.bytes) || out.bytes == old(out.bytes))
      invariant out.Contents() == start + done && Remains(all, done, WriteItems(item, items[i..]))
    {
      ItemsFrom(item, items, i);
      ok := WriteDataTo(out, item, items[i]);
      if !ok {
        return;
      }
      ghost var first := WriteData(item, items[i]).value;
      RemainsNext(all, done, first, WriteItems(item, items[i + 1..]));
      assert start + done + first == start + (done + first);
      done := done + first;
    }
    NoItems(item);
    assert items[|items|..] == [];
    RemainsLast(all, done);
    ok := true;
  }

  lemma NoItems(item: FieldType)
    ensures WriteItems(item, []) == Some([])
    ensures WriteProps(item, []) == Some([])
  {
  }

  lemma PropsFrom(item: FieldType, props: seq<Prop>, i: nat)
    requires i < |props|
    ensures var key, first, rest := WriteString(props[i].key), WriteData(item, props[i].value),
            WriteProps(item, props[i + 1..]);
            WriteProps(item, props[i..]) ==
            if key.Some? && first.Some? && rest.Some? then Some((key.value + first.value) + rest.value) else None
  {
    hide WriteData, WriteString;
    assert props[i..][0] == props[i] && props[i..][1..] == props[i + 1..];
  }

  method WritePropsTo(out: ByteWriter, item: FieldType, props: seq<Prop>) returns (ok: bool)
    requires out.Valid()
    modifies out, out.bytes
    ensures out.Valid() && (fresh(out.bytes) || out.bytes == old(out.bytes))
    ensures ok == WriteProps(item, props).Some?
    ensures ok ==> out.Contents() == old(out.Contents()) + WriteProps(item, props).value
    decreases item, 1, |props|
  {
    hide WriteData, WriteProps, WriteString;
    ghost var start, all, done := out.Contents(), WriteProps(item, props), [];
    assert props[0..] == props;
    RemainsFirst(all);
    assert start + [] == start;
    for i := 0 to |props|
      invariant out.Valid() && (fresh(out.bytes) || out.bytes == old(out.bytes))
      invariant out.Contents() == start + done && Remains(all, done, WriteProps(item, props[i..]))
    {
      PropsFrom(item, props, i);
      ok := SchemaSession.Session.WriteText(out, props[i].key);
      if !ok {
        return;
      }
      ghost var key := WriteString(props[i].key).value;
      ok := WriteDataTo(out, item, props[i].value);
      if !ok {
        return;
      }
      ghost var first := WriteData(item, props[i].value).value;
      RemainsNext(all, done, key + first, WriteProps(item, props[i + 1..]));
      assert start + done + key + first == start + (done + (key + first));
      done := done + (key + first);
    }
    NoItems(item);
    assert props[|props|..] == [];
    RemainsLast(all, done);
    ok := true;
  }

  method WriteFieldTo(out: ByteWriter, f: Field, d: Data) returns (ok: bool)
    requires out.Valid()
    modifies out, out.bytes
    ensures out.Valid() && (fresh(out.bytes) || out.bytes == old(out.bytes))
    ensures ok == WriteField(f, d).Some?
    ensures ok ==> out.Contents() == old(out.Contents()) + WriteField(f, d).value
    decreases f, 0, 0
  {
    hide WriteData;
    assert out.Contents() + [] == out.Contents();
    if f.of == TheBool || (f.of.OptionalOf? && (d.Nothing? || f.of.item == TheBool)) {
      ok := (f.of.OptionalOf? && d.Nothing?) || (d.Leaf? && d.v.Flag?);
    } else if f.of.OptionalOf? {
      ok := WriteOptionalTo(out, f.of, d);
    } else {
      ok := WriteDataTo(out, f.of, d);
    }
  }

  method WriteOptionalTo(out: ByteWriter, of: FieldType, d: Data) returns (ok: bool)
    requires out.Valid() && of.OptionalOf?
    modifies out, out.bytes
    ensures out.Valid() && (fresh(out.bytes) || out.bytes == old(out.bytes))
    ensures ok == WriteOptional(of, d).Some?
    ensures ok ==> out.Contents() == old(out.Contents()) + WriteOptional(of, d).value
    decreases of, 0, 0
  {
    hide WriteData;
    ok := WriteDataTo(out, of.item, d);
  }

  /** Zeros in the flags' place, the fields, then the flags patched in. */
  method WriteMessageTo(out: ByteWriter, def: MessageDef, d: Data) returns (ok: bool)
    requires out.Valid()
    modifies out, out.bytes
    ensures out.Valid() && (fresh(out.bytes) || out.bytes == old(out.bytes))
    ensures ok == WriteMessage(def, d).Some?
    ensures ok ==> out.Contents() == old(out.Contents()) + WriteMessage(def, d).value
    decreases def, 0, 0
  {
    hide WriteFields, MessageFlags, UnpackBits, PackBits;
    if !d.Obj? {
      return false;
    }
    ghost var start := out.Contents();
    var plan := new MessagePlan(def.fields);
    var flagsAt := out.length;
    var flags := new byte[plan.flagBytes](_ => 0);
    ReserveFlags(out, plan.flagBytes);
    ghost var zeros := out.Contents();
    UnpackZeros(flags[..]);
    MessageProofs.FlagCountIs(def.fields);
    ok := WriteFieldsTo(out, def.fields, d.props, plan, flags);
    if !ok {
      return;
    }
    ghost var body := WriteFields(def.fields, d.props).value;
    FlagsArePacked(def.fields, d.props, flags[..]);
    PatchFlags(out, flagsAt, flags);
    PatchedIs(start, |flags[..]|, body, flags[..]);
  }

  lemma PatchedIs(start: seq<byte>, n: nat, body: seq<byte>, flags: seq<byte>)
    requires |flags| == n
    ensures var out := start + seq(n, _ => 0) + body;
            out[..|start|] + flags + out[|start| + n..] == start + (flags + body)
  {
  }

  method ReserveFlags(out: ByteWriter, n: nat)
    requires out.Valid()
    modifies out, out.bytes
    ensures out.Valid() && (fresh(out.bytes) || out.bytes == old(out.bytes))
    ensures out.Contents() == old(out.Contents()) + seq(n, _ => 0)
  {
    for i := 0 to n
      invariant out.Valid() && (fresh(out.bytes) || out.bytes == old(out.bytes))
      invariant out.Contents() == old(out.Contents()) + seq(i, _ => 0)
    {
      out.U8(0);
    }
  }

  lemma PatchStep(before: seq<byte>, at: nat, flags: seq<byte>, i: nat)
    requires i < |flags| && at + |flags| <= |before|
    ensures (before[..at] + flags[..i] + before[at + i..])[at + i := flags[i]] ==
            before[..at] + flags[..i + 1] + before[at + i + 1..]
  {
  }

  method PatchFlags(out: ByteWriter, at: nat, flags: array<byte>)
    requires out.Valid() && at + flags.Length <= out.length && flags != out.bytes
    modifies out.bytes
    ensures out.Valid() && out.bytes == old(out.bytes) && flags[..] == old(flags[..])
    ensures out.Contents() == old(out.Contents())[..at] + flags[..] + old(out.Contents())[at + flags.Length..]
  {
    ghost var before := out.Contents();
    for i := 0 to flags.Length
      invariant out.Valid() && out.length == old(out.length) && flags[..] == old(flags[..])
      invariant |before| == out.length && out.Contents() == before[..at] + flags[..i] + before[at + i..]
    {
      PatchStep(before, at, flags[..], i);
      assert flags[..][..i] == flags[..i] && flags[..][..i + 1] == flags[..i + 1];
      out.Patch(at + i, flags[i]);
    }
    assert flags[..flags.Length] == flags[..];
  }

  lemma FlagsArePacked(fields: seq<Field>, props: seq<Prop>, s: seq<byte>)
    requires |s| == FlagBytes(FlagCount(fields)) && FlagCount(fields) <= 8 * |s|
    requires UnpackBits(s) == MessageFlags(fields, props) + Zeros(8 * |s| - FlagCount(fields))
    ensures s == PackBits(MessageFlags(fields, props))
  {
    hide UnpackBits, PackBits, MessageFlags;
    MessageProofs.FlagsSize(fields, props);
    UnpackOfPack(MessageFlags(fields, props));
    UnpackInjective(s, PackBits(MessageFlags(fields, props)));
  }

  lemma PrefixFlags(fields: seq<Field>, props: seq<Prop>, i: nat)
    requires i < |fields|
    ensures MessageFlags(fields[..i + 1], props) ==
            MessageFlags(fields[..i], props) + FieldFlags(fields[i].of, Lookup(props, fields[i].name))
    ensures |MessageFlags(fields[..i], props)| == BitsBefore(fields, i)
    ensures |MessageFlags(fields[..i + 1], props)| == BitsBefore(fields, i + 1) <= BitsBefore(fields, |fields|)
    ensures BitsBefore(fields, i + 1) == BitsBefore(fields, i) + BitCount(fields[i].of)
  {
    assert fields[..i + 1] == fields[..i] + [fields[i]];
    FlagsLast(fields[..i], fields[i], props);
    MessageProofs.FlagsSize(fields[..i], props);
    MessageProofs.FlagCountIs(fields[..i]);
    MessageProofs.BitsPrefix(fields, i, i);
    if i + 1 < |fields| {
      BitsGrow(fields, i + 1, |fields|);
    }
  }

  lemma PrefixFields(fields: seq<Field>, props: seq<Prop>, i: nat)
    requires i < |fields|
    ensures var before, last := WriteFields(fields[..i], props), WriteField(fields[i], Lookup(props, fields[i].name));
            WriteFields(fields[..i + 1], props) == if before.Some? && last.Some? then Some(before.value + last.value)
                else None
  {
    assert fields[..i + 1] == fields[..i] + [fields[i]];
    FieldsLast(fields[..i], fields[i], props);
  }

  lemma PlacedNext(done: seq<bool>, put: seq<bool>, total: nat)
    requires |done| + |put| <= total
    ensures AllZero(done + Zeros(total - |done|), |done|, |put|)
    ensures Placed(done + Zeros(total - |done|), |done|, put) == (done + put) + Zeros(total - |done| - |put|)
  {
  }

  /** The fields in order: each one's flags into `flags`, its bytes to `out`. */
  method WriteFieldsTo(out: ByteWriter, fields: seq<Field>, props: seq<Prop>, plan: MessagePlan,
                       flags: array<byte>) returns (ok: bool)
    requires out.Valid() && flags != out.bytes && plan.Lays(fields, |fields|)
    requires flags.Length == FlagBytes(BitsBefore(fields, |fields|)) && UnpackBits(flags[..]) == Zeros(8 * flags.Length)
    modifies out, out.bytes, flags
    ensures out.Valid() && (fresh(out.bytes) || out.bytes == old(out.bytes))
    ensures ok == WriteFields(fields, props).Some?
    ensures ok ==> out.Contents() == old(out.Contents()) + WriteFields(fields, props).value
    ensures ok ==> FlagCount(fields) <= 8 * flags.Length
                   && UnpackBits(flags[..]) == MessageFlags(fields, props) + Zeros(8 * flags.Length - FlagCount(fields))
    decreases fields, 0, 0
  {
    hide WriteField, WriteFields, MessageFlags, UnpackBits, BitsBefore, FlagCount;
    ghost var start, total, body := out.Contents(), 8 * flags.Length, [];
    FieldsStart(fields, props);
    assert start + [] == start && [] + Zeros(total) == Zeros(total);
    for i := 0 to |fields|
      invariant out.Valid() && (fresh(out.bytes) || out.bytes == old(out.bytes)) && flags != out.bytes
      invariant WriteFields(fields[..i], props) == Some(body) && out.Contents() == start + body
      invariant |MessageFlags(fields[..i], props)| == BitsBefore(fields, i) <= total
      invariant UnpackBits(flags[..]) == MessageFlags(fields[..i], props) + Zeros(total - BitsBefore(fields, i))
    {
      var f := fields[i];
      var d := Lookup(props, f.name);
      PrefixFlags(fields, props, i);
      PrefixFields(fields, props, i);
      PlacedNext(MessageFlags(fields[..i], props), FieldFlags(f.of, d), total);
      BitsNext(fields, i);
      FlagField(flags, f.of, d, plan.bits[i], plan.valueBits[i], BitsBefore(fields, i));
      ok := WriteFieldTo(out, f, d);
      if !ok {
        FieldsFail(fields, props, i);
        return;
      }
      ghost var own := WriteField(f, d).value;
      assert start + body + own == start + (body + own);
      body := body + own;
    }
    assert fields[..|fields|] == fields;
    MessageProofs.FlagCountIs(fields);
    ok := true;
  }

  lemma FieldsStart(fields: seq<Field>, props: seq<Prop>)
    ensures WriteFields(fields[..0], props) == Some([]) && MessageFlags(fields[..0], props) == []
            && BitsBefore(fields, 0) == 0
  {
  }
}
