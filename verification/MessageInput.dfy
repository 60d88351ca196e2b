/** Contract messages read from a buffer with sticky errors, as the functions of `Messages` read them. */
module MessageInput {
  import opened Wrappers
  import opened Wire
  import opened StateTypes
  import opened OpCodec
  import opened Contract
  import opened Messages
  import opened Buffers
  import MessageProofs
  import MessageOutput
  import SchemaSession

  // ------------------------------------------------------------------- flags

  /** Whether bit `j` of `b` is set. */
  function BitOf(b: nat, j: nat): bool {
    if j == 0 then b % 2 == 1 else BitOf(b / 2, j - 1)
  }

  lemma {:induction false} BitOfIs(b: nat, j: nat, n: nat)
    requires j < n
    ensures BitOf(b, j) == BitsOf(b, n)[j]
    decreases j
  {
    if j > 0 {
      BitOfIs(b / 2, j - 1, n - 1);
    }
  }

  lemma {:induction false} UnpackAt(s: seq<byte>, k: nat, j: nat)
    requires k < |s| && j < 8
    ensures UnpackBits(s)[8 * k + j] == BitsOf(s[k], 8)[j]
    decreases k
  {
    hide BitsOf;
    if k > 0 {
      UnpackAt(s[1..], k - 1, j);
      assert s[1..][k - 1] == s[k];
      assert UnpackBits(s)[8..] == UnpackBits(s[1..]);
    }
  }

  method Bit(flags: seq<byte>, bit: nat) returns (on: bool)
    requires bit < 8 * |flags|
    ensures on == UnpackBits(flags)[bit]
  {
    hide UnpackBits, BitsOf, BitOf;
    UnpackAt(flags, bit / 8, bit % 8);
    BitOfIs(flags[bit / 8], bit % 8, 8);
    on := BitOf(flags[bit / 8], bit % 8);
  }

  /** The high bits are clear exactly if the number is small. */
  lemma {:induction false} HighBits(b: nat, used: nat, n: nat)
    requires used <= n && b < Power2(n)
    ensures b < Power2(used) <==> ClearFrom(BitsOf(b, n), used)
    decreases n
  {
    if n > 0 {
      var bits, tail := BitsOf(b, n), BitsOf(b / 2, n - 1);
      assert bits == [b % 2 == 1] + tail;
      var rest := if used == 0 then 0 else used - 1;
      HighBits(b / 2, rest, n - 1);
      ClearTail(bits, used);
      assert bits[1..] == tail;
      assert used > 0 ==> (b < Power2(used) <==> b / 2 < Power2(rest));
      assert used == 0 ==> (b < 1 <==> b / 2 < 1 && b % 2 == 0);
    }
  }

  lemma ClearTail(bits: seq<bool>, used: nat)
    requires bits != []
    ensures used > 0 ==> (ClearFrom(bits, used) <==> ClearFrom(bits[1..], used - 1))
    ensures ClearFrom(bits, 0) <==> !bits[0] && ClearFrom(bits[1..], 0)
  {
    assert forall i :: 0 < i < |bits| ==> bits[i] == bits[1..][i - 1];
    assert forall i :: 0 <= i < |bits| - 1 ==> bits[1..][i] == bits[i + 1];
  }

  lemma MaskIs(bits: nat)
    ensures bits % 8 == 0 ==> LastMask(bits) == 255
    ensures bits % 8 != 0 ==> LastMask(bits) + 1 == Power2(bits % 8)
  {
    assert Power2(1) == 2 && Power2(2) == 4 && Power2(3) == 8;
    assert Power2(4) == 16 && Power2(5) == 32;
    assert Power2(6) == 64 && Power2(7) == 128;
  }

  lemma {:induction false} UnpackLast(flags: seq<byte>)
    requires flags != []
    ensures UnpackBits(flags) == UnpackBits(flags[..|flags| - 1]) + BitsOf(flags[|flags| - 1], 8)
    decreases |flags|
  {
    hide BitsOf;
    if |flags| == 1 {
      assert flags[1..] == [] && flags[..0] == [];
    } else {
      UnpackLast(flags[1..]);
      assert flags[1..][..|flags| - 2] == flags[..|flags| - 1][1..];
    }
  }

  /** The padding is clear exactly if the last byte is within the mask. */
  lemma PaddingIs(flags: seq<byte>, bits: nat)
    requires |flags| == FlagBytes(bits) && flags != []
    ensures flags[|flags| - 1] <= LastMask(bits) <==> ClearFrom(UnpackBits(flags), bits)
  {
    hide UnpackBits, BitsOf, LastMask;
    var n, used := |flags| - 1, if bits % 8 == 0 then 8 else bits % 8;
    assert bits == 8 * n + used;
    MaskIs(bits);
    MessageOutput.PowerOfEight();
    HighBits(flags[n], used, 8);
    UnpackLast(flags);
    ClearSuffix(UnpackBits(flags[..n]), BitsOf(flags[n], 8), used);
  }

  lemma ClearSuffix(a: seq<bool>, b: seq<bool>, used: nat)
    ensures ClearFrom(a + b, |a| + used) <==> ClearFrom(b, used)
  {
    assert forall i :: 0 <= i < |b| ==> (a + b)[|a| + i] == b[i];
    assert forall i :: |a| <= i < |a + b| ==> (a + b)[i] == b[i - |a|];
  }

  // ----------------------------------------------------------------- reading

  method ReadCountFrom(input: ByteReader) returns (n: nat)
    requires input.Valid()
    modifies input
    ensures input.Valid()
    ensures old(input.Rest()).None? ==> input.Rest() == None
    ensures old(input.Rest()).Some? ==> Got(ReadCount(old(input.Rest()).value), input.Rest(), n)
  {
    hide ReadVarint;
    n := input.Varint();
    if !input.failed && n > |input.data| - input.pos {
      input.Fail();
    }
  }

  method ReadDataFrom(input: ByteReader, of: FieldType) returns (d: Data)
    requires input.Valid()
    modifies input
    ensures input.Valid()
    ensures old(input.Rest()).None? ==> input.Rest() == None
    ensures old(input.Rest()).Some? ==> Got(ReadData(of, old(input.Rest()).value), input.Rest(), d)
    decreases of, 0, 0
  {
    hide OpCodec.ReadScalar, ReadVarint, ReadCount, ReadItems, ReadProps, ReadMessage;
    d := Nothing;
    match of {
      case Plain(scalar) =>
        var v := SchemaSession.Session.ReadScalar(input, scalar);
        d := Leaf(v);
      case Choice(values) =>
        var index := input.Varint();
        if input.failed {
          return;
        }
        if index >= |values| {
          input.Fail();
          return;
        }
        d := Leaf(values[index]);
      case ArrayOf(item) =>
        var count := ReadCountFrom(input);
        var items := ReadItemsFrom(input, item, count);
        d := Items(items);
      case MapOf(item) =>
        var count := ReadCountFrom(input);
        var props := ReadPropsFrom(input, item, count);
        d := Obj(props);
      case OptionalOf(item) =>
        var present := input.U8();
        if present > 1 {
          input.Fail();
        }
        if present == 1 {
          d := ReadDataFrom(input, item);
        }
      case NestedOf(message) =>
        d := ReadMessageFrom(input, message);
    }
  }

  lemma ItemsStep(item: FieldType, count: nat, s: seq<byte>)
    requires count > 0
    ensures ReadData(item, s).None? ==> ReadItems(item, count, s) == None
    ensures ReadData(item, s).Some? ==>
              var (first, after) := ReadData(item, s).value;
              var r := ReadItems(item, count - 1, after);
              ReadItems(item, count, s) == if r.Some? then Some(([first] + r.value.0, r.value.1)) else None
  {
    hide ReadData;
  }

  method ReadItemsFrom(input: ByteReader, item: FieldType, count: nat) returns (items: seq<Data>)
    requires input.Valid()
    modifies input
    ensures input.Valid()
    ensures old(input.Rest()).None? ==> input.Rest() == None
    ensures old(input.Rest()).Some? ==> Got(ReadItems(item, count, old(input.Rest()).value), input.Rest(), items)
    decreases item, 1, count
  {
    hide ReadData, ReadItems, Continues;
    ghost var before := input.Rest();
    ghost var all := if before.Some? then ReadItems(item, count, before.value) else None;
    items := [];
    if before.Some? {
      ContinuesFirst(all);
    }
    var i := 0;
    while i < count && !input.failed
      invariant i <= count && input.Valid()
      invariant before.None? ==> input.Rest() == None
      invariant before.Some? && input.Rest().None? ==> all == None
      invariant before.Some? && input.Rest().Some? ==> Continues(all, items,
                                                                 ReadItems(item, count - i, input.Rest().value))
    {
      ghost var s := input.Rest().value;
      ItemsStep(item, count - i, s);
      var one := ReadDataFrom(input, item);
      if input.failed {
        ContinuesNot(all, items);
      } else {
        ContinuesNext(all, items, [one], ReadItems(item, count - i - 1, input.Rest().value));
      }
      items := items + [one];
      i := i + 1;
    }
    if before.Some? && !input.failed {
      NoMore(item, input.Rest().value);
      ContinuesLast(all, items, input.Rest().value);
    }
  }

  lemma NoMore(item: FieldType, s: seq<byte>)
    ensures ReadItems(item, 0, s) == Some(([], s))
    ensures forall seen :: ReadProps(item, 0, s, seen) == Some(([], s))
  {
  }

  lemma PropsStep(item: FieldType, count: nat, s: seq<byte>, seen: set<string>)
    requires count > 0
    ensures ReadString(s).None? ==> ReadProps(item, count, s, seen) == None
    ensures ReadString(s).Some? ==>
              var (key, after) := ReadString(s).value;
              && (key == "__proto__" || key in seen ==> ReadProps(item, count, s, seen) == None)
              && (ReadData(item, after).None? ==> ReadProps(item, count, s, seen) == None)
              && (key != "__proto__" && key !in seen && ReadData(item, after).Some? ==>
                    var (first, next) := ReadData(item, after).value;
                    var r := ReadProps(item, count - 1, next, seen + {key});
                    ReadProps(item, count, s, seen) == if r.Some?
                        then Some(([Prop(key, first)] + r.value.0, r.value.1)) else None)
  {
    hide ReadData, ReadString;
  }

  method ReadPropsFrom(input: ByteReader, item: FieldType, count: nat) returns (props: seq<Prop>)
    requires input.Valid()
    modifies input
    ensures input.Valid()
    ensures old(input.Rest()).None? ==> input.Rest() == None
    ensures old(input.Rest()).Some? ==> Got(ReadProps(item, count, old(input.Rest()).value, {}), input.Rest(), props)
    decreases item, 1, count
  {
    hide ReadData, ReadProps, Continues, ReadString;
    ghost var before := input.Rest();
    ghost var all := if before.Some? then ReadProps(item, count, before.value, {}) else None;
    props := [];
    if before.Some? {
      ContinuesFirst(all);
    }
    var seen: set<string> := {};
    var i := 0;
    while i < count && !input.failed
      invariant i <= count && input.Valid()
      invariant before.None? ==> input.Rest() == None
      invariant before.Some? && input.Rest().None? ==> all == None
      invariant before.Some? && input.Rest().Some? ==> Continues(all, props,
                                                                 ReadProps(item, count - i, input.Rest().value, seen))
    {
      ContinuesNot(all, props);
      PropsStep(item, count - i, input.Rest().value, seen);
      var key := SchemaSession.Session.ReadText(input);
      if input.failed {
        return;
      }
      if key == "__proto__" || key in seen {
        input.Fail();
        return;
      }
      var value := ReadDataFrom(input, item);
      if input.failed {
        return;
      }
      ContinuesNext(all, props, [Prop(key, value)], ReadProps(item, count - i - 1, input.Rest().value, seen + {key}));
      props := props + [Prop(key, value)];
      seen := seen + {key};
      i := i + 1;
    }
    if before.Some? && !input.failed {
      NoMore(item, input.Rest().value);
      ContinuesLast(all, props, input.Rest().value);
    }
  }

  /** The flag bytes, one by one. */
  method ReadFlags(input: ByteReader, n: nat) returns (flags: seq<byte>)
    requires input.Valid()
    modifies input
    ensures input.Valid() && |flags| == n
    ensures old(input.Rest()).None? ==> input.Rest() == None
    ensures old(input.Rest()).Some? ==> Got(Take(old(input.Rest()).value, n), input.Rest(), flags)
  {
    hide Splits;
    ghost var before := input.Rest();
    flags := [];
    if before.Some? {
      SplitsNone(before.value);
    }
    for i := 0 to n
      invariant input.Valid() && |flags| == i
      invariant before.None? ==> input.Rest() == None
      invariant before.Some? && input.Rest().None? ==> |before.value| < n
      invariant before.Some? && input.Rest().Some? ==> Splits(before.value, flags, input.Rest().value)
    {
      ghost var s := input.Rest();
      var b := input.U8();
      if before.Some? && s.Some? {
        SplitsNext(before.value, flags, s.value);
      }
      flags := flags + [b];
    }
    if before.Some? && input.Rest().Some? {
      SplitsTake(before.value, flags, input.Rest().value);
    }
  }

  ghost predicate Splits(s: seq<byte>, a: seq<byte>, b: seq<byte>) { s == a + b }

  lemma SplitsNone(s: seq<byte>)
    ensures Splits(s, [], s)
  {
  }

  lemma SplitsNext(s: seq<byte>, a: seq<byte>, b: seq<byte>)
    requires Splits(s, a, b)
    ensures b == [] ==> |s| == |a|
    ensures b != [] ==> Splits(s, a + [b[0]], b[1..])
  {
    if b != [] {
      assert a + b == (a + [b[0]]) + b[1..];
    }
  }

  lemma SplitsTake(s: seq<byte>, a: seq<byte>, b: seq<byte>)
    requires Splits(s, a, b)
    ensures Take(s, |a|) == Some((a, b))
  {
    assert s[..|a|] == a && s[|a|..] == b;
  }

  lemma FieldsStep(fields: seq<Field>, i: nat, bits: seq<bool>, at: nat, s: seq<byte>)
    requires i < |fields| && at + BitCount(fields[i].of) <= |bits|
    ensures var f, own := fields[i], bits[at..];
            && (Messages.ReadField(f, own, s).None? ==> ReadFields(fields[i..], own, s) == None)
            && (Messages.ReadField(f, own, s).Some? ==>
                  var (d, after) := Messages.ReadField(f, own, s).value;
                  var r := ReadFields(fields[i + 1..], bits[at + BitCount(f.of)..], after);
                  ReadFields(fields[i..], own, s) ==
                  if r.Some? then Some(((if f.of.OptionalOf? && d.Nothing? then [] else [Prop(f.name, d)]) + r.value.0,
                                        r.value.1)) else None)
  {
    hide Messages.ReadField;
    assert fields[i..][0] == fields[i] && fields[i..][1..] == fields[i + 1..];
    assert bits[at..][BitCount(fields[i].of)..] == bits[at + BitCount(fields[i].of)..];
  }

  method ReadFieldFrom(input: ByteReader, f: Field, flags: seq<byte>, bit: int, valueBit: int,
                       ghost at: nat) returns (d: Data)
    requires input.Valid() && at + BitCount(f.of) <= 8 * |flags|
    requires (BitCount(f.of) > 0 ==> bit == at) && (BitCount(f.of) == 2 ==> valueBit == at + 1)
    modifies input
    ensures input.Valid()
    ensures old(input.Rest()).None? ==> input.Rest() == None
    ensures old(input.Rest()).Some? ==> Got(Messages.ReadField(f, UnpackBits(flags)[at..], old(input.Rest()).value),
                                            input.Rest(), d)
    decreases f, 0, 0
  {
    hide ReadData, UnpackBits;
    d := Nothing;
    if f.of == TheBool {
      var on := Bit(flags, bit);
      d := Leaf(Flag(on));
    } else if f.of.OptionalOf? {
      var present := Bit(flags, bit);
      if f.of.item == TheBool {
        var value := Bit(flags, valueBit);
        if present {
          d := Leaf(Flag(value));
        } else if value {
          input.Fail();
        }
      } else if present {
        d := ReadOptionalFrom(input, f.of);
      }
    } else {
      d := ReadDataFrom(input, f.of);
    }
  }

  method ReadOptionalFrom(input: ByteReader, of: FieldType) returns (d: Data)
    requires input.Valid() && of.OptionalOf?
    modifies input
    ensures input.Valid()
    ensures old(input.Rest()).None? ==> input.Rest() == None
    ensures old(input.Rest()).Some? ==> Got(ReadOptional(of, old(input.Rest()).value), input.Rest(), d)
    decreases of, 0, 0
  {
    hide ReadData;
    d := ReadDataFrom(input, of.item);
  }

  method ReadFieldsFrom(input: ByteReader, fields: seq<Field>, plan: MessagePlan,
                        flags: seq<byte>) returns (props: seq<Prop>)
    requires input.Valid() && plan.Lays(fields, |fields|) && |flags| == FlagBytes(BitsBefore(fields, |fields|))
    modifies input
    ensures input.Valid()
    ensures old(input.Rest()).None? ==> input.Rest() == None
    ensures old(input.Rest()).Some? ==> Got(ReadFields(fields, UnpackBits(flags), old(input.Rest()).value),
                                            input.Rest(), props)
    decreases fields, 0, 0
  {
    hide Messages.ReadField, ReadFields, Continues, UnpackBits, BitsBefore;
    ghost var before, bits := input.Rest(), UnpackBits(flags);
    ghost var all := if before.Some? then ReadFields(fields, bits, before.value) else None;
    props := [];
    BitsNone(fields);
    assert fields[0..] == fields && bits[0..] == bits;
    if before.Some? {
      ContinuesFirst(all);
    }
    var i := 0;
    while i < |fields| && !input.failed
      invariant i <= |fields| && input.Valid() && BitsBefore(fields, i) <= |bits|
      invariant before.None? ==> input.Rest() == None
      invariant before.Some? && input.Rest().None? ==> all == None
      invariant before.Some? && input.Rest().Some? ==>
                  Continues(all, props, ReadFields(fields[i..], bits[BitsBefore(fields, i)..], input.Rest().value))
    {
      var f := fields[i];
      BitsNext(fields, i);
      BitsGrow(fields, i, |fields|);
      FieldsStep(fields, i, bits, BitsBefore(fields, i), input.Rest().value);
      ContinuesNot(all, props);
      var d := ReadFieldFrom(input, f, flags, plan.bits[i], plan.valueBits[i], BitsBefore(fields, i));
      if input.failed {
        return;
      }
      var own := if f.of.OptionalOf? && d.Nothing? then [] else [Prop(f.name, d)];
      ContinuesNext(all, props, own, ReadFields(fields[i + 1..], bits[BitsBefore(fields, i + 1)..],
                                                input.Rest().value));
      props := props + own;
      i := i + 1;
    }
    if before.Some? && !input.failed {
      assert fields[|fields|..] == [];
      MessageProofs.NoFields(bits[BitsBefore(fields, |fields|)..], input.Rest().value);
      ContinuesLast(all, props, input.Rest().value);
    }
  }

  method ReadMessageFrom(input: ByteReader, def: MessageDef) returns (d: Data)
    requires input.Valid()
    modifies input
    ensures input.Valid()
    ensures old(input.Rest()).None? ==> input.Rest() == None
    ensures old(input.Rest()).Some? ==> Got(ReadMessage(def, old(input.Rest()).value), input.Rest(), d)
    decreases def, 0, 0
  {
    hide ReadFields, UnpackBits, LastMask;
    var plan := new MessagePlan(def.fields);
    MessageProofs.FlagCountIs(def.fields);
    var flags := ReadFlags(input, plan.flagBytes);
    if flags != [] {
      PaddingIs(flags, FlagCount(def.fields));
      if flags[|flags| - 1] > plan.lastMask {
        input.Fail();
      }
    }
    d := Nothing;
    var props := ReadFieldsFrom(input, def.fields, plan, flags);
    d := Obj(props);
  }
}
