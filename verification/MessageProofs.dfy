/** Contract messages survive the `schema` codec. */
module MessageProofs {
  import opened Wrappers
  import opened Wire
  import opened StateTypes
  import opened OpCodec
  import opened OpCodecProofs
  import opened Contract
  import opened Messages

  // ------------------------------------------------------------------- flags

  lemma {:induction false} FlagsSize(fields: seq<Field>, props: seq<Prop>)
    ensures |MessageFlags(fields, props)| == FlagCount(fields)
  {
    if fields != [] {
      FlagsSize(fields[1..], props);
    }
  }

  /** The two ways to count flag bits agree. */
  lemma {:induction false} FlagCountIs(fields: seq<Field>)
    ensures FlagCount(fields) == BitsBefore(fields, |fields|)
    decreases |fields|
  {
    if fields != [] {
      var n := |fields| - 1;
      assert fields == fields[..n] + [fields[n]];
      FlagCountIs(fields[..n]);
      BitsPrefix(fields, n, n);
      FlagCountLast(fields[..n], fields[n]);
    }
  }

  lemma {:induction false} BitsPrefix(fields: seq<Field>, n: nat, m: nat)
    requires n <= m <= |fields|
    ensures BitsBefore(fields[..m], n) == BitsBefore(fields, n)
  {
    if n > 0 {
      BitsPrefix(fields, n - 1, m);
    }
  }

  lemma {:induction false} FlagCountLast(fields: seq<Field>, f: Field)
    ensures FlagCount(fields + [f]) == FlagCount(fields) + BitCount(f.of)
  {
    if fields == [] {
      assert [] + [f] == [f];
    } else {
      assert (fields + [f])[1..] == fields[1..] + [f];
      FlagCountLast(fields[1..], f);
    }
  }

  // ------------------------------------------------------------------- sizes

  /** A type that cannot be empty takes at least one byte. */
  lemma {:induction false} TakesByte(of: FieldType, d: Data)
    requires WriteData(of, d).Some? && !MayBeEmpty(of)
    ensures |WriteData(of, d).value| >= 1
    decreases of, 0, 0
  {
    hide WriteItems, WriteProps, WriteFields, WriteString;
    match of {
      case Plain(scalar) => ScalarTakesByte(scalar, d.v);
      case NestedOf(message) => MessageTakesByte(message, d);
      case _ =>
    }
  }

  lemma ScalarTakesByte(of: Scalar, v: Val)
    requires WriteScalar(of, v).Some?
    ensures |WriteScalar(of, v).value| >= 1
  {
    hide LittleEndian;
    LittleEndianSizes();
  }

  lemma LittleEndianSizes()
    ensures forall n: nat :: |LittleEndian(n, 8)| == 8
    ensures forall n: nat :: |LittleEndian(n, 4)| == 4
  {
  }

  lemma {:induction false} MessageTakesByte(def: MessageDef, d: Data)
    requires WriteMessage(def, d).Some? && !AllMayBeEmpty(def)
    ensures |WriteMessage(def, d).value| >= 1
    decreases def, 0, 0
  {
    var i :| 0 <= i < |def.fields| && !FieldMayBeEmpty(def.fields[i]);
    FlagsSize(def.fields, d.props);
    FieldsTakeByte(def.fields, d.props, i);
  }

  lemma {:induction false} FieldsTakeByte(fields: seq<Field>, props: seq<Prop>, i: nat)
    requires WriteFields(fields, props).Some? && i < |fields| && !FieldMayBeEmpty(fields[i])
    ensures FlagCount(fields) + |WriteFields(fields, props).value| >= 1
    decreases fields, 0, 0
  {
    hide WriteField;
    if i == 0 {
      FieldTakesByte(fields[0], Lookup(props, fields[0].name));
    } else {
      FieldsTakeByte(fields[1..], props, i - 1);
    }
  }

  lemma {:induction false} FieldTakesByte(f: Field, d: Data)
    requires WriteField(f, d).Some? && !FieldMayBeEmpty(f)
    ensures BitCount(f.of) + |WriteField(f, d).value| >= 1
    decreases f, 0, 0
  {
    if f.of != TheBool && !f.of.OptionalOf? {
      TakesByte(f.of, d);
    }
  }

  lemma {:induction false} ItemsTakeBytes(item: FieldType, items: seq<Data>)
    requires WriteItems(item, items).Some? && !MayBeEmpty(item)
    ensures |items| <= |WriteItems(item, items).value|
    decreases |items|
  {
    hide WriteData;
    if items != [] {
      TakesByte(item, items[0]);
      ItemsTakeBytes(item, items[1..]);
    }
  }

  lemma {:induction false} PropsTakeBytes(item: FieldType, props: seq<Prop>)
    requires WriteProps(item, props).Some?
    ensures |props| <= |WriteProps(item, props).value|
    decreases |props|
  {
    if props != [] {
      var key := WriteString(props[0].key).value;
      hide WriteData;
      PropsTakeBytes(item, props[1..]);
    }
  }

  // --------------------------------------------------------------- round trip

  lemma CountRoundTrip(n: nat, tail: seq<byte>)
    requires n <= MAX_INT32 && n <= |tail|
    ensures ReadCount(Varint(n) + tail) == Some((n, tail))
  {
    hide Varint, ReadVarint;
    VarintRoundTrip(n, tail);
  }

  lemma {:induction false} DataRoundTrip(of: FieldType, d: Data, b: seq<byte>, rest: seq<byte>)
    requires WriteData(of, d) == Some(b) && Solid(of) && Clean(of, d)
    ensures ReadData(of, b + rest) == Some((NormalData(of, d), rest))
    decreases of, 0, 0
  {
    hide WriteScalar, ReadScalar, WriteItems, ReadItems, WriteProps, ReadProps, WriteMessage, ReadMessage, Varint,
         ReadVarint, ReadCount;
    match of {
      case Plain(scalar) => ScalarRoundTrip(scalar, d.v, b, rest);
      case Choice(values) => VarintRoundTrip(ChoiceIndex(values, d.v).value, rest);
      case ArrayOf(item) =>
        var body := WriteItems(item, d.items).value;
        ItemsTakeBytes(item, d.items);
        assert b + rest == Varint(|d.items|) + (body + rest);
        CountRoundTrip(|d.items|, body + rest);
        ItemsRoundTrip(item, d.items, body, rest);
      case MapOf(item) =>
        var body := WriteProps(item, d.props).value;
        PropsTakeBytes(item, d.props);
        assert b + rest == Varint(|d.props|) + (body + rest);
        CountRoundTrip(|d.props|, body + rest);
        PropsRoundTrip(item, d.props, body, rest, {});
      case OptionalOf(item) =>
        assert (b + rest)[1..] == b[1..] + rest;
        if !d.Nothing? {
          DataRoundTrip(item, d, b[1..], rest);
        }
      case NestedOf(message) => MessageRoundTripAt(message, d, b, rest);
    }
  }

  lemma {:induction false} ItemsRoundTrip(item: FieldType, items: seq<Data>, b: seq<byte>, rest: seq<byte>)
    requires WriteItems(item, items) == Some(b) && Solid(item) && forall i :: 0 <= i < |items| ==> Clean(item, items[i])
    ensures ReadItems(item, |items|, b + rest) == Some((NormalItems(item, items), rest))
    decreases item, 1, |items|
  {
    hide WriteData, ReadData, Clean, Solid, NormalData;
    if items == [] {
      assert b + rest == rest;
    } else {
      var first, more := WriteData(item, items[0]).value, WriteItems(item, items[1..]).value;
      assert b + rest == first + (more + rest);
      DataRoundTrip(item, items[0], first, more + rest);
      ItemsRoundTrip(item, items[1..], more, rest);
    }
  }

  lemma {:induction false} PropsRoundTrip(item: FieldType, props: seq<Prop>, b: seq<byte>, rest: seq<byte>,
                                          seen: set<string>)
    requires WriteProps(item, props) == Some(b) && Solid(item) && DistinctKeys(props)
    requires forall i :: 0 <= i < |props| ==>
               GoodKey(props[i].key) && Clean(item, props[i].value) && props[i].key !in seen
    ensures ReadProps(item, |props|, b + rest, seen) == Some((NormalProps(item, props), rest))
    decreases item, 1, |props|
  {
    hide WriteData, ReadData, Clean, Solid, NormalData, WriteString, ReadString;
    if props == [] {
      assert b + rest == rest;
    } else {
      var p := props[0];
      var key, first, more := WriteString(p.key).value, WriteData(item, p.value).value,
          WriteProps(item, props[1..]).value;
      assert b + rest == key + (first + (more + rest));
      StringRoundTrip(p.key, key, first + (more + rest));
      DataRoundTrip(item, p.value, first, more + rest);
      PropsRoundTrip(item, props[1..], more, rest, seen + {p.key});
    }
  }

  lemma {:induction false} MessageRoundTripAt(def: MessageDef, d: Data, b: seq<byte>, rest: seq<byte>)
    requires WriteMessage(def, d) == Some(b) && SolidMessage(def) && CleanMessage(def, d)
    ensures ReadMessage(def, b + rest) == Some((NormalMessage(def, d), rest))
    decreases def, 0, 0
  {
    hide WriteFields, ReadFields, NormalFields, CleanFields, PackBits, UnpackBits, MessageFlags;
    var bits, body := MessageFlags(def.fields, d.props), WriteFields(def.fields, d.props).value;
    FlagsSize(def.fields, d.props);
    UnpackOfPack(bits);
    var flags := PackBits(bits);
    assert b + rest == flags + (body + rest);
    assert (flags + (body + rest))[..|flags|] == flags && (flags + (body + rest))[|flags|..] == body + rest;
    FieldsRoundTrip(def.fields, d.props, Zeros(8 * FlagBytes(|bits|) - |bits|), body, rest);
  }

  lemma {:induction false} FieldsRoundTrip(fields: seq<Field>, props: seq<Prop>, padding: seq<bool>, b: seq<byte>,
                                           rest: seq<byte>)
    requires WriteFields(fields, props) == Some(b) && CleanFields(fields, props)
    requires forall i :: 0 <= i < |fields| ==> SolidField(fields[i])
    ensures ReadFields(fields, MessageFlags(fields, props) + padding, b + rest)
            == Some((NormalFields(fields, props), rest))
    decreases fields, 0, 0
  {
    hide WriteField, Messages.ReadField, ReadFields, CleanField, SolidField, NormalOf, FieldFlags, NormalField;
    if fields == [] {
      assert b + rest == rest;
      NoFields(MessageFlags(fields, props) + padding, rest);
    } else {
      var f, d := fields[0], Lookup(props, fields[0].name);
      var first, more := WriteField(f, d).value, WriteFields(fields[1..], props).value;
      var own, others := FieldFlags(f.of, d), MessageFlags(fields[1..], props) + padding;
      assert MessageFlags(fields, props) + padding == own + others;
      assert b + rest == first + (more + rest);
      FieldRoundTrip(f, d, others, first, more + rest);
      FieldsRoundTrip(fields[1..], props, padding, more, rest);
      NormalNothing(f, d);
      OneField(fields, own + others, first + (more + rest), NormalOf(f.of, d), more + rest,
               NormalFields(fields[1..], props), rest);
    }
  }

  lemma NoFields(bits: seq<bool>, s: seq<byte>)
    ensures ReadFields([], bits, s) == Some(([], s))
  {
  }

  lemma OneField(fields: seq<Field>, bits: seq<bool>, s: seq<byte>, d: Data, after: seq<byte>, props: seq<Prop>,
                 rest: seq<byte>)
    requires fields != [] && BitCount(fields[0].of) <= |bits|
             && Messages.ReadField(fields[0], bits, s) == Some((d, after))
    requires ReadFields(fields[1..], bits[BitCount(fields[0].of)..], after) == Some((props, rest))
    ensures ReadFields(fields, bits, s) ==
            Some(((if fields[0].of.OptionalOf? && d.Nothing? then [] else [Prop(fields[0].name, d)]) + props, rest))
  {
    hide Messages.ReadField;
  }

  /** Only an absent optional becomes nothing. */
  lemma NormalNothing(f: Field, d: Data)
    requires WriteField(f, d).Some?
    ensures NormalField(f, d) == if f.of.OptionalOf? && NormalOf(f.of, d).Nothing? then []
            else [Prop(f.name, NormalOf(f.of, d))]
  {
    if f.of.OptionalOf? && !d.Nothing? {
      NeverNothing(f.of.item, d);
    }
  }

  lemma {:induction false} NeverNothing(of: FieldType, d: Data)
    requires !d.Nothing?
    ensures !NormalData(of, d).Nothing?
    decreases of
  {
    hide NormalItems, NormalProps, NormalFields;
    if of.OptionalOf? {
      NeverNothing(of.item, d);
    }
  }

  lemma {:induction false} FieldRoundTrip(f: Field, d: Data, others: seq<bool>, b: seq<byte>, rest: seq<byte>)
    requires WriteField(f, d) == Some(b) && CleanField(f, d) && SolidField(f)
    ensures Messages.ReadField(f, FieldFlags(f.of, d) + others, b + rest) == Some((NormalOf(f.of, d), rest))
    decreases f, 0, 0
  {
    hide WriteData, ReadData, NormalData;
    var bits := FieldFlags(f.of, d) + others;
    if b == [] {
      assert b + rest == rest;
    }
    if f.of == TheBool {
      PlainIsNormal(Bool, d);
    } else if f.of.OptionalOf? {
      OptionalIsNormal(f.of, d);
      if !d.Nothing? {
        if f.of.item == TheBool {
          PlainIsNormal(Bool, d);
        } else {
          OptionalRoundTrip(f.of, d, b, rest);
        }
      }
    } else {
      DataRoundTrip(f.of, d, b, rest);
    }
  }

  lemma {:induction false} OptionalRoundTrip(of: FieldType, d: Data, b: seq<byte>, rest: seq<byte>)
    requires of.OptionalOf? && WriteOptional(of, d) == Some(b) && Clean(of.item, d) && Solid(of.item)
    ensures ReadOptional(of, b + rest) == Some((NormalData(of.item, d), rest))
    decreases of, 0, 0
  {
    hide WriteData, ReadData, NormalData;
    DataRoundTrip(of.item, d, b, rest);
  }

  lemma PlainIsNormal(of: Scalar, d: Data)
    ensures NormalData(Plain(of), d) == d
  {
  }

  lemma OptionalIsNormal(of: FieldType, d: Data)
    requires of.OptionalOf?
    ensures NormalData(of, d) == if d.Nothing? then d else NormalData(of.item, d)
  {
    hide NormalItems, NormalProps, NormalMessage;
  }

  /** Every payload that encodes decodes to its normal form, with every byte consumed. */
  lemma MessageRoundTrip(def: MessageDef, payload: Data)
    requires WriteMessage(def, payload).Some? && SolidMessage(def) && CleanMessage(def, payload)
    ensures ReadMessage(def, WriteMessage(def, payload).value) == Some((NormalMessage(def, payload), []))
  {
    var b := WriteMessage(def, payload).value;
    hide WriteMessage, ReadMessage, NormalMessage;
    assert b + [] == b;
    MessageRoundTripAt(def, payload, b, []);
  }

  /**
   An array whose element type may take no bytes is refused exactly if its
   count exceeds the bytes after it, though it was encoded.
   */
  lemma ArrayReadsIff(item: FieldType, items: seq<Data>, rest: seq<byte>)
    requires WriteData(ArrayOf(item), Items(items)).Some? && Solid(item)
    requires forall i :: 0 <= i < |items| ==> Clean(item, items[i])
    ensures var b := WriteData(ArrayOf(item), Items(items)).value;
            ReadData(ArrayOf(item), b + rest).Some? <==> |items| <= |WriteItems(item, items).value| + |rest|
  {
    hide WriteItems, ReadItems, Varint, ReadVarint, Clean, Solid;
    var body := WriteItems(item, items).value;
    var b := WriteData(ArrayOf(item), Items(items)).value;
    assert b + rest == Varint(|items|) + (body + rest);
    VarintRoundTrip(|items|, body + rest);
    if |items| <= |body| + |rest| {
      ItemsRoundTrip(item, items, body, rest);
    }
  }

  lemma EmptyMessage(d: Data)
    requires d.Obj?
    ensures WriteData(NestedOf(MessageDef([])), d) == Some([])
  {
    var fields: seq<Field> := [];
    var bits := MessageFlags(fields, d.props);
    assert PackBits(bits) + [] == [];
    assert WriteMessage(MessageDef(fields), d).value == [];
  }

  /** One element of an empty message encodes, and is refused. */
  lemma EmptyElementsRefused()
    ensures var of, d := ArrayOf(NestedOf(MessageDef([]))), Items([Obj([])]);
            WriteData(of, d) == Some([1]) && ReadData(of, [1]) == None
  {
    var item, items := NestedOf(MessageDef([])), [Obj([])];
    EmptyMessage(items[0]);
    assert items[1..] == [] && WriteItems(item, items[1..]) == Some([]);
    assert WriteItems(item, items).value == [];
    hide WriteItems;
    assert Varint(1) + [] == [1];
    VarintRoundTrip(1, []);
  }

  /** With distinct field names, a decoded message has distinct keys. */
  lemma {:induction false} NormalKeys(fields: seq<Field>, props: seq<Prop>)
    requires DistinctFields(fields)
    ensures DistinctKeys(NormalFields(fields, props))
    ensures forall i :: 0 <= i < |NormalFields(fields, props)| ==>
              exists j :: 0 <= j < |fields| && fields[j].name == NormalFields(fields, props)[i].key
    decreases |fields|
  {
    hide NormalOf;
    if fields != [] {
      NormalKeys(fields[1..], props);
      var all, rest := NormalFields(fields, props), NormalFields(fields[1..], props);
      var own := NormalField(fields[0], Lookup(props, fields[0].name));
      assert all == own + rest;
      forall i | 0 <= i < |rest|
        ensures exists j :: 1 <= j < |fields| && fields[j].name == rest[i].key
      {
        var j :| 0 <= j < |fields[1..]| && fields[1..][j].name == rest[i].key;
        assert fields[j + 1].name == rest[i].key;
      }
      forall i | 0 <= i < |all|
        ensures exists j :: 0 <= j < |fields| && fields[j].name == all[i].key
      {
        if i < |own| {
          assert fields[0].name == all[i].key;
        } else {
          assert all[i] == rest[i - |own|];
        }
      }
    }
  }
}
