/**
 The two message codecs agree: a payload that the `schema` codec encodes is
 carried by MessagePack if and only if it nests at most 512 deep, and then
 decoding either encoding gives the same message if and only if no float in it
 is -0, whose sign MessagePack does not carry.
 */
module CodecAgreement {
  import opened Wrappers
  import opened Wire
  import opened StateTypes
  import opened Doubles
  import opened OpCodec
  import opened OpCodecProofs
  import opened Contract
  import opened Messages
  import opened Positional
  import MessagePack
  import Utf8
  import MessageProofs

  // ------------------------------------------------------------------ nesting

  predicate IsAbsent(f: Field, d: Data) { f.of.OptionalOf? && d.Nothing? }

  /** How many fields a message takes in its array: those up to the last that is not an absent optional. */
  function Used(fields: seq<Field>, props: seq<Prop>): (n: nat)
    ensures n <= |fields|
  {
    if fields == [] then 0
    else
      var rest := Used(fields[1..], props);
      if rest == 0 && IsAbsent(fields[0], Lookup(props, fields[0].name)) then 0 else rest + 1
  }

  /** The payload, starting at `depth`, nests at most `MAX_DEPTH` deep. */
  predicate Nests(of: FieldType, d: Data, depth: nat)
    decreases of, 0, 0
  {
    && depth <= MessagePack.MAX_DEPTH
    && match of
       case ArrayOf(item) => d.Items? ==> forall i :: 0 <= i < |d.items| ==> Nests(item, d.items[i], depth + 1)
       case MapOf(item) => d.Obj? ==> forall i :: 0 <= i < |d.props| ==> Nests(item, d.props[i].value, depth + 1)
       case OptionalOf(item) => d.Nothing? || Nests(item, d, depth)
       case NestedOf(message) => NestsMessage(message, d, depth)
       case _ => true
  }

  predicate NestsMessage(def: MessageDef, d: Data, depth: nat)
    decreases def, 0, 0
  {
    && depth <= MessagePack.MAX_DEPTH
    && (d.Obj? ==> Used(def.fields, d.props) <= MAX_INT32 && NestsFields(def.fields, d.props, depth + 1))
  }

  predicate NestsFields(fields: seq<Field>, props: seq<Prop>, depth: nat)
    decreases fields, 0, 0
  {
    Used(fields, props) == 0
    || (NestsField(fields[0], Lookup(props, fields[0].name), depth) && NestsFields(fields[1..], props, depth))
  }

  predicate NestsField(f: Field, d: Data, depth: nat)
    decreases f, 0, 0
  {
    Nests(f.of, d, depth)
  }

  // ------------------------------------------------------------------ trimming

  lemma {:induction false} UsedSplits(fields: seq<Field>, props: seq<Prop>)
    ensures forall i :: Used(fields, props) <= i < |fields| ==> IsAbsent(fields[i], Lookup(props, fields[i].name))
    ensures var n := Used(fields, props); n > 0 ==> !IsAbsent(fields[n - 1], Lookup(props, fields[n - 1].name))
    decreases |fields|
  {
    hide IsAbsent;
    if fields != [] {
      UsedSplits(fields[1..], props);
      var n, tail := Used(fields, props), fields[1..];
      forall i | n <= i < |fields|
        ensures IsAbsent(fields[i], Lookup(props, fields[i].name))
      {
        if i > 0 {
          assert fields[i] == tail[i - 1];
        }
      }
      if n > 1 {
        assert fields[n - 1] == tail[n - 2];
      }
    }
  }

  lemma {:induction false} PackedAt(fields: seq<Field>, props: seq<Prop>, i: nat)
    requires PackFields(fields, props).Some? && i < |fields|
    ensures PackField(fields[i], Lookup(props, fields[i].name)) == Some(PackFields(fields, props).value[i])
    decreases |fields|
  {
    hide PackField;
    if i > 0 {
      PackedAt(fields[1..], props, i - 1);
    }
  }

  lemma PackedNil(fields: seq<Field>, props: seq<Prop>, i: nat)
    requires PackFields(fields, props).Some? && i < |fields|
    ensures var w := PackFields(fields, props).value[i];
            w.Nil? && fields[i].of.OptionalOf? <==> IsAbsent(fields[i], Lookup(props, fields[i].name))
  {
    hide PackFields, PackData;
    PackedAt(fields, props, i);
    NilIsAbsent(fields[i].of, Lookup(props, fields[i].name));
  }

  /** Trimming leaves exactly the used fields. */
  lemma TrimmedUsed(fields: seq<Field>, props: seq<Prop>)
    requires PackFields(fields, props).Some?
    ensures |Trimmed(fields, PackFields(fields, props).value)| == Used(fields, props)
  {
    hide PackFields, Trimmed, Used, IsAbsent;
    var packed, n := PackFields(fields, props).value, Used(fields, props);
    var r := Trimmed(fields, packed);
    UsedSplits(fields, props);
    if |r| > n {
      assert IsAbsent(fields[|r| - 1], Lookup(props, fields[|r| - 1].name));
      PackedNil(fields, props, |r| - 1);
    } else if |r| < n {
      PackedNil(fields, props, n - 1);
    }
  }

  // ------------------------------------------------------- what MessagePack carries

  lemma ScalarFits(of: Scalar, v: Val, depth: nat)
    requires WriteScalar(of, v).Some? && PackScalar(of, v).Some?
    ensures MessagePack.Fits(PackScalar(of, v).value, depth) <==> depth <= MessagePack.MAX_DEPTH
  {
    hide LittleEndian, Varint, WriteString;
    MessagePack.Ranges();
    if of.Text? {
      TextFits(v.s);
    }
  }

  lemma {:induction false} DataFits(of: FieldType, d: Data, depth: nat)
    requires WriteData(of, d).Some? && PackData(of, d).Some?
    ensures MessagePack.Fits(PackData(of, d).value, depth) <==> Nests(of, d, depth)
    decreases of, 0, 0
  {
    hide WriteScalar, PackScalar, WriteItems, PackItems, WriteProps, PackProps, WriteMessage, PackMessage,
         Varint,
         NestsMessage;
    match of {
      case Plain(scalar) => ScalarFits(scalar, d.v, depth);
      case Choice(values) =>
      case ArrayOf(item) => ItemsFit(item, d.items, depth + 1);
      case MapOf(item) => PropsFit(item, d.props, depth);
      case OptionalOf(item) =>
        if !d.Nothing? {
          DataFits(item, d, depth);
        }
      case NestedOf(message) => MessageFits(message, d, depth);
    }
  }

  lemma {:induction false} ItemsFit(item: FieldType, items: seq<Data>, depth: nat)
    requires Messages.WriteItems(item, items).Some? && PackItems(item, items).Some?
    ensures forall i :: 0 <= i < |items| ==>
              (MessagePack.Fits(PackItems(item, items).value[i], depth) <==> Nests(item, items[i], depth))
    decreases item, 1, |items|
  {
    hide WriteData, PackData, MessagePack.Fits, Nests;
    if items != [] {
      DataFits(item, items[0], depth);
      ItemsFit(item, items[1..], depth);
    }
  }

  lemma {:induction false} PropsFit(item: FieldType, props: seq<Prop>, depth: nat)
    requires WriteProps(item, props).Some? && PackProps(item, props).Some?
    ensures forall i :: 0 <= i < |props| ==>
              (MessagePack.EntryFits(PackProps(item, props).value[i], depth) <==>
               Nests(item, props[i].value, depth + 1))
    decreases item, 1, |props|
  {
    hide WriteData, PackData, MessagePack.Fits, Nests, WriteString;
    if props != [] {
      DataFits(item, props[0].value, depth + 1);
      TextFits(props[0].key);
      PropsFit(item, props[1..], depth);
    }
  }

  lemma TextFits(text: string)
    requires WriteString(text).Some?
    ensures |Utf8.Encode(Utf8.WireText(text))| <= MAX_INT32
  {
    hide Utf8.Encode, Varint;
  }

  lemma {:induction false} MessageFits(def: MessageDef, d: Data, depth: nat)
    requires WriteMessage(def, d).Some? && PackMessage(def, d).Some?
    ensures MessagePack.Fits(PackMessage(def, d).value, depth) <==> NestsMessage(def, d, depth)
    decreases def, 0, 0
  {
    hide WriteFields, PackFields, Trimmed, Used, NestsFields, PackBits, MessageFlags;
    var packed := PackFields(def.fields, d.props).value;
    var trimmed := Trimmed(def.fields, packed);
    TrimmedUsed(def.fields, d.props);
    FieldsFit(def.fields, d.props, depth + 1);
    assert forall i :: 0 <= i < |trimmed| ==> trimmed[i] == packed[i];
  }

  /** The used fields of a message, packed. */
  ghost predicate UsedFit(fields: seq<Field>, props: seq<Prop>, packed: seq<Wired>, depth: nat)
    requires |packed| == |fields|
  {
    forall i :: 0 <= i < Used(fields, props) ==> MessagePack.Fits(packed[i], depth)
  }

  lemma {:induction false} FieldsFit(fields: seq<Field>, props: seq<Prop>, depth: nat)
    requires WriteFields(fields, props).Some? && PackFields(fields, props).Some?
    ensures UsedFit(fields, props, PackFields(fields, props).value, depth) <==> NestsFields(fields, props, depth)
    decreases fields, 0, 0
  {
    hide WriteField, PackField, MessagePack.Fits, NestsField;
    if fields != [] {
      FieldFits(fields[0], Lookup(props, fields[0].name), depth);
      FieldsFit(fields[1..], props, depth);
      var packed, more := PackFields(fields, props).value, PackFields(fields[1..], props).value;
      assert packed == [packed[0]] + more;
      if Used(fields, props) > 0 {
        UsedFitFirst(fields, props, packed, depth);
      }
    }
  }

  lemma UsedFitFirst(fields: seq<Field>, props: seq<Prop>, packed: seq<Wired>, depth: nat)
    requires |packed| == |fields| && Used(fields, props) > 0
    ensures UsedFit(fields, props, packed, depth) <==>
            MessagePack.Fits(packed[0], depth) && UsedFit(fields[1..], props, packed[1..], depth)
  {
    hide MessagePack.Fits;
    var more := packed[1..];
    if MessagePack.Fits(packed[0], depth) && UsedFit(fields[1..], props, more, depth) {
      forall i | 0 <= i < Used(fields, props)
        ensures MessagePack.Fits(packed[i], depth)
      {
        assert i > 0 ==> packed[i] == more[i - 1];
      }
    }
  }

  lemma {:induction false} FieldFits(f: Field, d: Data, depth: nat)
    requires WriteField(f, d).Some? && PackField(f, d).Some?
    ensures MessagePack.Fits(PackField(f, d).value, depth) <==> NestsField(f, d, depth)
    decreases f, 0, 0
  {
    hide WriteData;
    if f.of.OptionalOf? {
      if !d.Nothing? && f.of.item != TheBool {
        OptionalFits(f.of, d, depth);
      }
    } else if f.of != TheBool {
      DataFits(f.of, d, depth);
    }
  }

  lemma {:induction false} OptionalFits(of: FieldType, d: Data, depth: nat)
    requires of.OptionalOf? && WriteOptional(of, d).Some? && !d.Nothing? && PackData(of, d).Some?
    ensures MessagePack.Fits(PackData(of, d).value, depth) <==> Nests(of, d, depth)
    decreases of, 0, 0
  {
    hide WriteData;
    DataFits(of.item, d, depth);
  }

  // ---------------------------------------------------------------- agreement

  /** Of the payloads the `schema` codec encodes, MessagePack carries exactly those that nest at most 512 deep. */
  lemma CarriedExactly(def: MessageDef, payload: Data)
    requires WriteMessage(def, payload).Some?
    ensures PackMessage(def, payload).Some?
    ensures MessagePack.Encode(PackMessage(def, payload).value).Some? <==> NestsMessage(def, payload, 0)
  {
    hide WriteMessage, PackMessage, NestsMessage, MessagePack.Fits, MessagePack.Write;
    MessagePacks(def, payload);
    MessageFits(def, payload, 0);
    MessagePack.WritesWhatFits(PackMessage(def, payload).value, 0);
  }

  /** No float of the payload is -0. */
  predicate Unsigned(of: FieldType, d: Data)
    decreases of, 0, 0
  {
    match of
    case Plain(scalar) => d.Leaf? ==> UnsignedVal(scalar, d.v)
    case ArrayOf(item) => d.Items? ==> forall i :: 0 <= i < |d.items| ==> Unsigned(item, d.items[i])
    case MapOf(item) => d.Obj? ==> forall i :: 0 <= i < |d.props| ==> Unsigned(item, d.props[i].value)
    case OptionalOf(item) => d.Nothing? || Unsigned(item, d)
    case NestedOf(message) => UnsignedMessage(message, d)
    case _ => true
  }

  predicate UnsignedVal(of: Scalar, v: Val) {
    (of.Float64? && v.F64? ==> v.bits != SIGN) && (of.Float32? && v.F32? ==> v.word != SIGN32)
  }

  predicate UnsignedMessage(def: MessageDef, d: Data)
    decreases def, 0, 0
  {
    d.Obj? ==> UnsignedFields(def.fields, d.props)
  }

  predicate UnsignedFields(fields: seq<Field>, props: seq<Prop>)
    decreases fields, 0, 0
  {
    fields == [] || (UnsignedField(fields[0], Lookup(props, fields[0].name)) && UnsignedFields(fields[1..], props))
  }

  predicate UnsignedField(f: Field, d: Data)
    decreases f, 0, 0
  {
    Unsigned(f.of, d)
  }

  /** What MessagePack hears of a clean payload is its normal form exactly if it holds no -0. */
  lemma {:induction false} HeardIs(of: FieldType, d: Data)
    requires Clean(of, d)
    ensures HeardData(of, d) == NormalData(of, d) <==> Unsigned(of, d)
    decreases of, 0, 0
  {
    hide HeardItems, HeardProps, HeardMessage, NormalItems, NormalProps, NormalMessage, CleanMessage, UnsignedMessage;
    match of {
      case Plain(scalar) =>
        if d.Leaf? && d.v.Str? {
          Utf8.WireTextDecodes(d.v.s);
        }
      case ArrayOf(item) =>
        if d.Items? {
          ItemsHeard(item, d.items);
        }
      case MapOf(item) =>
        if d.Obj? {
          PropsHeard(item, d.props);
        }
      case OptionalOf(item) =>
        if !d.Nothing? {
          HeardIs(item, d);
        }
      case NestedOf(message) => MessageHeard(message, d);
      case _ =>
    }
  }

  lemma {:induction false} ItemsHeard(item: FieldType, items: seq<Data>)
    requires forall i :: 0 <= i < |items| ==> Clean(item, items[i])
    ensures HeardItems(item, items) == NormalItems(item, items) <==>
            forall i :: 0 <= i < |items| ==> Unsigned(item, items[i])
    decreases item, 1, |items|
  {
    hide Clean, HeardData, NormalData, Unsigned;
    if items != [] {
      HeardIs(item, items[0]);
      ItemsHeard(item, items[1..]);
      Heads(HeardData(item, items[0]), HeardItems(item, items[1..]),
            NormalData(item, items[0]), NormalItems(item, items[1..]));
      assert forall i :: 1 <= i < |items| ==> items[i] == items[1..][i - 1];
    }
  }

  lemma Heads<T>(a: T, s: seq<T>, b: T, t: seq<T>)
    ensures [a] + s == [b] + t <==> a == b && s == t
  {
    if [a] + s == [b] + t {
      assert ([a] + s)[0] == a && ([b] + t)[0] == b && ([a] + s)[1..] == s && ([b] + t)[1..] == t;
    }
  }

  lemma {:induction false} PropsHeard(item: FieldType, props: seq<Prop>)
    requires forall i :: 0 <= i < |props| ==> GoodKey(props[i].key) && Clean(item, props[i].value)
    ensures HeardProps(item, props) == NormalProps(item, props) <==>
            forall i :: 0 <= i < |props| ==> Unsigned(item, props[i].value)
    decreases item, 1, |props|
  {
    hide Clean, HeardData, NormalData, Unsigned;
    if props != [] {
      var p := props[0];
      Utf8.WireTextDecodes(p.key);
      HeardIs(item, p.value);
      PropsHeard(item, props[1..]);
      Heads(Prop(p.key, HeardData(item, p.value)), HeardProps(item, props[1..]),
            Prop(p.key, NormalData(item, p.value)), NormalProps(item, props[1..]));
      assert forall i :: 1 <= i < |props| ==> props[i] == props[1..][i - 1];
    }
  }

  lemma {:induction false} MessageHeard(def: MessageDef, d: Data)
    requires CleanMessage(def, d)
    ensures HeardMessage(def, d) == NormalMessage(def, d) <==> UnsignedMessage(def, d)
    decreases def, 0, 0
  {
    hide CleanFields, HeardFields, NormalFields, UnsignedFields;
    if d.Obj? {
      FieldsHeard(def.fields, d.props);
    }
  }

  lemma {:induction false} FieldsHeard(fields: seq<Field>, props: seq<Prop>)
    requires CleanFields(fields, props)
    ensures |HeardFields(fields, props)| == |NormalFields(fields, props)|
    ensures HeardFields(fields, props) == NormalFields(fields, props) <==> UnsignedFields(fields, props)
    decreases fields, 0, 0
  {
    hide CleanField, HeardField, NormalField, UnsignedField;
    if fields != [] {
      var f, d := fields[0], Lookup(props, fields[0].name);
      FieldHeard(f, d);
      FieldsHeard(fields[1..], props);
      Prefixes(HeardField(f, d), HeardFields(fields[1..], props), NormalField(f, d), NormalFields(fields[1..], props));
    }
  }

  lemma Prefixes<T>(a: seq<T>, s: seq<T>, b: seq<T>, t: seq<T>)
    requires |a| == |b|
    ensures a + s == b + t <==> a == b && s == t
  {
    if a + s == b + t {
      assert (a + s)[..|a|] == a && (b + t)[..|b|] == b && (a + s)[|a|..] == s && (b + t)[|b|..] == t;
    }
  }

  lemma {:induction false} FieldHeard(f: Field, d: Data)
    requires CleanField(f, d)
    ensures |HeardField(f, d)| == |NormalField(f, d)|
    ensures HeardField(f, d) == NormalField(f, d) <==> UnsignedField(f, d)
    decreases f, 0, 0
  {
    hide Clean, HeardData, NormalData, Unsigned;
    HeardIs(f.of, d);
    if f.of.OptionalOf? && d.Nothing? {
      AbsentUnsigned(f.of);
    }
  }

  lemma AbsentUnsigned(of: FieldType)
    requires of.OptionalOf?
    ensures Unsigned(of, Nothing)
  {
  }

  /**
   Codec agreement: a clean payload the `schema` codec encodes, nested at most
   512 deep, is encoded by both, and both encodings are decoded, to the same
   message if and only if no float in it is -0.
   */
  lemma CodecsAgree(fl: Floats, def: MessageDef, payload: Data)
    requires Lawful(fl) && WriteMessage(def, payload).Some? && NestsMessage(def, payload, 0)
    requires SolidMessage(def) && CleanMessage(def, payload)
    ensures PackMessage(def, payload).Some?
    ensures MessagePack.Encode(PackMessage(def, payload).value).Some?
    ensures var packed := MessagePack.Encode(PackMessage(def, payload).value).value;
            && MessagePack.Decode(packed).Some?
            && var heard := UnpackMessage(fl, def, MessagePack.Decode(packed).value);
               var read := ReadMessage(def, WriteMessage(def, payload).value);
               && heard == Some(HeardMessage(def, payload)) && read == Some((NormalMessage(def, payload), []))
               && (heard.value == read.value.0 <==> UnsignedMessage(def, payload))
  {
    hide Lawful, WriteMessage, PackMessage, ReadMessage, UnpackMessage, NormalMessage, HeardMessage, MessagePack.Encode,
         MessagePack.Decode, MessagePack.Readable, MessagePack.NormalValue, CleanMessage, SolidMessage, NestsMessage,
         UnsignedMessage;
    CarriedExactly(def, payload);
    MessageIsReadable(def, payload);
    MessagePack.DecodesTo(PackMessage(def, payload).value);
    MessageUnpacks(fl, def, payload);
    MessageProofs.MessageRoundTrip(def, payload);
    MessageHeard(def, payload);
  }

  /** A message with a float that is -0: the `schema` codec keeps the sign, MessagePack does not. */
  lemma NegativeZeroDiffers()
    ensures var def := MessageDef([Field("x", Plain(Float64))]);
            var payload := Obj([Prop("x", Leaf(F64(SIGN)))]);
            && WriteMessage(def, payload).Some? && NestsMessage(def, payload, 0)
            && SolidMessage(def) && CleanMessage(def, payload)
            && NormalMessage(def, payload) == payload && HeardMessage(def, payload) == Obj([Prop("x", Leaf(F64(0)))])
  {
    var field, prop := Field("x", Plain(Float64)), Prop("x", Leaf(F64(SIGN)));
    var fields, props := [field], [prop];
    assert fields[1..] == [] && Lookup(props, "x") == Leaf(F64(SIGN));
    assert Used([], props) == 0 && Used(fields, props) == 1;
    assert NestsFields([], props, 1);
    assert WriteField(field, Leaf(F64(SIGN))).Some? && WriteFields([], props) == Some([]);
    assert NormalFields([], props) == [] && HeardFields([], props) == [];
    assert CleanFields([], props);
  }
}
