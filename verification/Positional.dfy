/**
 Contract messages as positional MessagePack arrays: trailing absent optionals
 are left out at every level and restored on reading.
 */
module Positional {
  import opened Wrappers
  import opened Wire
  import opened StateTypes
  import opened Doubles
  import opened OpCodec
  import opened OpCodecProofs
  import opened Contract
  import opened Messages
  import MessagePack
  import MessageProofs
  import Utf8

  type Wired = MessagePack.Value

  /** The platform's rounding of a double to single precision. */
  datatype Floats = Floats(narrow: bits64 -> bits32)

  /** Rounding undoes widening. */
  ghost predicate Lawful(fl: Floats) {
    forall w: bits32 :: fl.narrow(Widen(w)) == WireSingle(w)
  }

  ghost function SomeNarrow(b: bits64): bits32 {
    if w: bits32 :| Widen(w) == b then WireSingle(w) else 0
  }

  /** There is such a rounding. */
  lemma LawfulExists()
    ensures exists fl :: Lawful(fl)
  {
    var fl := Floats((b: bits64) => SomeNarrow(b));
    forall w: bits32
      ensures fl.narrow(Widen(w)) == WireSingle(w)
    {
      var v: bits32 :| Widen(v) == Widen(w) && SomeNarrow(Widen(w)) == WireSingle(v);
      WidenInjective(v, w);
    }
    assert Lawful(fl);
  }

  /** A number as a double, rounded if it is a large integer. */
  function AsDouble(w: Wired): Option<bits64> {
    match w
    case Int(n) => if IsInt64(n) then Some(DoubleOf(n)) else None
    case Float(bits) => Some(bits)
    case _ => None
  }

  function AsInt(w: Wired): Option<int> {
    match w
    case Int(n) => Some(n)
    case Float(bits) => WholeOf(bits)
    case _ => None
  }

  // ----------------------------------------------------------------- packing

  function PackScalar(of: Scalar, v: Val): Option<Wired> {
    match of
    case Float64 => if v.F64? then Some(MessagePack.Float(v.bits)) else None
    case Float32 => if v.F32? then Some(MessagePack.Float(Widen(v.word))) else None
    case Text => if v.Str? then Some(MessagePack.Text(v.s)) else None
    case Bool => if v.Flag? then Some(MessagePack.Flag(v.b)) else None
    case Fixed(_) => if v.Num? && IsInt32(v.n) then Some(MessagePack.Int(v.n)) else None
    case Integer(kind) => if v.Num? && kind.Min() <= v.n <= kind.Max() then Some(MessagePack.Int(v.n)) else None
  }

  function PackData(of: FieldType, d: Data): Option<Wired>
    decreases of, 0, 0
  {
    match of
    case Plain(scalar) => if d.Leaf? then PackScalar(scalar, d.v) else None
    case Choice(values) =>
      if !d.Leaf? then None
      else
        var index :- ChoiceIndex(values, d.v);
        if index <= MAX_UINT32 then Some(MessagePack.Int(index)) else None
    case ArrayOf(item) =>
      if !d.Items? then None
      else
        var items :- PackItems(item, d.items);
        Some(MessagePack.List(items))
    case MapOf(item) =>
      if !d.Obj? then None
      else
        var entries :- PackProps(item, d.props);
        Some(MessagePack.Dict(entries))
    case OptionalOf(item) => if d.Nothing? then Some(MessagePack.Nil) else PackData(item, d)
    case NestedOf(message) => PackMessage(message, d)
  }

  function PackItems(item: FieldType, items: seq<Data>): (r: Option<seq<Wired>>)
    ensures r.Some? ==> |r.value| == |items|
    decreases item, 1, |items|
  {
    if items == [] then Some([])
    else
      var first :- PackData(item, items[0]);
      var rest :- PackItems(item, items[1..]);
      Some([first] + rest)
  }

  function PackProps(item: FieldType, props: seq<Prop>): (r: Option<seq<MessagePack.Entry>>)
    ensures r.Some? ==> |r.value| == |props| && forall i :: 0 <= i < |props| ==> r.value[i].key == props[i].key
    decreases item, 1, |props|
  {
    if props == [] then Some([])
    else
      var first :- PackData(item, props[0].value);
      var rest :- PackProps(item, props[1..]);
      Some([MessagePack.Entry(props[0].key, first)] + rest)
  }

  function PackMessage(def: MessageDef, d: Data): Option<Wired>
    decreases def, 0, 0
  {
    if !d.Obj? then None
    else
      var packed :- PackFields(def.fields, d.props);
      Some(MessagePack.List(Trimmed(def.fields, packed)))
  }

  function PackFields(fields: seq<Field>, props: seq<Prop>): (r: Option<seq<Wired>>)
    ensures r.Some? ==> |r.value| == |fields|
    decreases fields, 0, 0
  {
    if fields == [] then Some([])
    else
      var first :- PackField(fields[0], Lookup(props, fields[0].name));
      var rest :- PackFields(fields[1..], props);
      Some([first] + rest)
  }

  function PackField(f: Field, d: Data): Option<Wired>
    decreases f, 0, 0
  {
    PackData(f.of, d)
  }

  /** Trailing absent optionals left out. */
  function Trimmed(fields: seq<Field>, packed: seq<Wired>): (r: seq<Wired>)
    requires |packed| <= |fields|
    ensures |r| <= |packed| && r == packed[..|r|]
    ensures forall i :: |r| <= i < |packed| ==> packed[i].Nil? && fields[i].of.OptionalOf?
    ensures r != [] ==> !(r[|r| - 1].Nil? && fields[|r| - 1].of.OptionalOf?)
    decreases |packed|
  {
    if packed == [] then []
    else
      var n := |packed| - 1;
      if packed[n].Nil? && fields[n].of.OptionalOf? then Trimmed(fields, packed[..n]) else packed
  }

  // --------------------------------------------------------------- unpacking

  function UnpackScalar(fl: Floats, of: Scalar, w: Wired): Option<Val> {
    match of
    case Float64 => var bits :- AsDouble(w); Some(F64(bits))
    case Float32 => var bits :- AsDouble(w); Some(F32(fl.narrow(bits)))
    case Text => if w.Text? then Some(Str(w.s)) else None
    case Bool => if w.Flag? then Some(Flag(w.b)) else None
    case Fixed(_) => var n :- AsInt(w); if IsInt32(n) then Some(Num(n)) else None
    case Integer(kind) => var n :- AsInt(w); if kind.Min() <= n <= kind.Max() then Some(Num(n)) else None
  }

  function UnpackData(fl: Floats, of: FieldType, w: Wired): Option<Data>
    decreases of, 0, 0
  {
    match of
    case Plain(scalar) => var v :- UnpackScalar(fl, scalar, w); Some(Leaf(v))
    case Choice(values) =>
      var index :- AsInt(w);
      if 0 <= index < |values| then Some(Leaf(values[index])) else None
    case ArrayOf(item) =>
      if !w.List? then None
      else
        var items :- UnpackItems(fl, item, w.items);
        Some(Items(items))
    case MapOf(item) =>
      if !w.Dict? then None
      else
        var props :- UnpackEntries(fl, item, w.entries);
        Some(Obj(props))
    case OptionalOf(item) => if w.Nil? then Some(Nothing) else UnpackData(fl, item, w)
    case NestedOf(message) => UnpackMessage(fl, message, w)
  }

  function UnpackItems(fl: Floats, item: FieldType, items: seq<Wired>): Option<seq<Data>>
    decreases item, 1, |items|
  {
    if items == [] then Some([])
    else
      var first :- UnpackData(fl, item, items[0]);
      var rest :- UnpackItems(fl, item, items[1..]);
      Some([first] + rest)
  }

  function UnpackEntries(fl: Floats, item: FieldType, entries: seq<MessagePack.Entry>): Option<seq<Prop>>
    decreases item, 1, |entries|
  {
    if entries == [] then Some([])
    else
      var first :- UnpackData(fl, item, entries[0].value);
      var rest :- UnpackEntries(fl, item, entries[1..]);
      Some([Prop(entries[0].key, first)] + rest)
  }

  function UnpackMessage(fl: Floats, def: MessageDef, w: Wired): Option<Data>
    decreases def, 0, 0
  {
    if !w.List? || |w.items| > |def.fields| then None
    else
      var props :- UnpackFields(fl, def.fields, w.items);
      Some(Obj(props))
  }

  /** Past the end of the array, only an optional may be missing. */
  function UnpackFields(fl: Floats, fields: seq<Field>, items: seq<Wired>): Option<seq<Prop>>
    decreases fields, 0, 0
  {
    if fields == [] then Some([])
    else
      var d :- UnpackField(fl, fields[0], if items == [] then MessagePack.Nil else items[0]);
      var rest :- UnpackFields(fl, fields[1..], if items == [] then [] else items[1..]);
      Some((if fields[0].of.OptionalOf? && d.Nothing? then [] else [Prop(fields[0].name, d)]) + rest)
  }

  function UnpackField(fl: Floats, f: Field, w: Wired): Option<Data>
    decreases f, 0, 0
  {
    UnpackData(fl, f.of, w)
  }

  // ----------------------------------------------------------- what is decoded

  /** A scalar after its way through MessagePack: -0 has lost its sign. */
  function HeardVal(of: Scalar, v: Val): Val {
    match of
    case Float64 => if v.F64? then F64(if v.bits == SIGN then 0 else WireDouble(v.bits)) else v
    case Float32 => if v.F32? then F32(if v.word == SIGN32 then 0 else WireSingle(v.word)) else v
    case Text => if v.Str? then Str(Utf8.WireText(v.s)) else v
    case _ => v
  }

  /** As `NormalData`, with every scalar as it is heard. */
  function HeardData(of: FieldType, d: Data): (r: Data)
    ensures r.Nothing? <==> d.Nothing?
    decreases of, 0, 0
  {
    match of
    case Plain(scalar) => if d.Leaf? then Leaf(HeardVal(scalar, d.v)) else d
    case ArrayOf(item) => if d.Items? then Items(HeardItems(item, d.items)) else d
    case MapOf(item) => if d.Obj? then Obj(HeardProps(item, d.props)) else d
    case OptionalOf(item) => if d.Nothing? then d else HeardData(item, d)
    case NestedOf(message) => HeardMessage(message, d)
    case _ => d
  }

  function HeardItems(item: FieldType, items: seq<Data>): (r: seq<Data>)
    ensures |r| == |items|
    decreases item, 1, |items|
  {
    if items == [] then [] else [HeardData(item, items[0])] + HeardItems(item, items[1..])
  }

  function HeardProps(item: FieldType, props: seq<Prop>): (r: seq<Prop>)
    ensures |r| == |props|
    decreases item, 1, |props|
  {
    if props == [] then []
    else [Prop(Utf8.WireText(props[0].key), HeardData(item, props[0].value))] + HeardProps(item, props[1..])
  }

  function HeardMessage(def: MessageDef, d: Data): (r: Data)
    ensures r.Nothing? <==> d.Nothing?
    decreases def, 0, 0
  {
    if d.Obj? then Obj(HeardFields(def.fields, d.props)) else d
  }

  function HeardFields(fields: seq<Field>, props: seq<Prop>): seq<Prop>
    decreases fields, 0, 0
  {
    if fields == [] then []
    else HeardField(fields[0], Lookup(props, fields[0].name)) + HeardFields(fields[1..], props)
  }

  function HeardField(f: Field, d: Data): seq<Prop>
    decreases f, 0, 0
  {
    if f.of.OptionalOf? && d.Nothing? then [] else [Prop(f.name, HeardData(f.of, d))]
  }

  // --------------------------------------------------------------- round trip

  lemma ScalarUnpacks(fl: Floats, of: Scalar, v: Val)
    requires Lawful(fl) && PackScalar(of, v).Some?
    ensures UnpackScalar(fl, of, MessagePack.NormalValue(PackScalar(of, v).value)) == Some(HeardVal(of, v))
    ensures !PackScalar(of, v).value.Nil?
  {
    match of {
      case Float64 => DoubleUnpacks(v.bits);
      case Float32 => SingleUnpacks(fl, v.word);
      case _ =>
    }
  }

  lemma DoubleUnpacks(bits: bits64)
    ensures AsDouble(MessagePack.NormalValue(MessagePack.Float(bits))) ==
            Some(if bits == SIGN then 0 else WireDouble(bits))
  {
    hide DoubleOf;
    if WholeOf(bits).Some? {
      DoubleOfWhole(bits);
      WholeIsNumber(bits);
    } else {
      assert WholeOf(SIGN).Some?;
    }
  }

  lemma WholeIsNumber(bits: bits64)
    requires WholeOf(bits).Some?
    ensures !IsNaN(bits)
  {
    hide Lowered;
  }

  lemma SingleUnpacks(fl: Floats, word: bits32)
    requires Lawful(fl)
    ensures var bits := AsDouble(MessagePack.NormalValue(MessagePack.Float(Widen(word))));
            bits.Some? && fl.narrow(bits.value) == if word == SIGN32 then 0 else WireSingle(word)
  {
    hide Widen;
    DoubleUnpacks(Widen(word));
    assert fl.narrow(Widen(0)) == 0 && Widen(0) == 0;
  }

  /** Only an absent optional is packed as nil. */
  lemma {:induction false} NilIsAbsent(of: FieldType, d: Data)
    requires PackData(of, d).Some?
    ensures PackData(of, d).value.Nil? <==> of.OptionalOf? && d.Nothing?
    decreases of
  {
    hide PackItems, PackProps, PackFields, Trimmed;
    if of.OptionalOf? && !d.Nothing? {
      NilIsAbsent(of.item, d);
    }
  }

  /** The packed value as MessagePack decodes it, unpacked. */
  lemma {:induction false} DataUnpacks(fl: Floats, of: FieldType, d: Data)
    requires Lawful(fl) && PackData(of, d).Some?
    ensures UnpackData(fl, of, MessagePack.NormalValue(PackData(of, d).value)) == Some(HeardData(of, d))
    decreases of, 0, 0
  {
    hide Lawful, PackScalar, UnpackScalar, PackItems, UnpackItems, PackProps, UnpackEntries, PackMessage, UnpackMessage,
         HeardVal, HeardItems, HeardProps, HeardMessage;
    match of {
      case Plain(scalar) => ScalarUnpacks(fl, scalar, d.v);
      case Choice(values) =>
      case ArrayOf(item) => ItemsUnpack(fl, item, d.items);
      case MapOf(item) => PropsUnpack(fl, item, d.props);
      case OptionalOf(item) =>
        if !d.Nothing? {
          NilIsAbsent(of, d);
          DataUnpacks(fl, item, d);
        }
      case NestedOf(message) => MessageUnpacks(fl, message, d);
    }
  }

  lemma {:induction false} ItemsUnpack(fl: Floats, item: FieldType, items: seq<Data>)
    requires Lawful(fl) && PackItems(item, items).Some?
    ensures UnpackItems(fl, item, MessagePack.NormalList(PackItems(item, items).value)) ==
            Some(HeardItems(item, items))
    decreases item, 1, |items|
  {
    hide Lawful, PackData, UnpackData, HeardData, MessagePack.NormalValue;
    if items != [] {
      DataUnpacks(fl, item, items[0]);
      ItemsUnpack(fl, item, items[1..]);
      assert PackItems(item, items).value[1..] == PackItems(item, items[1..]).value;
    }
  }

  lemma {:induction false} PropsUnpack(fl: Floats, item: FieldType, props: seq<Prop>)
    requires Lawful(fl) && PackProps(item, props).Some?
    ensures UnpackEntries(fl, item, MessagePack.NormalEntries(PackProps(item, props).value)) ==
            Some(HeardProps(item, props))
    decreases item, 1, |props|
  {
    hide Lawful, PackData, UnpackData, HeardData, MessagePack.NormalValue, Utf8.WireText;
    if props != [] {
      DataUnpacks(fl, item, props[0].value);
      PropsUnpack(fl, item, props[1..]);
      assert PackProps(item, props).value[1..] == PackProps(item, props[1..]).value;
    }
  }

  /** `items` are the packed fields, short of trailing absent optionals. */
  ghost predicate Shortened(fields: seq<Field>, packed: seq<Wired>, items: seq<Wired>)
    requires |packed| == |fields|
  {
    && |items| <= |packed| && items == packed[..|items|]
    && forall i :: |items| <= i < |packed| ==> packed[i].Nil? && fields[i].of.OptionalOf?
  }

  lemma {:induction false} MessageUnpacks(fl: Floats, def: MessageDef, d: Data)
    requires Lawful(fl) && PackMessage(def, d).Some?
    ensures UnpackMessage(fl, def, MessagePack.NormalValue(PackMessage(def, d).value)) == Some(HeardMessage(def, d))
    decreases def, 0, 0
  {
    hide Lawful, PackFields, UnpackFields, HeardFields, Trimmed, Shortened, MessagePack.NormalValue;
    var packed := PackFields(def.fields, d.props).value;
    var items := Trimmed(def.fields, packed);
    TrimmedShortens(def.fields, packed);
    FieldsUnpack(fl, def.fields, d.props, items);
    NormalOfList(items);
  }

  lemma TrimmedShortens(fields: seq<Field>, packed: seq<Wired>)
    requires |packed| == |fields|
    ensures Shortened(fields, packed, Trimmed(fields, packed))
  {
    hide Trimmed;
  }

  lemma NormalOfList(items: seq<Wired>)
    ensures MessagePack.NormalValue(MessagePack.List(items)) == MessagePack.List(MessagePack.NormalList(items))
  {
  }

  lemma {:induction false} FieldsUnpack(fl: Floats, fields: seq<Field>, props: seq<Prop>, items: seq<Wired>)
    requires Lawful(fl) && PackFields(fields, props).Some?
             && Shortened(fields, PackFields(fields, props).value, items)
    ensures UnpackFields(fl, fields, MessagePack.NormalList(items)) == Some(HeardFields(fields, props))
    decreases fields, 0, 0
  {
    if fields != [] {
      var f, d := fields[0], Lookup(props, fields[0].name);
      var packed, tail := PackFields(fields, props).value, if items == [] then [] else items[1..];
      var first, more := PackField(f, d).value, PackFields(fields[1..], props).value;
      assert packed[0] == first && packed[1..] == more && (items != [] ==> items[0] == first);
      assert Shortened(fields[1..], more, tail) by { ShortenedTail(fields, packed, items); }
      hide Lawful, PackFields, UnpackField, PackField, Shortened, HeardField, HeardData, MessagePack.NormalValue;
      FieldUnpacks(fl, f, d);
      FieldsUnpack(fl, fields[1..], props, tail);
      assert items == [] ==> first.Nil?;
      assert MessagePack.NormalList(items) ==
             if items == [] then [] else [MessagePack.NormalValue(first)] + MessagePack.NormalList(tail);
    }
  }

  lemma ShortenedTail(fields: seq<Field>, packed: seq<Wired>, items: seq<Wired>)
    requires |packed| == |fields| && fields != [] && Shortened(fields, packed, items)
    ensures Shortened(fields[1..], packed[1..], if items == [] then [] else items[1..])
    ensures items == [] ==> packed[0].Nil?
  {
  }

  lemma {:induction false} FieldUnpacks(fl: Floats, f: Field, d: Data)
    requires Lawful(fl) && PackField(f, d).Some?
    ensures UnpackField(fl, f, MessagePack.NormalValue(PackField(f, d).value)) == Some(HeardData(f.of, d))
    ensures PackField(f, d).value.Nil? ==> MessagePack.NormalValue(PackField(f, d).value) == MessagePack.Nil
    ensures HeardField(f, d) ==
            if f.of.OptionalOf? && HeardData(f.of, d).Nothing? then [] else [Prop(f.name, HeardData(f.of, d))]
    decreases f, 0, 0
  {
    hide Lawful, PackData, UnpackData, HeardData;
    DataUnpacks(fl, f.of, d);
  }

  // ---------------------------------------------------------------- agreement

  /** What is packed from a clean payload, a MessagePack decoder accepts. */
  lemma {:induction false} DataIsReadable(of: FieldType, d: Data)
    requires PackData(of, d).Some? && Clean(of, d)
    ensures MessagePack.Readable(PackData(of, d).value)
    decreases of, 0, 0
  {
    hide PackItems, PackProps, PackMessage, CleanMessage;
    match of {
      case Plain(scalar) =>
      case Choice(values) =>
      case ArrayOf(item) => ItemsAreReadable(item, d.items);
      case MapOf(item) =>
        PropsAreReadable(item, d.props);
        KeysStayApart(d.props, PackProps(item, d.props).value);
      case OptionalOf(item) =>
        if !d.Nothing? {
          DataIsReadable(item, d);
        }
      case NestedOf(message) => MessageIsReadable(message, d);
    }
  }

  /** Good keys are themselves on the wire. */
  lemma KeysStayApart(props: seq<Prop>, entries: seq<MessagePack.Entry>)
    requires DistinctKeys(props) && forall i :: 0 <= i < |props| ==> GoodKey(props[i].key)
    requires |entries| == |props| && forall i :: 0 <= i < |props| ==> entries[i].key == props[i].key
    ensures MessagePack.KeysApart(entries, {})
  {
    forall i | 0 <= i < |entries|
      ensures Utf8.WireText(entries[i].key) == props[i].key
    {
      Utf8.WireTextDecodes(props[i].key);
    }
    hide Utf8.WireText;
  }

  lemma {:induction false} ItemsAreReadable(item: FieldType, items: seq<Data>)
    requires PackItems(item, items).Some? && forall i :: 0 <= i < |items| ==> Clean(item, items[i])
    ensures forall i :: 0 <= i < |items| ==> MessagePack.Readable(PackItems(item, items).value[i])
    decreases item, 1, |items|
  {
    hide PackData, Clean, MessagePack.Readable;
    if items != [] {
      DataIsReadable(item, items[0]);
      ItemsAreReadable(item, items[1..]);
    }
  }

  lemma {:induction false} PropsAreReadable(item: FieldType, props: seq<Prop>)
    requires PackProps(item, props).Some? && forall i :: 0 <= i < |props| ==> Clean(item, props[i].value)
    ensures forall i :: 0 <= i < |props| ==> MessagePack.ReadableEntry(PackProps(item, props).value[i])
    decreases item, 1, |props|
  {
    hide PackData, Clean, MessagePack.Readable;
    if props != [] {
      DataIsReadable(item, props[0].value);
      PropsAreReadable(item, props[1..]);
    }
  }

  lemma {:induction false} MessageIsReadable(def: MessageDef, d: Data)
    requires PackMessage(def, d).Some? && CleanMessage(def, d)
    ensures MessagePack.Readable(PackMessage(def, d).value)
    decreases def, 0, 0
  {
    FieldsAreReadable(def.fields, d.props);
    hide PackFields, CleanFields;
    var packed := PackFields(def.fields, d.props).value;
    var trimmed := Trimmed(def.fields, packed);
    assert forall i :: 0 <= i < |trimmed| ==> trimmed[i] == packed[i];
  }

  lemma {:induction false} FieldsAreReadable(fields: seq<Field>, props: seq<Prop>)
    requires PackFields(fields, props).Some? && CleanFields(fields, props)
    ensures forall i :: 0 <= i < |fields| ==> MessagePack.Readable(PackFields(fields, props).value[i])
    decreases fields, 0, 0
  {
    hide PackField, CleanField, MessagePack.Readable;
    if fields != [] {
      FieldIsReadable(fields[0], Lookup(props, fields[0].name));
      FieldsAreReadable(fields[1..], props);
    }
  }

  lemma {:induction false} FieldIsReadable(f: Field, d: Data)
    requires PackField(f, d).Some? && CleanField(f, d)
    ensures MessagePack.Readable(PackField(f, d).value)
    decreases f, 0, 0
  {
    DataIsReadable(f.of, d);
  }

  /** What the `schema` codec encodes can be packed. */
  lemma {:induction false} DataPacks(of: FieldType, d: Data)
    requires WriteData(of, d).Some?
    ensures PackData(of, d).Some?
    decreases of, 0, 0
  {
    hide WriteItems, PackItems, WriteProps, PackProps, WriteMessage, PackMessage, LittleEndian, Varint, WriteString;
    match of {
      case ArrayOf(item) => ItemsPack(item, d.items);
      case MapOf(item) => PropsPack(item, d.props);
      case OptionalOf(item) =>
        if !d.Nothing? {
          DataPacks(item, d);
        }
      case NestedOf(message) => MessagePacks(message, d);
      case _ =>
    }
  }

  lemma {:induction false} ItemsPack(item: FieldType, items: seq<Data>)
    requires Messages.WriteItems(item, items).Some?
    ensures PackItems(item, items).Some?
    decreases item, 1, |items|
  {
    hide WriteData, PackData;
    if items != [] {
      DataPacks(item, items[0]);
      ItemsPack(item, items[1..]);
    }
  }

  lemma {:induction false} PropsPack(item: FieldType, props: seq<Prop>)
    requires WriteProps(item, props).Some?
    ensures PackProps(item, props).Some?
    decreases item, 1, |props|
  {
    hide WriteData, PackData, WriteString;
    if props != [] {
      DataPacks(item, props[0].value);
      PropsPack(item, props[1..]);
    }
  }

  lemma {:induction false} MessagePacks(def: MessageDef, d: Data)
    requires WriteMessage(def, d).Some?
    ensures PackMessage(def, d).Some?
    decreases def, 0, 0
  {
    FieldsPack(def.fields, d.props);
  }

  lemma {:induction false} FieldsPack(fields: seq<Field>, props: seq<Prop>)
    requires WriteFields(fields, props).Some?
    ensures PackFields(fields, props).Some?
    decreases fields, 0, 0
  {
    hide WriteField, PackField;
    if fields != [] {
      FieldPacks(fields[0], Lookup(props, fields[0].name));
      FieldsPack(fields[1..], props);
    }
  }

  lemma {:induction false} FieldPacks(f: Field, d: Data)
    requires WriteField(f, d).Some?
    ensures PackField(f, d).Some?
    decreases f, 0, 0
  {
    if f.of.OptionalOf? {
      if !d.Nothing? && f.of.item != TheBool {
        OptionalPacks(f.of, d);
      }
    } else if f.of != TheBool {
      DataPacks(f.of, d);
    }
  }

  lemma {:induction false} OptionalPacks(of: FieldType, d: Data)
    requires of.OptionalOf? && WriteOptional(of, d).Some? && !d.Nothing?
    ensures PackData(of, d).Some?
    decreases of, 0, 0
  {
    DataPacks(of.item, d);
  }
}
