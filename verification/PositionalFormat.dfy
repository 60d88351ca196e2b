/** What a packed payload looks like, and what unpacking refuses. */
module PositionalFormat {
  import opened Wrappers
  import opened Wire
  import opened StateTypes
  import opened Doubles
  import opened OpCodec
  import opened Contract
  import opened Positional
  import MessagePack
  import MessageFormat
  import OpFormat
  import CodecAgreement

  /** Scalars by their kind: both precisions as doubles, texts, booleans, and all others as integers. */
  lemma ScalarIs(of: Scalar, v: Val)
    ensures var w := PackScalar(of, v);
            && (w.Some? <==>
                  match of
                  case Float64 => v.F64?
                  case Float32 => v.F32?
                  case Text => v.Str?
                  case Bool => v.Flag?
                  case Fixed(_) => v.Num? && OpFormat.InRange(Int32, v.n)
                  case Integer(kind) => v.Num? && OpFormat.InRange(kind, v.n))
            && (w.Some? ==>
                  match v
                  case F64(bits) => w.value == MessagePack.Float(bits)
                  case F32(word) => w.value == MessagePack.Float(Widen(word))
                  case Str(s) => w.value == MessagePack.Text(s)
                  case Flag(b) => w.value == MessagePack.Flag(b)
                  case Num(n) => w.value == MessagePack.Int(n)
                  case _ => true)
  {
  }

  /** An array as a list, a map as one, an enum value as its first index, an absent optional as nil. */
  lemma DataIs(of: FieldType, d: Data)
    requires PackData(of, d).Some?
    ensures var w := PackData(of, d).value;
            match of
            case Plain(scalar) => d.Leaf? && PackScalar(scalar, d.v) == Some(w)
            case Choice(values) =>
              && d.Leaf?
              && exists i: nat :: i < |values| && values[i] == d.v && (forall j :: 0 <= j < i ==> values[j] != d.v)
                                  && w == MessagePack.Int(i)
            case ArrayOf(item) =>
              && d.Items? && w.List? && |w.items| == |d.items|
              && forall i :: 0 <= i < |d.items| ==> PackData(item, d.items[i]) == Some(w.items[i])
            case MapOf(item) =>
              && d.Obj? && w.Dict? && |w.entries| == |d.props|
              && forall i :: 0 <= i < |d.props| ==>
                   w.entries[i].key == d.props[i].key && PackData(item, d.props[i].value) == Some(w.entries[i].value)
            case OptionalOf(item) => if d.Nothing? then w == MessagePack.Nil else PackData(item, d) == Some(w)
            case NestedOf(message) => PackMessage(message, d) == Some(w)
  {
    hide PackScalar, PackItems, PackProps, PackMessage;
    match of {
      case Choice(values) => MessageFormat.ChoiceIs(values, d.v);
      case ArrayOf(item) =>
        forall i | 0 <= i < |d.items|
          ensures PackData(item, d.items[i]) == Some(PackItems(item, d.items).value[i])
        {
          ItemIs(item, d.items, i);
        }
      case MapOf(item) =>
        forall i | 0 <= i < |d.props|
          ensures PackData(item, d.props[i].value) == Some(PackProps(item, d.props).value[i].value)
        {
          PropIs(item, d.props, i);
        }
      case _ =>
    }
  }

  lemma {:induction false} ItemIs(item: FieldType, items: seq<Data>, i: nat)
    requires PackItems(item, items).Some? && i < |items|
    ensures PackData(item, items[i]) == Some(PackItems(item, items).value[i])
    decreases i
  {
    hide PackData;
    if i > 0 {
      ItemIs(item, items[1..], i - 1);
    }
  }

  lemma {:induction false} PropIs(item: FieldType, props: seq<Prop>, i: nat)
    requires PackProps(item, props).Some? && i < |props|
    ensures PackData(item, props[i].value) == Some(PackProps(item, props).value[i].value)
    decreases i
  {
    hide PackData;
    if i > 0 {
      PropIs(item, props[1..], i - 1);
    }
  }

  /** A message as the list of its fields, in the order of their declaration, up to the last that is used. */
  lemma MessageIs(def: MessageDef, d: Data, i: nat)
    requires PackMessage(def, d).Some?
    ensures d.Obj? && PackMessage(def, d).value.List?
    ensures var items := PackMessage(def, d).value.items;
            && |items| == CodecAgreement.Used(def.fields, d.props)
            && (i < |items| ==>
                  var f := def.fields[i]; PackData(f.of, Contract.Lookup(d.props, f.name)) == Some(items[i]))
  {
    hide PackFields, Trimmed, CodecAgreement.Used;
    var packed := PackFields(def.fields, d.props).value;
    CodecAgreement.TrimmedUsed(def.fields, d.props);
    if i < |Trimmed(def.fields, packed)| {
      CodecAgreement.PackedAt(def.fields, d.props, i);
    }
  }

  /** The used fields: none after them is anything but an absent optional, and the last of them is. */
  lemma UsedIs(fields: seq<Field>, props: seq<Prop>)
    ensures var n := CodecAgreement.Used(fields, props);
            && (forall i :: n <= i < |fields| ==>
                  fields[i].of.OptionalOf? && Contract.Lookup(props, fields[i].name).Nothing?)
            && (n > 0 ==> !(fields[n - 1].of.OptionalOf? && Contract.Lookup(props, fields[n - 1].name).Nothing?))
  {
    CodecAgreement.UsedSplits(fields, props);
    hide CodecAgreement.Used;
    forall i | CodecAgreement.Used(fields, props) <= i < |fields|
      ensures fields[i].of.OptionalOf? && Contract.Lookup(props, fields[i].name).Nothing?
    {
      assert CodecAgreement.IsAbsent(fields[i], Contract.Lookup(props, fields[i].name));
    }
  }

  /** What no packed payload is, is refused. */
  lemma UnpackRefuses(fl: Floats, of: FieldType, w: Wired)
    ensures of == Plain(Text) && !w.Text? ==> UnpackData(fl, of, w) == None
    ensures of == Plain(Bool) && !w.Flag? ==> UnpackData(fl, of, w) == None
    ensures of.Plain? && of.of.Integer? && w.Int? && !OpFormat.InRange(of.of.kind, w.n) ==>
              UnpackData(fl, of, w) == None
    ensures of.Plain? && of.of.Fixed? && w.Int? && !OpFormat.InRange(Int32, w.n) ==> UnpackData(fl, of, w) == None
    ensures of.Plain? && !w.Int? && !w.Float? && !of.of.Text? && !of.of.Bool? ==> UnpackData(fl, of, w) == None
    ensures of.Choice? && w.Int? && !(0 <= w.n < |of.values|) ==> UnpackData(fl, of, w) == None
    ensures (of.ArrayOf? && !w.List?) || (of.MapOf? && !w.Dict?) ==> UnpackData(fl, of, w) == None
    ensures of.NestedOf? && (!w.List? || |w.items| > |of.message.fields|) ==> UnpackData(fl, of, w) == None
  {
    hide UnpackItems, UnpackEntries, UnpackFields;
  }
}
