/** Positional arrays filled and read element by element, with the trailing absent optionals trimmed in place. */
module PositionalLists {
  import opened Wrappers
  import opened Wire
  import opened OpCodec
  import opened Contract
  import opened Messages
  import opened Positional
  import opened Buffers
  import MessagePack

  // ----------------------------------------------------------------- packing

  method Pack(of: FieldType, d: Data) returns (w: Option<Wired>)
    ensures w == PackData(of, d)
    decreases of, 0, 0
  {
    hide PackScalar, PackItems, PackProps, PackMessage;
    match of {
      case Plain(scalar) => return if d.Leaf? then PackScalar(scalar, d.v) else None;
      case Choice(values) =>
        if !d.Leaf? {
          return None;
        }
        var index := ChoiceIndex(values, d.v);
        return if index.Some? && index.value <= MAX_UINT32 then Some(MessagePack.Int(index.value)) else None;
      case ArrayOf(item) =>
        if !d.Items? {
          return None;
        }
        var items := PackAll(item, d.items);
        return if items.Some? then Some(MessagePack.List(items.value)) else None;
      case MapOf(item) =>
        if !d.Obj? {
          return None;
        }
        var entries := PackEntries(item, d.props);
        return if entries.Some? then Some(MessagePack.Dict(entries.value)) else None;
      case OptionalOf(item) =>
        if d.Nothing? {
          return Some(MessagePack.Nil);
        }
        w := Pack(item, d);
      case NestedOf(message) =>
        w := PackRecord(message, d);
    }
  }

  lemma PackItemsFrom(item: FieldType, items: seq<Data>, i: nat)
    requires i < |items|
    ensures var first, rest := PackData(item, items[i]), PackItems(item, items[i + 1..]);
            PackItems(item, items[i..]) == if first.Some? && rest.Some? then Some([first.value] + rest.value)
                else None
  {
    hide PackData;
    assert items[i..][0] == items[i] && items[i..][1..] == items[i + 1..];
  }

  method PackAll(item: FieldType, items: seq<Data>) returns (r: Option<seq<Wired>>)
    ensures r == PackItems(item, items)
    decreases item, 1, |items|
  {
    hide PackData, PackItems;
    var list: seq<Wired> := [];
    ghost var all := PackItems(item, items);
    assert items[0..] == items;
    RemainsFirst(all);
    for i := 0 to |items|
      invariant Remains(all, list, PackItems(item, items[i..]))
    {
      PackItemsFrom(item, items, i);
      var one := Pack(item, items[i]);
      if one.None? {
        return None;
      }
      RemainsNext(all, list, [one.value], PackItems(item, items[i + 1..]));
      list := list + [one.value];
    }
    assert items[|items|..] == [] && PackItems(item, []) == Some([]) by { PackNone(item); }
    RemainsLast(all, list);
    return Some(list);
  }

  lemma PackNone(item: FieldType)
    ensures PackItems(item, []) == Some([]) && PackProps(item, []) == Some([])
  {
  }

  lemma PackPropsFrom(item: FieldType, props: seq<Prop>, i: nat)
    requires i < |props|
    ensures var first, rest := PackData(item, props[i].value), PackProps(item, props[i + 1..]);
            PackProps(item, props[i..]) ==
            if first.Some? && rest.Some? then Some([MessagePack.Entry(props[i].key, first.value)] + rest.value)
                else None
  {
    hide PackData;
    assert props[i..][0] == props[i] && props[i..][1..] == props[i + 1..];
  }

  method PackEntries(item: FieldType, props: seq<Prop>) returns (r: Option<seq<MessagePack.Entry>>)
    ensures r == PackProps(item, props)
    decreases item, 1, |props|
  {
    hide PackData, PackProps;
    var list: seq<MessagePack.Entry> := [];
    ghost var all := PackProps(item, props);
    assert props[0..] == props;
    RemainsFirst(all);
    for i := 0 to |props|
      invariant Remains(all, list, PackProps(item, props[i..]))
    {
      PackPropsFrom(item, props, i);
      var one := Pack(item, props[i].value);
      if one.None? {
        return None;
      }
      var entry := MessagePack.Entry(props[i].key, one.value);
      RemainsNext(all, list, [entry], PackProps(item, props[i + 1..]));
      list := list + [entry];
    }
    assert props[|props|..] == [] && PackProps(item, []) == Some([]) by { PackNone(item); }
    RemainsLast(all, list);
    return Some(list);
  }

  lemma PackFieldsFrom(fields: seq<Field>, props: seq<Prop>, i: nat)
    requires i < |fields|
    ensures var first, rest := PackField(fields[i], Lookup(props, fields[i].name)),
            PackFields(fields[i + 1..], props);
            PackFields(fields[i..], props) == if first.Some? && rest.Some? then Some([first.value] + rest.value)
                else None
  {
    hide PackField;
    assert fields[i..][0] == fields[i] && fields[i..][1..] == fields[i + 1..];
  }

  method PackRecord(def: MessageDef, d: Data) returns (w: Option<Wired>)
    ensures w == PackMessage(def, d)
    decreases def, 0, 0
  {
    hide PackField, PackFields, Trimmed;
    if !d.Obj? {
      return None;
    }
    var fields, packed: seq<Wired> := def.fields, [];
    ghost var all := PackFields(fields, d.props);
    assert fields[0..] == fields;
    RemainsFirst(all);
    for i := 0 to |fields|
      invariant |packed| == i && Remains(all, packed, PackFields(fields[i..], d.props))
    {
      PackFieldsFrom(fields, d.props, i);
      var one := PackOne(fields[i], Lookup(d.props, fields[i].name));
      if one.None? {
        return None;
      }
      RemainsNext(all, packed, [one.value], PackFields(fields[i + 1..], d.props));
      packed := packed + [one.value];
    }
    assert fields[|fields|..] == [] && PackFields([], d.props) == Some([]) by { PackNoFields(d.props); }
    RemainsLast(all, packed);
    var length := TrimmedLength(fields, packed);
    return Some(MessagePack.List(packed[..length]));
  }

  lemma PackNoFields(props: seq<Prop>)
    ensures PackFields([], props) == Some([])
  {
  }

  method PackOne(f: Field, d: Data) returns (w: Option<Wired>)
    ensures w == PackField(f, d)
    decreases f, 0, 0
  {
    w := Pack(f.of, d);
  }

  /** How much is left once trailing absent optionals are gone. */
  method TrimmedLength(fields: seq<Field>, packed: seq<Wired>) returns (length: nat)
    requires |packed| == |fields|
    ensures length <= |packed| && packed[..length] == Trimmed(fields, packed)
  {
    length := |packed|;
    assert packed[..length] == packed;
    while length > 0 && packed[length - 1].Nil? && fields[length - 1].of.OptionalOf?
      invariant length <= |packed| && Trimmed(fields, packed[..length]) == Trimmed(fields, packed)
    {
      assert packed[..length][..length - 1] == packed[..length - 1];
      length := length - 1;
    }
  }

  // --------------------------------------------------------------- unpacking

  method Unpack(fl: Floats, of: FieldType, w: Wired) returns (d: Option<Data>)
    ensures d == UnpackData(fl, of, w)
    decreases of, 0, 0
  {
    hide UnpackScalar, UnpackItems, UnpackEntries, UnpackMessage, AsInt;
    match of {
      case Plain(scalar) =>
        var v := UnpackScalar(fl, scalar, w);
        return if v.Some? then Some(Leaf(v.value)) else None;
      case Choice(values) =>
        var index := AsInt(w);
        return if index.Some? && 0 <= index.value < |values| then Some(Leaf(values[index.value])) else None;
      case ArrayOf(item) =>
        if !w.List? {
          return None;
        }
        var items := UnpackAll(fl, item, w.items);
        return if items.Some? then Some(Items(items.value)) else None;
      case MapOf(item) =>
        if !w.Dict? {
          return None;
        }
        var props := UnpackMap(fl, item, w.entries);
        return if props.Some? then Some(Obj(props.value)) else None;
      case OptionalOf(item) =>
        if w.Nil? {
          return Some(Nothing);
        }
        d := Unpack(fl, item, w);
      case NestedOf(message) =>
        d := UnpackRecord(fl, message, w);
    }
  }

  lemma UnpackItemsFrom(fl: Floats, item: FieldType, items: seq<Wired>, i: nat)
    requires i < |items|
    ensures var first, rest := UnpackData(fl, item, items[i]), UnpackItems(fl, item, items[i + 1..]);
            UnpackItems(fl, item, items[i..]) == if first.Some? && rest.Some? then Some([first.value] + rest.value)
                else None
  {
    hide UnpackData;
    assert items[i..][0] == items[i] && items[i..][1..] == items[i + 1..];
  }

  lemma UnpackNone(fl: Floats, item: FieldType)
    ensures UnpackItems(fl, item, []) == Some([]) && UnpackEntries(fl, item, []) == Some([])
  {
  }

  method UnpackAll(fl: Floats, item: FieldType, items: seq<Wired>) returns (r: Option<seq<Data>>)
    ensures r == UnpackItems(fl, item, items)
    decreases item, 1, |items|
  {
    hide UnpackData, UnpackItems;
    var list: seq<Data> := [];
    ghost var all := UnpackItems(fl, item, items);
    assert items[0..] == items;
    RemainsFirst(all);
    for i := 0 to |items|
      invariant Remains(all, list, UnpackItems(fl, item, items[i..]))
    {
      UnpackItemsFrom(fl, item, items, i);
      var one := Unpack(fl, item, items[i]);
      if one.None? {
        return None;
      }
      RemainsNext(all, list, [one.value], UnpackItems(fl, item, items[i + 1..]));
      list := list + [one.value];
    }
    assert items[|items|..] == [] && UnpackItems(fl, item, []) == Some([]) by { UnpackNone(fl, item); }
    RemainsLast(all, list);
    return Some(list);
  }

  lemma UnpackEntriesFrom(fl: Floats, item: FieldType, entries: seq<MessagePack.Entry>, i: nat)
    requires i < |entries|
    ensures var first, rest := UnpackData(fl, item, entries[i].value), UnpackEntries(fl, item, entries[i + 1..]);
            UnpackEntries(fl, item, entries[i..]) ==
            if first.Some? && rest.Some? then Some([Prop(entries[i].key, first.value)] + rest.value) else None
  {
    hide UnpackData;
    assert entries[i..][0] == entries[i] && entries[i..][1..] == entries[i + 1..];
  }

  method UnpackMap(fl: Floats, item: FieldType, entries: seq<MessagePack.Entry>) returns (r: Option<seq<Prop>>)
    ensures r == UnpackEntries(fl, item, entries)
    decreases item, 1, |entries|
  {
    hide UnpackData, UnpackEntries;
    var list: seq<Prop> := [];
    ghost var all := UnpackEntries(fl, item, entries);
    assert entries[0..] == entries;
    RemainsFirst(all);
    for i := 0 to |entries|
      invariant Remains(all, list, UnpackEntries(fl, item, entries[i..]))
    {
      UnpackEntriesFrom(fl, item, entries, i);
      var one := Unpack(fl, item, entries[i].value);
      if one.None? {
        return None;
      }
      var prop := Prop(entries[i].key, one.value);
      RemainsNext(all, list, [prop], UnpackEntries(fl, item, entries[i + 1..]));
      list := list + [prop];
    }
    assert entries[|entries|..] == [] && UnpackEntries(fl, item, []) == Some([]) by { UnpackNone(fl, item); }
    RemainsLast(all, list);
    return Some(list);
  }

  /** What is left of the array from `i` on, which may end before the fields do. */
  function From(items: seq<Wired>, i: nat): seq<Wired> { if i <= |items| then items[i..] else [] }

  lemma UnpackFieldsFrom(fl: Floats, fields: seq<Field>, items: seq<Wired>, i: nat)
    requires i < |fields|
    ensures var f := fields[i];
            var first, rest := UnpackField(fl, f, if i < |items| then items[i] else MessagePack.Nil),
                UnpackFields(fl, fields[i + 1..], From(items, i + 1));
            UnpackFields(fl, fields[i..], From(items, i)) ==
            if first.Some? && rest.Some?
            then Some((if f.of.OptionalOf? && first.value.Nothing? then []
                       else [Prop(f.name, first.value)]) + rest.value) else None
  {
    hide UnpackField;
    assert fields[i..][0] == fields[i] && fields[i..][1..] == fields[i + 1..];
    assert i < |items| ==> From(items, i)[0] == items[i] && From(items, i)[1..] == From(items, i + 1);
  }

  method UnpackRecord(fl: Floats, def: MessageDef, w: Wired) returns (d: Option<Data>)
    ensures d == UnpackMessage(fl, def, w)
    decreases def, 0, 0
  {
    hide UnpackField, UnpackFields;
    if !w.List? || |w.items| > |def.fields| {
      return None;
    }
    var fields, props: seq<Prop> := def.fields, [];
    ghost var all := UnpackFields(fl, fields, w.items);
    assert fields[0..] == fields && From(w.items, 0) == w.items;
    RemainsFirst(all);
    for i := 0 to |fields|
      invariant Remains(all, props, UnpackFields(fl, fields[i..], From(w.items, i)))
    {
      UnpackFieldsFrom(fl, fields, w.items, i);
      var f := fields[i];
      var one := UnpackOne(fl, f, if i < |w.items| then w.items[i] else MessagePack.Nil);
      if one.None? {
        return None;
      }
      var own := if f.of.OptionalOf? && one.value.Nothing? then [] else [Prop(f.name, one.value)];
      RemainsNext(all, props, own, UnpackFields(fl, fields[i + 1..], From(w.items, i + 1)));
      props := props + own;
    }
    assert fields[|fields|..] == [];
    UnpackNoFields(fl, From(w.items, |fields|));
    RemainsLast(all, props);
    return Some(Obj(props));
  }

  lemma UnpackNoFields(fl: Floats, items: seq<Wired>)
    ensures UnpackFields(fl, [], items) == Some([])
  {
  }

  method UnpackOne(fl: Floats, f: Field, w: Wired) returns (d: Option<Data>)
    ensures d == UnpackField(fl, f, w)
    decreases f, 0, 0
  {
    d := Unpack(fl, f.of, w);
  }
}
