/**
 Contract messages byte by byte: which payloads are accepted, where each flag
 is, and in which order the rest comes.
 */
module MessageFormat {
  import opened Wrappers
  import opened Wire
  import opened StateTypes
  import opened OpCodec
  import opened Contract
  import opened Messages
  import Utf8
  import OpFormat
  import MessagePackFormat

  // -------------------------------------------------------------------- acceptance

  /** The values a type accepts; in a message, a missing optional is nothing. */
  predicate Matches(of: FieldType, d: Data)
    decreases of, 0, 0
  {
    match of
    case Plain(scalar) => d.Leaf? && OpFormat.IsOf(scalar, d.v)
    case Choice(values) => d.Leaf? && d.v in values[..if |values| <= 0x1_0000_0000 then |values| else 0x1_0000_0000]
    case ArrayOf(item) =>
      d.Items? && |d.items| <= 0x7FFF_FFFF && forall i :: 0 <= i < |d.items| ==> Matches(item, d.items[i])
    case MapOf(item) =>
      d.Obj? && |d.props| <= 0x7FFF_FFFF
      && forall i :: 0 <= i < |d.props| ==> IsText(d.props[i].key) && Matches(item, d.props[i].value)
    case OptionalOf(item) => d.Nothing? || Matches(item, d)
    case NestedOf(message) => MatchesMessage(message, d)
  }

  /** A text whose bytes fit an array. */
  predicate IsText(s: string) { |Utf8.Encode(Utf8.WireText(s))| <= 0x7FFF_FFFF }

  predicate MatchesMessage(def: MessageDef, d: Data)
    decreases def, 0, 0
  {
    d.Obj? && MatchesFields(def.fields, d.props)
  }

  predicate MatchesFields(fields: seq<Field>, props: seq<Prop>)
    decreases fields, 0, 0
  {
    fields == [] || (MatchesField(fields[0], Lookup(props, fields[0].name)) && MatchesFields(fields[1..], props))
  }

  predicate MatchesField(f: Field, d: Data)
    decreases f, 0, 0
  {
    Matches(f.of, d)
  }

  lemma {:induction false} ChoiceIs(values: seq<Val>, v: Val)
    ensures var i := ChoiceIndex(values, v);
            && (i.None? <==> v !in values)
            && (i.Some? ==> values[i.value] == v && forall j :: 0 <= j < i.value ==> values[j] != v)
  {
    if values != [] && values[0] != v {
      ChoiceIs(values[1..], v);
    }
  }

  lemma ChoiceAccepted(values: seq<Val>, v: Val)
    ensures var most := if |values| <= 0x1_0000_0000 then |values| else 0x1_0000_0000;
            v in values[..most] <==> ChoiceIndex(values, v).Some? && ChoiceIndex(values, v).value <= 0xFFFF_FFFF
  {
    ChoiceIs(values, v);
    var most := if |values| <= 0x1_0000_0000 then |values| else 0x1_0000_0000;
    var i := ChoiceIndex(values, v);
    if i.Some? && i.value <= 0xFFFF_FFFF {
      assert values[..most][i.value] == v;
    }
  }

  /** Exactly the matching payloads are encoded. */
  lemma {:induction false} DataAccepted(of: FieldType, d: Data)
    ensures WriteData(of, d).Some? <==> Matches(of, d)
    decreases of, 0, 0
  {
    hide WriteItems, WriteProps, WriteMessage, MatchesMessage, Varint, WriteScalar, OpFormat.IsOf;
    match of {
      case Plain(scalar) =>
        if d.Leaf? {
          OpFormat.ScalarIs(scalar, d.v);
        }
      case Choice(values) =>
        if d.Leaf? {
          ChoiceAccepted(values, d.v);
        }
      case ArrayOf(item) =>
        if d.Items? {
          ItemsAccepted(item, d.items);
        }
      case MapOf(item) =>
        if d.Obj? {
          PropsAccepted(item, d.props);
        }
      case OptionalOf(item) =>
        if !d.Nothing? {
          DataAccepted(item, d);
        }
      case NestedOf(message) => MessageAccepted(message, d);
    }
  }

  lemma {:induction false} ItemsAccepted(item: FieldType, items: seq<Data>)
    ensures Messages.WriteItems(item, items).Some? <==> forall i :: 0 <= i < |items| ==> Matches(item, items[i])
    decreases item, 1, |items|
  {
    hide WriteData, Matches;
    if items != [] {
      DataAccepted(item, items[0]);
      ItemsAccepted(item, items[1..]);
      assert forall i :: 1 <= i < |items| ==> items[i] == items[1..][i - 1];
    }
  }

  lemma {:induction false} PropsAccepted(item: FieldType, props: seq<Prop>)
    ensures WriteProps(item, props).Some? <==>
            forall i :: 0 <= i < |props| ==> IsText(props[i].key) && Matches(item, props[i].value)
    decreases item, 1, |props|
  {
    hide WriteData, Matches, Varint, Utf8.Encode, Utf8.WireText;
    if props != [] {
      DataAccepted(item, props[0].value);
      PropsAccepted(item, props[1..]);
      assert forall i :: 1 <= i < |props| ==> props[i] == props[1..][i - 1];
    }
  }

  lemma {:induction false} MessageAccepted(def: MessageDef, d: Data)
    ensures WriteMessage(def, d).Some? <==> MatchesMessage(def, d)
    decreases def, 0, 0
  {
    hide WriteFields, MatchesFields;
    if d.Obj? {
      FieldsAccepted(def.fields, d.props);
    }
  }

  lemma {:induction false} FieldsAccepted(fields: seq<Field>, props: seq<Prop>)
    ensures WriteFields(fields, props).Some? <==> MatchesFields(fields, props)
    decreases fields, 0, 0
  {
    hide WriteField, MatchesField;
    if fields != [] {
      FieldAccepted(fields[0], Lookup(props, fields[0].name));
      FieldsAccepted(fields[1..], props);
    }
  }

  lemma {:induction false} FieldAccepted(f: Field, d: Data)
    ensures WriteField(f, d).Some? <==> MatchesField(f, d)
    decreases f, 0, 0
  {
    hide WriteData;
    if f.of.OptionalOf? {
      if !d.Nothing? && f.of.item != TheBool {
        OptionalAccepted(f.of, d);
      }
    } else if f.of != TheBool {
      DataAccepted(f.of, d);
    }
  }

  lemma {:induction false} OptionalAccepted(of: FieldType, d: Data)
    requires of.OptionalOf? && !d.Nothing?
    ensures WriteOptional(of, d).Some? <==> Matches(of, d)
    decreases of, 0, 0
  {
    hide WriteData;
    DataAccepted(of.item, d);
  }

  // ------------------------------------------------------------------------- flags

  /** A bit of a byte, the lowest first. */
  function BitIn(b: nat, k: nat): bool
    decreases k
  {
    if k == 0 then b % 2 == 1 else BitIn(b / 2, k - 1)
  }

  lemma {:induction false} ByteIs(bits: seq<bool>, k: nat)
    requires k < 8
    ensures BitIn(ByteOf(bits), k) == (k < |bits| && bits[k])
    decreases k
  {
    if bits == [] {
      NoBit(k);
    } else {
      assert ByteOf(bits) % 2 == (if bits[0] then 1 else 0) && ByteOf(bits) / 2 == ByteOf(bits[1..]);
      hide ByteOf;
      if k > 0 {
        ByteIs(bits[1..], k - 1);
      }
    }
  }

  lemma {:induction false} NoBit(k: nat)
    ensures !BitIn(0, k)
  {
    if k > 0 {
      NoBit(k - 1);
    }
  }

  /** Flag `i` is bit `i % 8` of byte `i / 8`; the bits past the last flag are clear. */
  lemma {:induction false} FlagsAre(bits: seq<bool>, i: nat)
    requires i < 8 * |PackBits(bits)|
    ensures 8 * |PackBits(bits)| < |bits| + 8
    ensures BitIn(PackBits(bits)[i / 8], i % 8) == (i < |bits| && bits[i])
    decreases |bits|
  {
    hide ByteOf;
    if bits != [] && |bits| <= 8 {
      ByteIs(bits, i % 8);
    } else if bits != [] {
      if i < 8 {
        ByteIs(bits[..8], i);
      } else {
        FlagsAre(bits[8..], i - 8);
        assert (i - 8) / 8 == i / 8 - 1 && (i - 8) % 8 == i % 8;
      }
    }
  }

  /** How many flags the first `n` fields take: one for a bool or an optional, two for an optional bool. */
  function FlagsBefore(fields: seq<Field>, n: nat): nat
    requires n <= |fields|
  {
    if n == 0 then 0
    else
      var of := fields[n - 1].of;
      FlagsBefore(fields, n - 1)
      + (if of == OptionalOf(Plain(Bool)) then 2 else if of == Plain(Bool) || of.OptionalOf? then 1 else 0)
  }

  lemma {:induction false} BeforeTail(fields: seq<Field>, n: nat)
    requires 0 < n <= |fields|
    ensures FlagsBefore(fields, n) == BitCount(fields[0].of) + FlagsBefore(fields[1..], n - 1)
    decreases n
  {
    if n > 1 {
      BeforeTail(fields, n - 1);
    } else {
      assert FlagsBefore(fields, 0) == 0;
    }
  }

  /** A field's flags: a bool's value; whether an optional is there, and then, for a bool, its value. */
  lemma {:induction false} FieldFlagsAre(fields: seq<Field>, props: seq<Prop>, j: nat)
    requires j < |fields|
    ensures |MessageFlags(fields, props)| == FlagsBefore(fields, |fields|)
    ensures var flags, at := MessageFlags(fields, props), FlagsBefore(fields, j);
            var of, d := fields[j].of, Lookup(props, fields[j].name);
            && (of == Plain(Bool) ==> at < |flags| && flags[at] == (d == Leaf(Flag(true))))
            && (of.OptionalOf? ==> at < |flags| && flags[at] == !d.Nothing?)
            && (of == OptionalOf(Plain(Bool)) ==> at + 1 < |flags| && flags[at + 1] == (d == Leaf(Flag(true))))
    decreases |fields|
  {
    var first := FieldFlags(fields[0].of, Lookup(props, fields[0].name));
    BeforeTail(fields, |fields|);
    if j > 0 {
      BeforeTail(fields, j);
      FieldFlagsAre(fields[1..], props, j - 1);
    } else if |fields| > 1 {
      FieldFlagsAre(fields[1..], props, 0);
    }
  }

  // -------------------------------------------------------------------- the bytes

  /** A value: its scalar; its index; how many and then each; whether and then what; or a message of its own. */
  lemma DataIs(of: FieldType, d: Data)
    requires WriteData(of, d).Some?
    ensures var b := WriteData(of, d).value;
            match of
            case Plain(scalar) => d.Leaf? && WriteScalar(scalar, d.v) == Some(b)
            case Choice(values) =>
              && d.Leaf?
              && exists i: nat :: i < |values| && values[i] == d.v && (forall j :: 0 <= j < i ==> values[j] != d.v)
                                  && b == Varint(i)
            case ArrayOf(item) =>
              d.Items? && Messages.WriteItems(item, d.items).Some?
              && b == Varint(|d.items|) + Messages.WriteItems(item, d.items).value
            case MapOf(item) =>
              d.Obj? && WriteProps(item, d.props).Some? && b == Varint(|d.props|) + WriteProps(item, d.props).value
            case OptionalOf(item) =>
              if d.Nothing? then b == [0] else WriteData(item, d).Some? && b == [1] + WriteData(item, d).value
            case NestedOf(message) => WriteMessage(message, d) == Some(b)
  {
    hide Messages.WriteItems, WriteProps, WriteMessage, Varint, WriteScalar;
    if of.Choice? {
      ChoiceIs(of.values, d.v);
    }
  }

  /** Elements in order: one more is written after the others. */
  lemma {:induction false} ItemsAre(item: FieldType, items: seq<Data>, last: Data)
    ensures Messages.WriteItems(item, []) == Some([])
    ensures Messages.WriteItems(item, items + [last]) ==
            MessagePackFormat.Joined(Messages.WriteItems(item, items), WriteData(item, last))
    decreases |items|
  {
    hide WriteData;
    MessagePackFormat.JoinedThrice(WriteData(item, last), None, None);
    if items == [] {
      assert [] + [last] == [last] && [last][1..] == [];
    } else {
      ItemsAre(item, items[1..], last);
      assert (items + [last])[0] == items[0] && (items + [last])[1..] == items[1..] + [last];
      MessagePackFormat.JoinedThrice(WriteData(item, items[0]), Messages.WriteItems(item, items[1..]),
                                     WriteData(item, last));
    }
  }

  /** Entries in order, each its key and then its value. */
  lemma {:induction false} PropsAre(item: FieldType, props: seq<Prop>, last: Prop)
    ensures WriteProps(item, []) == Some([])
    ensures WriteProps(item, props + [last]) ==
            MessagePackFormat.Joined(WriteProps(item, props),
                                     MessagePackFormat.Joined(WriteString(last.key), WriteData(item, last.value)))
    decreases |props|
  {
    hide WriteData, WriteString;
    var one := MessagePackFormat.Joined(WriteString(last.key), WriteData(item, last.value));
    MessagePackFormat.JoinedThrice(one, None, None);
    if props == [] {
      assert [] + [last] == [last] && [last][1..] == [];
    } else {
      PropsAre(item, props[1..], last);
      assert (props + [last])[0] == props[0] && (props + [last])[1..] == props[1..] + [last];
      var first := MessagePackFormat.Joined(WriteString(props[0].key), WriteData(item, props[0].value));
      MessagePackFormat.JoinedThrice(first, WriteProps(item, props[1..]), one);
    }
  }

  /** A message: its flags, in whole bytes, and then the bytes of its fields. */
  lemma MessageIs(def: MessageDef, d: Data)
    requires WriteMessage(def, d).Some?
    ensures d.Obj? && WriteFields(def.fields, d.props).Some?
    ensures var flags := PackBits(MessageFlags(def.fields, d.props));
            WriteMessage(def, d).value == flags + WriteFields(def.fields, d.props).value
  {
    hide WriteFields, PackBits, MessageFlags;
  }

  /** Fields in the order of their declaration. */
  lemma {:induction false} FieldsAre(fields: seq<Field>, last: Field, props: seq<Prop>)
    ensures WriteFields([], props) == Some([])
    ensures WriteFields(fields + [last], props) ==
            MessagePackFormat.Joined(WriteFields(fields, props), WriteField(last, Lookup(props, last.name)))
    decreases |fields|
  {
    hide WriteField;
    var one := WriteField(last, Lookup(props, last.name));
    MessagePackFormat.JoinedThrice(one, None, None);
    if fields == [] {
      assert [] + [last] == [last] && [last][1..] == [];
    } else {
      FieldsAre(fields[1..], last, props);
      assert (fields + [last])[0] == fields[0] && (fields + [last])[1..] == fields[1..] + [last];
      MessagePackFormat.JoinedThrice(WriteField(fields[0], Lookup(props, fields[0].name)),
                                     WriteFields(fields[1..], props), one);
    }
  }

  /**
   A bool, and an optional that is absent or a bool, is in the flags alone;
   another optional has no presence byte here.
   */
  lemma FieldIs(f: Field, d: Data)
    requires WriteField(f, d).Some?
    ensures var b := WriteField(f, d).value;
            if f.of.OptionalOf? then
              (if d.Nothing? || f.of.item == Plain(Bool) then b == [] else WriteData(f.of.item, d) == Some(b))
            else if f.of == Plain(Bool) then b == []
            else WriteData(f.of, d) == Some(b)
  {
    hide WriteData;
  }

  // ----------------------------------------------------------------------- reading

  /** What no encoder writes is refused. */
  lemma ReadRefuses(of: FieldType, s: seq<byte>)
    ensures of.Choice? && ReadVarint(s).Some? && ReadVarint(s).value.0 >= |of.values| ==> ReadData(of, s) == None
    ensures var count := ReadVarint(s);
            (of.ArrayOf? || of.MapOf?) && count.Some? && count.value.0 > |count.value.1| ==> ReadData(of, s) == None
    ensures of.OptionalOf? && (s == [] || s[0] > 1) ==> ReadData(of, s) == None
  {
    hide ReadVarint, Messages.ReadItems, ReadProps, ReadMessage;
  }

  /** A message whose padding is not clear is refused, and one that is too short for its flags. */
  lemma FlagsRefused(def: MessageDef, s: seq<byte>)
    ensures var n := FlagsBefore(def.fields, |def.fields|);
            && (8 * |s| < n ==> ReadMessage(def, s) == None)
            && forall i: nat :: n <= i < 8 * ((n + 7) / 8) && i / 8 < |s| && BitIn(s[i / 8], i % 8) ==>
                 ReadMessage(def, s) == None
  {
    FlagCountIs(def.fields);
    hide ReadFields;
    var n := FlagsBefore(def.fields, |def.fields|);
    forall i: nat | n <= i < 8 * ((n + 7) / 8) && i / 8 < |s| && BitIn(s[i / 8], i % 8)
      ensures ReadMessage(def, s) == None
    {
      if |s| >= (n + 7) / 8 {
        UnpackedIs(s[..(n + 7) / 8], i);
      }
    }
  }

  lemma {:induction false} FlagCountIs(fields: seq<Field>)
    ensures FlagCount(fields) == FlagsBefore(fields, |fields|)
    decreases |fields|
  {
    if fields != [] {
      FlagCountIs(fields[1..]);
      BeforeTail(fields, |fields|);
    }
  }

  lemma {:induction false} UnpackedIs(s: seq<byte>, i: nat)
    requires i < 8 * |s|
    ensures UnpackBits(s)[i] == BitIn(s[i / 8], i % 8)
    decreases |s|
  {
    hide BitsOf;
    if i < 8 {
      BitsAre(s[0], 8, i);
    } else {
      UnpackedIs(s[1..], i - 8);
      assert (i - 8) / 8 == i / 8 - 1 && (i - 8) % 8 == i % 8;
    }
  }

  lemma {:induction false} BitsAre(b: nat, n: nat, k: nat)
    requires k < n
    ensures BitsOf(b, n)[k] == BitIn(b, k)
    decreases k
  {
    if k > 0 {
      BitsAre(b / 2, n - 1, k - 1);
    }
  }

  // ---------------------------------------------------------------- what is decoded

  /** A key's value is the first under it, or nothing. */
  lemma {:induction false} LookupIs(props: seq<Prop>, key: string)
    ensures if exists i :: 0 <= i < |props| && props[i].key == key then
              exists i :: 0 <= i < |props| && props[i].key == key && Lookup(props, key) == props[i].value
                && forall j :: 0 <= j < i ==> props[j].key != key
            else Lookup(props, key) == Nothing
    decreases |props|
  {
    if props != [] {
      if props[0].key == key {
        assert Lookup(props, key) == props[0].value;
      } else {
        var rest := props[1..];
        LookupIs(rest, key);
        if i :| 0 <= i < |props| && props[i].key == key {
          assert rest[i - 1].key == key;
          var k :| 0 <= k < |rest| && rest[k].key == key && Lookup(rest, key) == rest[k].value
            && forall j :: 0 <= j < k ==> rest[j].key != key;
          assert props[k + 1].key == key;
          forall j | 0 <= j < k + 1
            ensures props[j].key != key
          {
            assert j > 0 ==> props[j] == rest[j - 1];
          }
        }
      }
    }
  }

  /** A decoded message has its fields in the order of their declaration, without absent optionals and anything else. */
  lemma {:induction false} NormalFieldsAre(fields: seq<Field>, last: Field, props: seq<Prop>)
    ensures NormalFields([], props) == []
    ensures var d := Lookup(props, last.name);
            NormalFields(fields + [last], props) ==
            NormalFields(fields, props)
            + if last.of.OptionalOf? && d.Nothing? then [] else [Prop(last.name, NormalData(last.of, d))]
    decreases |fields|
  {
    hide NormalData, Lookup;
    if fields == [] {
      assert [] + [last] == [last] && [last][1..] == [];
      assert NormalFields([last], props) == NormalField(last, Lookup(props, last.name)) + NormalFields([], props);
    } else {
      NormalFieldsAre(fields[1..], last, props);
      assert (fields + [last])[0] == fields[0] && (fields + [last])[1..] == fields[1..] + [last];
    }
  }

  /** A decoded array has its elements, and a decoded map its entries, in order. */
  lemma {:induction false} NormalElementsAre(item: FieldType, items: seq<Data>, props: seq<Prop>, i: nat)
    ensures i < |items| ==> NormalItems(item, items)[i] == NormalData(item, items[i])
    ensures i < |props| ==> NormalProps(item, props)[i] == Prop(props[i].key, NormalData(item, props[i].value))
    decreases i
  {
    hide NormalData;
    if i > 0 {
      NormalElementsAre(item, if items == [] then [] else items[1..], if props == [] then [] else props[1..], i - 1);
    }
  }

  /** Scalars and choices are decoded as they are; arrays, maps, optionals and messages through their parts. */
  lemma NormalDataIs(of: FieldType, d: Data)
    ensures of.Plain? || of.Choice? || d.Nothing? ==> NormalData(of, d) == d
    ensures of.ArrayOf? && d.Items? ==> NormalData(of, d) == Items(NormalItems(of.item, d.items))
    ensures of.MapOf? && d.Obj? ==> NormalData(of, d) == Obj(NormalProps(of.item, d.props))
    ensures of.OptionalOf? && !d.Nothing? ==> NormalData(of, d) == NormalData(of.item, d)
    ensures of.NestedOf? && d.Obj? ==> NormalData(of, d) == Obj(NormalFields(of.message.fields, d.props))
  {
    hide NormalItems, NormalProps, NormalFields;
  }
}
