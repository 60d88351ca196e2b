/** Contract messages under the `schema` codec: flag bytes, then the fields that take bytes of their own. */
module Messages {
  import opened Wrappers
  import opened Wire
  import opened StateTypes
  import opened OpCodec
  import opened OpCodecProofs
  import opened Contract
  import Utf8

  // ------------------------------------------------------------------- flags

  function ByteOf(bits: seq<bool>): (b: nat) {
    if bits == [] then 0 else (if bits[0] then 1 else 0) + 2 * ByteOf(bits[1..])
  }

  function BitsOf(b: nat, n: nat): (bits: seq<bool>)
    ensures |bits| == n
  {
    if n == 0 then [] else [b % 2 == 1] + BitsOf(b / 2, n - 1)
  }

  lemma {:induction false} ByteBound(bits: seq<bool>)
    requires |bits| <= 8
    ensures ByteOf(bits) < Power2(|bits|) <= 256
    decreases |bits|
  {
    if bits != [] {
      ByteBound(bits[1..]);
    }
    assert Power2(8) == 256 by { assert Power2(4) == 16; }
    PowerGrows(|bits|, 8);
  }

  function Power2(n: nat): nat { if n == 0 then 1 else 2 * Power2(n - 1) }

  lemma {:induction false} PowerGrows(a: nat, b: nat)
    requires a <= b
    ensures Power2(a) <= Power2(b)
    decreases b
  {
    if a < b {
      PowerGrows(a, b - 1);
    }
  }

  /** Bits into bytes, the first bit lowest. */
  function PackBits(bits: seq<bool>): (s: seq<byte>)
    ensures |s| == FlagBytes(|bits|)
    decreases |bits|
  {
    if bits == [] then []
    else if |bits| <= 8 then ByteBound(bits); [ByteOf(bits)]
    else
      ByteBound(bits[..8]);
      [ByteOf(bits[..8])] + PackBits(bits[8..])
  }

  function UnpackBits(s: seq<byte>): (bits: seq<bool>)
    ensures |bits| == 8 * |s|
  {
    if s == [] then [] else BitsOf(s[0], 8) + UnpackBits(s[1..])
  }

  function Zeros(n: nat): (bits: seq<bool>)
    ensures |bits| == n && forall i :: 0 <= i < n ==> !bits[i]
  {
    seq(n, i => false)
  }

  lemma {:induction false} BitsOfByte(bits: seq<bool>, n: nat)
    requires |bits| <= n
    ensures BitsOf(ByteOf(bits), n) == bits + Zeros(n - |bits|)
    decreases n
  {
    if n > 0 {
      if bits == [] {
        BitsOfByte([], n - 1);
        assert BitsOf(0, n) == [false] + BitsOf(0, n - 1);
        assert [] + Zeros(n) == [false] + ([] + Zeros(n - 1));
      } else {
        BitsOfByte(bits[1..], n - 1);
        var b := ByteOf(bits);
        assert b % 2 == (if bits[0] then 1 else 0) && b / 2 == ByteOf(bits[1..]);
        assert bits + Zeros(n - |bits|) == [bits[0]] + (bits[1..] + Zeros(n - |bits|));
      }
    }
  }

  /** Unpacking gives the bits back, and padding that is zero. */
  lemma {:induction false} UnpackOfPack(bits: seq<bool>)
    ensures UnpackBits(PackBits(bits)) == bits + Zeros(8 * FlagBytes(|bits|) - |bits|)
    decreases |bits|
  {
    hide ByteOf, BitsOf;
    if bits != [] && |bits| <= 8 {
      BitsOfByte(bits, 8);
      var s := PackBits(bits);
      assert s[1..] == [] && UnpackBits([]) == [];
    } else if bits != [] {
      BitsOfByte(bits[..8], 8);
      UnpackOfPack(bits[8..]);
      var s := PackBits(bits);
      assert s[1..] == PackBits(bits[8..]);
      assert bits == bits[..8] + bits[8..];
    }
  }

  function FieldFlags(of: FieldType, d: Data): (bits: seq<bool>)
    ensures |bits| == BitCount(of)
  {
    if of == TheBool then [d == Leaf(Flag(true))]
    else if of.OptionalOf? then
      if of.item == TheBool then [d != Nothing, d == Leaf(Flag(true))] else [d != Nothing]
    else []
  }

  function MessageFlags(fields: seq<Field>, props: seq<Prop>): (bits: seq<bool>) {
    if fields == [] then []
    else FieldFlags(fields[0].of, Lookup(props, fields[0].name)) + MessageFlags(fields[1..], props)
  }

  /** Flag bits of all fields. */
  function FlagCount(fields: seq<Field>): nat {
    if fields == [] then 0 else BitCount(fields[0].of) + FlagCount(fields[1..])
  }

  // ----------------------------------------------------------------- writing

  /** One value, not a bool or optional of a message. */
  function WriteData(of: FieldType, d: Data): Option<seq<byte>>
    decreases of, 0, 0
  {
    match of
    case Plain(scalar) => if d.Leaf? then WriteScalar(scalar, d.v) else None
    case Choice(values) =>
      if !d.Leaf? then None
      else
        var index :- ChoiceIndex(values, d.v);
        if index <= MAX_UINT32 then Some(Varint(index)) else None
    case ArrayOf(item) =>
      if !d.Items? || |d.items| > MAX_INT32 then None
      else
        var body :- WriteItems(item, d.items);
        Some(Varint(|d.items|) + body)
    case MapOf(item) =>
      if !d.Obj? || |d.props| > MAX_INT32 then None
      else
        var body :- WriteProps(item, d.props);
        Some(Varint(|d.props|) + body)
    case OptionalOf(item) =>
      if d.Nothing? then Some([0])
      else
        var body :- WriteData(item, d);
        Some([1] + body)
    case NestedOf(message) => WriteMessage(message, d)
  }

  function WriteItems(item: FieldType, items: seq<Data>): Option<seq<byte>>
    decreases item, 1, |items|
  {
    if items == [] then Some([])
    else
      var first :- WriteData(item, items[0]);
      var rest :- WriteItems(item, items[1..]);
      Some(first + rest)
  }

  function WriteProps(item: FieldType, props: seq<Prop>): Option<seq<byte>>
    decreases item, 1, |props|
  {
    if props == [] then Some([])
    else
      var key :- WriteString(props[0].key);
      var first :- WriteData(item, props[0].value);
      var rest :- WriteProps(item, props[1..]);
      Some(key + first + rest)
  }

  function WriteMessage(def: MessageDef, d: Data): Option<seq<byte>>
    decreases def, 0, 0
  {
    if !d.Obj? then None
    else
      var body :- WriteFields(def.fields, d.props);
      Some(PackBits(MessageFlags(def.fields, d.props)) + body)
  }

  function WriteFields(fields: seq<Field>, props: seq<Prop>): Option<seq<byte>>
    decreases fields, 0, 0
  {
    if fields == [] then Some([])
    else
      var first :- WriteField(fields[0], Lookup(props, fields[0].name));
      var rest :- WriteFields(fields[1..], props);
      Some(first + rest)
  }

  /** A field's own bytes: none for a bool, or for an optional that is absent or a bool. */
  function WriteField(f: Field, d: Data): Option<seq<byte>>
    decreases f, 0, 0
  {
    if f.of == TheBool then (if d.Leaf? && d.v.Flag? then Some([]) else None)
    else if f.of.OptionalOf? then
      if d.Nothing? then Some([])
      else if f.of.item == TheBool then (if d.Leaf? && d.v.Flag? then Some([]) else None)
      else WriteOptional(f.of, d)
    else WriteData(f.of, d)
  }

  function WriteOptional(of: FieldType, d: Data): Option<seq<byte>>
    requires of.OptionalOf?
    decreases of, 0, 0
  {
    WriteData(of.item, d)
  }

  // ----------------------------------------------------------------- reading

  /** A count; it is refused if it exceeds the bytes left. */
  function ReadCount(s: seq<byte>): (r: Option<(nat, seq<byte>)>)
    ensures r.Some? ==> r.value.0 <= |r.value.1| < |s|
  {
    var (n, rest) :- ReadVarint(s);
    if n <= |rest| then Some((n, rest)) else None
  }

  function ReadData(of: FieldType, s: seq<byte>): (r: Option<(Data, seq<byte>)>)
    decreases of, 0, 0
  {
    match of
    case Plain(scalar) => var (v, rest) :- ReadScalar(scalar, s); Some((Leaf(v), rest))
    case Choice(values) =>
      var (index, rest) :- ReadVarint(s);
      if index < |values| then Some((Leaf(values[index]), rest)) else None
    case ArrayOf(item) =>
      var (count, after) :- ReadCount(s);
      var (items, rest) :- ReadItems(item, count, after);
      Some((Items(items), rest))
    case MapOf(item) =>
      var (count, after) :- ReadCount(s);
      var (props, rest) :- ReadProps(item, count, after, {});
      Some((Obj(props), rest))
    case OptionalOf(item) =>
      if s == [] || s[0] > 1 then None
      else if s[0] == 0 then Some((Nothing, s[1..]))
      else ReadData(item, s[1..])
    case NestedOf(message) => ReadMessage(message, s)
  }

  function ReadItems(item: FieldType, count: nat, s: seq<byte>): (r: Option<(seq<Data>, seq<byte>)>)
    decreases item, 1, count
  {
    if count == 0 then Some(([], s))
    else
      var (first, after) :- ReadData(item, s);
      var (items, rest) :- ReadItems(item, count - 1, after);
      Some(([first] + items, rest))
  }

  /** Entries whose keys are not `__proto__` and not repeated; `seen` are the keys before. */
  function ReadProps(item: FieldType, count: nat, s: seq<byte>, seen: set<string>): (r: Option<(seq<Prop>, seq<byte>)>)
    decreases item, 1, count
  {
    if count == 0 then Some(([], s))
    else
      var (key, after) :- ReadString(s);
      if key == "__proto__" || key in seen then None
      else
        var (first, next) :- ReadData(item, after);
        var (props, rest) :- ReadProps(item, count - 1, next, seen + {key});
        Some(([Prop(key, first)] + props, rest))
  }

  /** No bit from `start` on is set. */
  predicate ClearFrom(bits: seq<bool>, start: nat) {
    forall i :: start <= i < |bits| ==> !bits[i]
  }

  function ReadMessage(def: MessageDef, s: seq<byte>): (r: Option<(Data, seq<byte>)>)
    decreases def, 0, 0
  {
    var (flags, after) :- Take(s, FlagBytes(FlagCount(def.fields)));
    var bits := UnpackBits(flags);
    // A padding bit that is set is refused.
    if !ClearFrom(bits, FlagCount(def.fields)) then None
    else
      var (props, rest) :- ReadFields(def.fields, bits, after);
      Some((Obj(props), rest))
  }

  /** Fields in order, each with its flag bits; absent optionals are left out. */
  function ReadFields(fields: seq<Field>, bits: seq<bool>, s: seq<byte>): (r: Option<(seq<Prop>, seq<byte>)>)
    decreases fields, 0, 0
  {
    if fields == [] then Some(([], s))
    else if |bits| < BitCount(fields[0].of) then None
    else
      var (d, after) :- ReadField(fields[0], bits, s);
      var (props, rest) :- ReadFields(fields[1..], bits[BitCount(fields[0].of)..], after);
      Some(((if fields[0].of.OptionalOf? && d.Nothing? then [] else [Prop(fields[0].name, d)]) + props, rest))
  }

  /** A field's value; nothing for an absent optional, whose value bit must not be set. */
  function ReadField(f: Field, bits: seq<bool>, s: seq<byte>): (r: Option<(Data, seq<byte>)>)
    requires BitCount(f.of) <= |bits|
    decreases f, 0, 0
  {
    if f.of == TheBool then Some((Leaf(Flag(bits[0])), s))
    else if f.of.OptionalOf? then
      if f.of.item == TheBool then
        if bits[0] then Some((Leaf(Flag(bits[1])), s)) else if bits[1] then None else Some((Nothing, s))
      else if bits[0] then ReadOptional(f.of, s)
      else Some((Nothing, s))
    else ReadData(f.of, s)
  }

  function ReadOptional(of: FieldType, s: seq<byte>): (r: Option<(Data, seq<byte>)>)
    requires of.OptionalOf?
    decreases of, 0, 0
  {
    ReadData(of.item, s)
  }

  // ------------------------------------------------------------ normal payloads

  /** The payload as decoding gives it back: fields in declaration order, extra keys and absent optionals left out. */
  function NormalData(of: FieldType, d: Data): Data
    decreases of, 0, 0
  {
    match of
    case ArrayOf(item) => if d.Items? then Items(NormalItems(item, d.items)) else d
    case MapOf(item) => if d.Obj? then Obj(NormalProps(item, d.props)) else d
    case OptionalOf(item) => if d.Nothing? then d else NormalData(item, d)
    case NestedOf(message) => NormalMessage(message, d)
    case _ => d
  }

  function NormalItems(item: FieldType, items: seq<Data>): (r: seq<Data>)
    ensures |r| == |items|
    decreases item, 1, |items|
  {
    if items == [] then [] else [NormalData(item, items[0])] + NormalItems(item, items[1..])
  }

  function NormalProps(item: FieldType, props: seq<Prop>): (r: seq<Prop>)
    ensures |r| == |props|
    decreases item, 1, |props|
  {
    if props == [] then [] else [Prop(props[0].key, NormalData(item, props[0].value))] + NormalProps(item, props[1..])
  }

  function NormalMessage(def: MessageDef, d: Data): Data
    decreases def, 0, 0
  {
    if d.Obj? then Obj(NormalFields(def.fields, d.props)) else d
  }

  function NormalFields(fields: seq<Field>, props: seq<Prop>): seq<Prop>
    decreases fields, 0, 0
  {
    if fields == [] then []
    else NormalField(fields[0], Lookup(props, fields[0].name)) + NormalFields(fields[1..], props)
  }

  function NormalField(f: Field, d: Data): seq<Prop>
    decreases f, 0, 0
  {
    if f.of.OptionalOf? && d.Nothing? then [] else [Prop(f.name, NormalOf(f.of, d))]
  }

  function NormalOf(of: FieldType, d: Data): Data
    decreases of, 1, 0
  {
    NormalData(of, d)
  }

  // --------------------------------------------------------------- hypotheses

  /** A type whose encoding may take no bytes: a message with no flags whose fields may all take none. */
  predicate MayBeEmpty(of: FieldType)
    decreases of
  {
    of.NestedOf? && AllMayBeEmpty(of.message)
  }

  predicate AllMayBeEmpty(def: MessageDef)
    decreases def
  {
    forall i :: 0 <= i < |def.fields| ==> FieldMayBeEmpty(def.fields[i])
  }

  predicate FieldMayBeEmpty(f: Field)
    decreases f
  {
    MayBeEmpty(f.of)
  }

  /** No array anywhere has elements that may take no bytes. */
  predicate Solid(of: FieldType)
    decreases of
  {
    match of
    case ArrayOf(item) => !MayBeEmpty(item) && Solid(item)
    case MapOf(item) => Solid(item)
    case OptionalOf(item) => Solid(item)
    case NestedOf(message) => SolidMessage(message)
    case _ => true
  }

  predicate SolidMessage(def: MessageDef)
    decreases def
  {
    forall i :: 0 <= i < |def.fields| ==> SolidField(def.fields[i])
  }

  predicate SolidField(f: Field)
    decreases f
  {
    Solid(f.of)
  }

  /** Nothing is replaced on the wire, and maps have distinct keys, none of them `__proto__`. */
  predicate Clean(of: FieldType, d: Data)
    decreases of, 0, 0
  {
    match of
    case Plain(_) => d.Leaf? ==> NormalVal(d.v)
    case Choice(_) => true
    case ArrayOf(item) => d.Items? ==> forall i :: 0 <= i < |d.items| ==> Clean(item, d.items[i])
    case MapOf(item) =>
      d.Obj? ==> DistinctKeys(d.props) && forall i :: 0 <= i < |d.props| ==>
          GoodKey(d.props[i].key) && Clean(item, d.props[i].value)
    case OptionalOf(item) => !d.Nothing? ==> Clean(item, d)
    case NestedOf(message) => CleanMessage(message, d)
  }

  predicate GoodKey(key: string) { key != "__proto__" && Utf8.NormalText(key) }

  predicate CleanMessage(def: MessageDef, d: Data)
    decreases def, 0, 0
  {
    d.Obj? ==> CleanFields(def.fields, d.props)
  }

  predicate CleanFields(fields: seq<Field>, props: seq<Prop>)
    decreases fields, 0, 0
  {
    fields == [] || (CleanField(fields[0], Lookup(props, fields[0].name)) && CleanFields(fields[1..], props))
  }

  predicate CleanField(f: Field, d: Data)
    decreases f, 0, 0
  {
    Clean(f.of, d)
  }
}
