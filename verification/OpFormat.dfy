/**
 The op stream byte by byte: what each kind of op looks like on the wire, when
 an op is accepted, what its bytes decode to, and what it does to the tables.
 Lockstep holds of any encoder and decoder that agree; this is the protocol's.
 */
module OpFormat {
  import opened Wrappers
  import opened Wire
  import opened StateTypes
  import opened Doubles
  import opened OpCodec
  import Utf8
  import WireFormat

  // -------------------------------------------------------------------- scalars

  /** The range of an integer kind, in its bits. */
  predicate InRange(kind: IntKind, n: int) {
    match kind
    case Int8 => -128 <= n <= 127
    case Int16 => -32768 <= n <= 32767
    case Int32 => -2147483648 <= n <= 2147483647
    case UInt8 => 0 <= n <= 255
    case UInt16 => 0 <= n <= 65535
    case UInt32 => 0 <= n <= 4294967295
  }

  /** Values of a scalar type. */
  predicate IsOf(of: Scalar, v: Val) {
    match of
    case Float64 => v.F64?
    case Float32 => v.F32?
    case Text => v.Str? && |Utf8.Encode(Utf8.WireText(v.s))| <= 0x7FFF_FFFF
    case Bool => v.Flag?
    case Fixed(_) => v.Num? && InRange(Int32, v.n)
    case Integer(kind) => v.Num? && InRange(kind, v.n)
  }

  /** The byte of the two's complement of `n`. */
  predicate IsByteOf(n: int, b: byte) { b == n || b == n + 256 }

  /** All exponent bits set, and some bit of the fraction. */
  predicate IsNaN64(b: bits64) { b / 0x10_0000_0000_0000 % 0x800 == 0x7FF && b % 0x10_0000_0000_0000 != 0 }

  predicate IsNaN32Bits(w: bits32) { w / 0x80_0000 % 0x100 == 0xFF && w % 0x80_0000 != 0 }

  /** A double's eight bytes, the lowest first; every NaN is the one. */
  predicate IsDouble(bits: bits64, b: seq<byte>) {
    var wire := if IsNaN64(bits) then 0x7FF8_0000_0000_0000 else bits;
    |b| == 8 && forall i: nat :: i < 8 ==> b[i] == WireFormat.ByteOf(wire, i)
  }

  predicate IsSingle(word: bits32, b: seq<byte>) {
    var wire := if IsNaN32Bits(word) then 0x7FC0_0000 else word;
    |b| == 4 && forall i: nat :: i < 4 ==> b[i] == WireFormat.ByteOf(wire, i)
  }

  lemma FloatsAre(bits: bits64, word: bits32)
    ensures IsDouble(bits, LittleEndian(WireDouble(bits), 8)) && IsSingle(word, LittleEndian(WireSingle(word), 4))
  {
    NaNsAre(bits, word);
    hide IsNaN, IsNaN32, IsNaN64, IsNaN32Bits, LittleEndian;
    forall i: nat | i < 8
      ensures LittleEndian(WireDouble(bits), 8)[i] == WireFormat.ByteOf(WireDouble(bits), i)
    {
      WireFormat.LittleEndianIs(WireDouble(bits), 8, i);
    }
    forall i: nat | i < 4
      ensures LittleEndian(WireSingle(word), 4)[i] == WireFormat.ByteOf(WireSingle(word), i)
    {
      WireFormat.LittleEndianIs(WireSingle(word), 4, i);
    }
  }

  lemma NaNsAre(bits: bits64, word: bits32)
    ensures (IsNaN(bits) <==> IsNaN64(bits)) && (IsNaN32(word) <==> IsNaN32Bits(word))
  {
  }

  /**
   Exactly the values of the type are written: floats as their bytes, the lowest
   first; texts as their UTF-8 after its length; booleans as a byte; 8-bit
   integers as a byte; wider ones as varints, signed ones zigzag.
   */
  lemma ScalarIs(of: Scalar, v: Val)
    ensures WriteScalar(of, v).Some? <==> IsOf(of, v)
    ensures IsOf(of, v) ==>
              var b := WriteScalar(of, v).value;
              match of
              case Float64 => IsDouble(v.bits, b)
              case Float32 => IsSingle(v.word, b)
              case Text => var utf8 := Utf8.Encode(Utf8.WireText(v.s)); b == Varint(|utf8|) + utf8
              case Bool => b == [if v.b then 1 else 0]
              case Fixed(_) => b == Varint(Zigzag(v.n))
              case Integer(kind) =>
                if kind.Int8? || kind.UInt8? then |b| == 1 && IsByteOf(v.n, b[0])
                else b == Varint(if kind.Int16? || kind.Int32? then Zigzag(v.n) else v.n)
  {
    hide Varint, Utf8.Encode, Utf8.WireText, Zigzag, IsDouble, IsSingle, LittleEndian;
    FloatsAre(if v.F64? then v.bits else 0, if v.F32? then v.word else 0);
  }

  // --------------------------------------------------------------------- payloads

  predicate IsUint(n: int) { 0 <= n <= 0xFFFF_FFFF }

  /** A ref, whose class is known and whose block ends within uint32. */
  predicate IsRef(t: Tables, v: Val) {
    && v.Ref? && IsUint(v.classId) && IsUint(v.refId) && v.classId < |t.layouts|
    && v.refId + |Collections(t.layouts[v.classId])| <= 0xFFFF_FFFF
  }

  predicate IsElement(t: Tables, of: StateType, v: Val) { if of.HoldsSchemas() then IsRef(t, v)
                                                          else IsOf(of.element, v) }

  /** The value of an instance field: a ref for a nested object, a scalar else; a collection has none. */
  predicate IsFieldValue(t: Tables, of: StateType, v: Val) {
    if of.kind.Schema? then IsRef(t, v) else !of.IsCollection() && IsOf(of.element, v)
  }

  predicate IsIndex(v: Val) { v.Num? && IsUint(v.n) }

  /** When an op is accepted, by what it targets. */
  predicate IsAccepted(t: Tables, op: Op)
    requires !op.Define?
  {
    && IsUint(op.target) && op.target in t.targets
    && match t.targets[op.target]
       case Instance(layout) =>
         op.Set? && IsIndex(op.key) && op.key.n < |layout| && IsFieldValue(t, layout[op.key.n], op.value)
       case Collection(of) =>
         match op
         case Set(_, key, v) => of.IsArray() && IsIndex(key) && IsElement(t, of, v)
         case Add(_, key, v) =>
           !of.IsSet() && (if of.IsMap() then IsOf(of.key, key) else IsIndex(key)) && IsElement(t, of, v)
         case AddToSet(_, v) => of.IsSet() && IsElement(t, of, v)
         case Remove(_, key) =>
           if of.IsMap() then IsOf(of.key, key)
           else if of.kind.Set? then IsOf(of.element, key)
           else IsIndex(key)
         case Clear(_) => true
  }

  lemma RefIs(t: Tables, v: Val)
    ensures EncodeRef(t, v).Some? <==> IsRef(t, v)
    ensures IsRef(t, v) ==>
              && EncodeRef(t, v).value.bytes == Varint(v.classId) + Varint(v.refId)
              && EncodeRef(t, v).value.carried == Some(v.refId)
              && EncodeRef(t, v).value.tables == Bind(t, v.refId, t.layouts[v.classId])
  {
    hide Varint, Bind, Collections;
  }

  /** A value's bytes, by whether its type holds instances. */
  function ValueBytes(refs: bool, of: Scalar, v: Val): seq<byte> {
    if refs then (if v.Ref? && v.classId >= 0 && v.refId >= 0 then Varint(v.classId) + Varint(v.refId) else [])
    else var b := WriteScalar(of, v); if b.Some? then b.value else []
  }

  /** The key's bytes: none in a set or for a clear, an index in an array or a field, a scalar in a map. */
  function KeyBytes(of: StateType, op: Op): seq<byte> {
    match op
    case Set(_, key, _) => IndexBytes(key)
    case Add(_, key, _) => if of.IsMap() then ValueBytes(false, of.key, key) else IndexBytes(key)
    case Remove(_, key) =>
      if of.IsMap() then ValueBytes(false, of.key, key)
      else if of.kind.Set? then ValueBytes(false, of.element, key)
      else IndexBytes(key)
    case _ => []
  }

  function IndexBytes(v: Val): seq<byte> { if v.Num? && v.n >= 0 then Varint(v.n) else [] }

  /** The value an op carries, if any. */
  function Carried(op: Op): Option<Val> {
    match op
    case Set(_, _, v) => Some(v)
    case Add(_, _, v) => Some(v)
    case AddToSet(_, v) => Some(v)
    case _ => None
  }

  /** What an accepted op does to the tables: a ref it carries is bound, and is what the next op may leave out. */
  predicate TablesAfter(t: Tables, op: Op, refs: bool, t': Tables, last: int)
    requires !op.Define?
  {
    var v := Carried(op);
    if refs && v.Some? then
      v.value.Ref? && 0 <= v.value.classId < |t.layouts| && t' == Bind(t, v.value.refId, t.layouts[v.value.classId])
      && last == v.value.refId
    else t' == t && last == op.target
  }

  lemma CollectionOpIs(t: Tables, of: StateType, op: Op)
    requires !op.Define? && op.target in t.targets && t.targets[op.target] == Collection(of) && IsUint(op.target)
    ensures EncodeCollectionOp(t, of, op).Some? <==> IsAccepted(t, op)
    ensures EncodeCollectionOp(t, of, op).Some? ==>
              var w, v := EncodeCollectionOp(t, of, op).value, Carried(op);
              && w.bytes == KeyBytes(of, op) + (if v.Some? then ValueBytes(of.HoldsSchemas(), of.element, v.value)
                                                else [])
              && TablesAfter(t, op, of.HoldsSchemas(), w.tables, Last(op.target, w.carried))
  {
    hide WriteScalar, IsOf, Varint, Bind, Collections, IsRef;
    forall s: Scalar, x: Val
      ensures WriteScalar(s, x).Some? <==> IsOf(s, x)
    {
      ScalarIs(s, x);
    }
    var v := Carried(op);
    if v.Some? {
      RefIs(t, v.value);
      RefShape(t, v.value);
    }
  }

  lemma RefShape(t: Tables, v: Val)
    ensures IsRef(t, v) ==> v.Ref? && v.refId >= 0 && 0 <= v.classId < |t.layouts|
  {
  }

  lemma FieldValueIs(t: Tables, of: StateType, v: Val)
    ensures EncodeValue(t, of, v).Some? <==> IsFieldValue(t, of, v)
    ensures EncodeValue(t, of, v).Some? ==>
              EncodeValue(t, of, v).value.bytes == ValueBytes(of.kind.Schema?, of.element, v)
  {
    hide WriteScalar, IsOf, Varint, Bind, Collections;
    ScalarIs(of.element, v);
    RefIs(t, v);
  }

  // --------------------------------------------------------------------- whole ops

  /** The index of the field that a SET on an instance names. */
  function FieldOf(t: Tables, op: Op): nat
    requires !op.Define?
  {
    if op.target in t.targets && t.targets[op.target].Instance? && op.Set? && op.key.Num? && op.key.n >= 0 then op.key.n
    else 0
  }

  /** Exactly the acceptable ops are encoded. */
  lemma OpAccepted(t: Tables, last: int, op: Op)
    requires !op.Define?
    ensures EncodeOp(t, last, op).Some? <==> IsAccepted(t, op)
  {
    hide EncodeCollectionOp, EncodeValue, Header, IsFieldValue, IsElement;
    if IsUint(op.target) && op.target in t.targets {
      match t.targets[op.target] {
        case Instance(layout) =>
          if op.Set? && IsIndex(op.key) && op.key.n < |layout| {
            FieldValueIs(t, layout[op.key.n], op.value);
          }
        case Collection(of) => CollectionOpIs(t, of, op);
      }
    }
  }

  /**
   The header byte: the kind of op in the top three bits, whether the target is
   the last one in the next, and below them the field's index, up to 15.
   */
  lemma HeaderIs(t: Tables, last: int, op: Op)
    requires EncodeOp(t, last, op).Some?
    ensures var b := EncodeOp(t, last, op).value.bytes;
            && b != []
            && b[0] / 32 == (match op
                             case Set(_, _, _) => 0
                             case Add(_, _, _) => 1
                             case AddToSet(_, _) => 1
                             case Remove(_, _) => 2
                             case Clear(_) => 3
                             case Define(_, _, _, _) => 4)
            && (b[0] / 16 % 2 == 1 <==> !op.Define? && op.target == last)
            && b[0] % 16 == (if op.Define? then 0 else if FieldOf(t, op) < 15 then FieldOf(t, op) else 15)
  {
    hide EncodeValue, EncodeCollectionOp, EncodeStrings, WriteString, Varint, DefineClass;
  }

  /** After the header: the target unless it repeats, the field's index past 15, the key, the value. */
  lemma OpIs(t: Tables, last: int, op: Op)
    requires !op.Define? && EncodeOp(t, last, op).Some?
    ensures var e, v, field := EncodeOp(t, last, op).value, Carried(op), FieldOf(t, op);
            var target := if op.target == last then [] else Varint(op.target);
            match t.targets[op.target]
            case Instance(layout) =>
              && e.bytes[1..] == target + (if field >= 15 then Varint(field - 15) else [])
                                 + ValueBytes(layout[field].kind.Schema?, layout[field].element, v.value)
              && TablesAfter(t, op, layout[field].kind.Schema?, e.tables, e.last)
            case Collection(of) =>
              && e.bytes[1..] == target + KeyBytes(of, op)
                                 + (if v.Some? then ValueBytes(of.HoldsSchemas(), of.element, v.value) else [])
              && TablesAfter(t, op, of.HoldsSchemas(), e.tables, e.last)
  {
    OpAccepted(t, last, op);
    hide KeyBytes, ValueBytes, TablesAfter, Varint, EncodeOp;
    match t.targets[op.target] {
      case Instance(layout) => FieldOpIs(t, last, op, layout);
      case Collection(of) => PlacedOpIs(t, last, op, of);
    }
  }

  lemma PlacedOpIs(t: Tables, last: int, op: Op, of: StateType)
    requires !op.Define? && op.target in t.targets && t.targets[op.target] == Collection(of)
    requires EncodeOp(t, last, op).Some?
    ensures var e, v := EncodeOp(t, last, op).value, Carried(op);
            && e.bytes[1..] == (if op.target == last then [] else Varint(op.target)) + KeyBytes(of, op)
                               + (if v.Some? then ValueBytes(of.HoldsSchemas(), of.element, v.value) else [])
            && TablesAfter(t, op, of.HoldsSchemas(), e.tables, e.last)
  {
    hide EncodeCollectionOp, EncodeOp, KeyBytes, ValueBytes, TablesAfter, Varint, Carried, IsAccepted, Header;
    PlacedOp(t, last, op, of);
    CollectionOpIs(t, of, op);
    var w := EncodeCollectionOp(t, of, op).value;
    HeaderTail(Code(op), op.target, last, 0);
    Concatenates(Header(Code(op), op.target, last, 0), w.bytes);
    Associates(if op.target == last then [] else Varint(op.target), KeyBytes(of, op),
               if Carried(op).Some? then ValueBytes(of.HoldsSchemas(), of.element, Carried(op).value) else []);
  }

  lemma Associates(a: seq<byte>, b: seq<byte>, c: seq<byte>)
    ensures a + [] + (b + c) == a + b + c
  {
  }

  lemma PlacedOp(t: Tables, last: int, op: Op, of: StateType)
    requires !op.Define? && op.target in t.targets && t.targets[op.target] == Collection(of)
    requires EncodeOp(t, last, op).Some?
    ensures IsUint(op.target) && op.target in t.targets && Code(op) < 4
    ensures var w := EncodeCollectionOp(t, of, op);
            && w.Some?
            && EncodeOp(t, last, op) ==
               Some(Encoded(Header(Code(op), op.target, last, 0) + w.value.bytes, w.value.tables,
                            Last(op.target, w.value.carried)))
  {
    hide EncodeCollectionOp, Header;
  }

  lemma HeaderTail(code: nat, refId: nat, last: int, field: nat)
    requires code < 4
    ensures var h := Header(code, refId, last, field);
            && |h| > 0
            && h[1..] == (if refId == last then [] else Varint(refId)) + (if field >= 15 then Varint(field - 15)
                                                                          else [])
  {
    hide Varint;
  }

  lemma Concatenates(a: seq<byte>, b: seq<byte>)
    requires a != []
    ensures (a + b)[1..] == a[1..] + b
  {
  }

  lemma FieldOpIs(t: Tables, last: int, op: Op, layout: Layout)
    requires !op.Define? && EncodeOp(t, last, op).Some? && t.targets[op.target] == Instance(layout)
    ensures var e, field := EncodeOp(t, last, op).value, FieldOf(t, op);
            && op.Set? && field < |layout|
            && e.bytes[1..] == (if op.target == last then [] else Varint(op.target))
                               + (if field >= 15 then Varint(field - 15) else [])
                               + ValueBytes(layout[field].kind.Schema?, layout[field].element, op.value)
            && TablesAfter(t, op, layout[field].kind.Schema?, e.tables, e.last)
  {
    var field := op.key.n;
    FieldValueIs(t, layout[field], op.value);
    FieldTables(t, op, layout[field]);
    hide EncodeValue, Varint, ValueBytes, TablesAfter, IsFieldValue;
    var w := EncodeValue(t, layout[field], op.value).value;
    HeaderTail(0, op.target, last, field);
    Concatenates(Header(0, op.target, last, field), w.bytes);
  }

  lemma FieldTables(t: Tables, op: Op, of: StateType)
    requires op.Set? && EncodeValue(t, of, op.value).Some?
    ensures var w := EncodeValue(t, of, op.value).value;
            TablesAfter(t, op, of.kind.Schema?, w.tables, Last(op.target, w.carried))
  {
    hide WriteScalar, Varint, Bind, Collections;
    RefIs(t, op.value);
    RefShape(t, op.value);
    hide IsRef;
  }

  // ----------------------------------------------------------------------- classes

  /** The first `n` fields of a declaration: each name, then its type. */
  function NamesBytes(fields: seq<string>, types: seq<string>, n: nat): seq<byte>
    requires n <= |fields| == |types|
  {
    if n == 0 then []
    else NamesBytes(fields, types, n - 1) + ValueBytes(false, Text, Str(fields[n - 1])) + ValueBytes(false, Text,
        Str(types[n - 1]))
  }

  lemma {:induction false} NamesTail(fields: seq<string>, types: seq<string>, n: nat)
    requires 0 < n <= |fields| == |types|
    ensures NamesBytes(fields, types, n) ==
            ValueBytes(false, Text, Str(fields[0])) + ValueBytes(false, Text, Str(types[0]))
            + NamesBytes(fields[1..], types[1..], n - 1)
    decreases n
  {
    hide ValueBytes;
    if n > 1 {
      NamesTail(fields, types, n - 1);
    }
  }

  lemma {:induction false} StringsAre(fields: seq<string>, types: seq<string>)
    requires |fields| == |types| && EncodeStrings(fields, types).Some?
    ensures EncodeStrings(fields, types).value == NamesBytes(fields, types, |fields|)
    decreases |fields|
  {
    if fields != [] {
      StringsAre(fields[1..], types[1..]);
      NamesTail(fields, types, |fields|);
      hide WriteString, NamesBytes;
    }
  }

  /** A DEFINE: 0x80, the class id, its name, how many fields, and for each its name and type. */
  lemma DefineBytesAre(t: Tables, last: int, op: Op)
    requires op.Define? && EncodeOp(t, last, op).Some?
    ensures |op.fields| == |op.types| && op.classId >= 0
    ensures EncodeOp(t, last, op).value.bytes ==
            [0x80] + Varint(op.classId) + ValueBytes(false, Text, Str(op.name)) + Varint(|op.fields|)
            + NamesBytes(op.fields, op.types, |op.fields|)
    ensures EncodeOp(t, last, op).value.last == last
  {
    hide Varint, WriteString, EncodeStrings, DefineClass, NamesBytes, ParseAll;
    StringsAre(op.fields, op.types);
  }

  /**
   A DEFINE adds the class under the next id, or restates a known one exactly;
   anything else is refused. The first class's instance is the root, refId 0.
   */
  lemma DefineClassIs(t: Tables, op: Op)
    requires op.Define? && |t.classes| == |t.layouts|
    ensures var r, n := DefineClass(t, op), |t.classes|;
            && (0 <= op.classId < n ==>
                  var c := t.classes[op.classId];
                  r == if c.name == op.name && c.fields == op.fields && c.types == op.types then Some(t) else None)
            && (op.classId < 0 || op.classId > n ==> r == None)
            && (op.classId == n ==>
                  && (r.Some? <==> ParseAll(op.types).Some?)
                  && (r.Some? ==>
                        && r.value.classes == t.classes + [ClassEntry(n, op.name, op.fields, op.types)]
                        && r.value.layouts == t.layouts + [ParseAll(op.types).value]
                        && (n > 0 ==> r.value.targets == t.targets)
                        && (n == 0 ==> r.value.targets == Bind(t, 0, ParseAll(op.types).value).targets)))
  {
    hide Block, ParseAll;
  }

  // ------------------------------------------------------------------------ blocks

  /** How many of the first `i` fields are collections. */
  function CollectionsBefore(layout: Layout, i: nat): nat
    requires i <= |layout|
  {
    if i == 0 then 0 else CollectionsBefore(layout, i - 1) + (if layout[i - 1].IsCollection() then 1 else 0)
  }

  lemma {:induction false} BeforeTail(layout: Layout, i: nat)
    requires 0 < i <= |layout|
    ensures CollectionsBefore(layout, i) ==
            (if layout[0].IsCollection() then 1 else 0) + CollectionsBefore(layout[1..], i - 1)
    decreases i
  {
    if i > 1 {
      BeforeTail(layout, i - 1);
    } else {
      assert CollectionsBefore(layout, 0) == 0;
    }
  }

  lemma {:induction false} CollectionsAre(layout: Layout)
    ensures |Collections(layout)| == CollectionsBefore(layout, |layout|)
    ensures forall i :: 0 <= i < |layout| && layout[i].IsCollection() ==>
              CollectionsBefore(layout, i) < |Collections(layout)|
              && Collections(layout)[CollectionsBefore(layout, i)] == layout[i]
    decreases |layout|
  {
    if layout != [] {
      var rest := layout[1..];
      CollectionsAre(rest);
      BeforeTail(layout, |layout|);
      forall i | 0 <= i < |layout| && layout[i].IsCollection()
        ensures CollectionsBefore(layout, i) < |Collections(layout)|
                && Collections(layout)[CollectionsBefore(layout, i)] == layout[i]
      {
        if i > 0 {
          BeforeTail(layout, i);
          assert rest[i - 1] == layout[i];
        }
      }
    }
  }

  /**
   Binding an instance: its refId denotes it, the refIds after it its
   collections in field order, and every other refId what it denoted before.
   */
  lemma BindIs(t: Tables, refId: int, layout: Layout)
    ensures var t', n := Bind(t, refId, layout), CollectionsBefore(layout, |layout|);
            && t'.classes == t.classes && t'.layouts == t.layouts
            && refId in t'.targets && t'.targets[refId] == Instance(layout)
            && (forall i :: 0 <= i < |layout| && layout[i].IsCollection() ==>
                  var k := refId + 1 + CollectionsBefore(layout, i);
                  k in t'.targets && t'.targets[k] == Collection(layout[i]))
            && (forall k :: k < refId || k > refId + n ==>
                  (k in t'.targets <==> k in t.targets) && (k in t.targets ==> t'.targets[k] == t.targets[k]))
  {
    CollectionsAre(layout);
    hide Collections, CollectionsBefore, Block;
    BlockIs(refId, layout, refId);
    forall i | 0 <= i < |layout| && layout[i].IsCollection()
      ensures var k := refId + 1 + CollectionsBefore(layout, i);
              k in Block(refId, layout) && Block(refId, layout)[k] == Collection(layout[i])
    {
      BlockIs(refId, layout, refId + 1 + CollectionsBefore(layout, i));
    }
    forall k | k < refId || k > refId + |Collections(layout)|
      ensures k !in Block(refId, layout)
    {
      BlockIs(refId, layout, k);
    }
  }

  lemma BlockIs(refId: int, layout: Layout, k: int)
    ensures k in Block(refId, layout) <==> refId <= k <= refId + |Collections(layout)|
    ensures k in Block(refId, layout) ==>
              Block(refId, layout)[k] ==
              if k == refId then Instance(layout) else Collection(Collections(layout)[k - refId - 1])
  {
    hide Collections;
  }

  // --------------------------------------------------------------------- decoding

  /** What constructor the bytes decode to, by the top three bits and what the target is. */
  lemma DecodesAs(t: Tables, last: int, s: seq<byte>)
    requires s != [] && DecodeOp(t, last, s).Some?
    ensures var d, code, same := DecodeOp(t, last, s).value, s[0] / 32, s[0] / 16 % 2 == 1;
            && code <= 4
            && (code == 4 ==> d.op.Define? && s[0] == 0x80 && d.last == last)
            && (code < 4 ==>
                  && !d.op.Define? && d.op.target in t.targets
                  && (same ==> d.op.target == last)
                  && (!same ==> ReadVarint(s[1..]).Some? && d.op.target == ReadVarint(s[1..]).value.0)
                  && match t.targets[d.op.target]
                     case Instance(layout) => code == 0 && d.op.Set? && FieldRead(layout, s, same, d.op.key)
                     case Collection(of) =>
                       && s[0] % 16 == 0
                       && (code == 0 ==> d.op.Set? && of.IsArray())
                       && (code == 1 ==> if of.IsSet() then d.op.AddToSet? else d.op.Add?)
                       && (code == 2 ==> d.op.Remove?)
                       && (code == 3 ==> d.op.Clear?))
  {
    hide ReadVarint, DecodeValue, DecodeElement, DecodeKey, DecodeRemoveKey, DecodeStrings, ReadString, CheckDefine,
         DefineClass;
  }

  /** The field's index: the low bits of the header, or 15 and what a varint adds. */
  predicate FieldRead(layout: Layout, s: seq<byte>, same: bool, key: Val)
    requires s != []
  {
    var after := if same then Some((0, s[1..])) else ReadVarint(s[1..]);
    && key.Num? && 0 <= key.n < |layout| && after.Some?
    && if s[0] % 16 < 15 then key.n == s[0] % 16
       else ReadVarint(after.value.1).Some? && key.n == 15 + ReadVarint(after.value.1).value.0
  }

  /** Header bytes that no op has are refused, and so are targets that denote nothing. */
  lemma Refused(t: Tables, last: int, s: seq<byte>)
    requires s != []
    ensures s[0] / 32 > 4 || (s[0] / 32 == 4 && s[0] != 0x80) ==> DecodeOp(t, last, s) == None
    ensures s[0] / 32 < 4 && s[0] / 16 % 2 == 1 && last !in t.targets ==> DecodeOp(t, last, s) == None
    ensures s[0] / 32 < 4 && s[0] / 16 % 2 == 0 &&
              (ReadVarint(s[1..]).None? || ReadVarint(s[1..]).value.0 as int !in t.targets) ==>
              DecodeOp(t, last, s) == None
    ensures 0 < s[0] / 32 < 4 && s[0] / 16 % 2 == 1 && last in t.targets && t.targets[last].Instance? ==>
              DecodeOp(t, last, s) == None
  {
    hide ReadVarint, DecodeDefine, DecodeSetField, DecodeCollectionOp;
  }
}
