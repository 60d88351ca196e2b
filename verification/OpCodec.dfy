/**
 The `schema` op-stream codec as functions: what one op becomes on the wire,
 what a decoder makes of those bytes, and how both move the class table and
 the target table. The bytes carry no tags, so every read depends on the
 tables; the lemmas in `OpCodecProofs` show both sides stay in step.

 Values are as a client would hold them for the wire: integers are `Num`, floats
 are bit patterns, strings are sequences of Unicode scalars. Writing replaces
 U+0000 and every NaN but one.
 */
module OpCodec {
  import opened Wrappers
  import opened Wire
  import opened StateTypes
  import opened Doubles
  import Utf8

  datatype Val =
    | Num(n: int)
    | F64(bits: bits64)
    | F32(word: bits32)
    | Str(s: string)
    | Flag(b: bool)
    | Ref(classId: int, refId: int)
    | Null

  datatype Op =
    | Set(target: int, key: Val, value: Val)
    | Add(target: int, key: Val, value: Val)
    | AddToSet(target: int, value: Val)
    | Remove(target: int, key: Val)
    | Clear(target: int)
    | Define(classId: int, name: string, fields: seq<string>, types: seq<string>)

  predicate IsUint32(n: int) { 0 <= n <= MAX_UINT32 }

  // ------------------------------------------------------------------ tables

  type Layout = seq<StateType>

  /** What a refId denotes: an instance of a class, or one of its collections. */
  datatype Target = Instance(layout: Layout) | Collection(of: StateType)

  datatype ClassEntry = ClassEntry(classId: int, name: string, fields: seq<string>, types: seq<string>)

  datatype Tables = Tables(classes: seq<ClassEntry>, layouts: seq<Layout>, targets: map<int, Target>)

  const FRESH: Tables := Tables([], [], map[])

  /** The collection field types in field order: refIds R+1 .. R+k of the block at R. */
  function Collections(layout: Layout): seq<StateType> {
    if layout == [] then []
    else if layout[0].IsCollection() then [layout[0]] + Collections(layout[1..])
    else Collections(layout[1..])
  }

  predicate InBlock(refId: int, layout: Layout, k: int) {
    refId <= k <= refId + |Collections(layout)|
  }

  function TargetAt(refId: int, layout: Layout, k: int): Target
    requires InBlock(refId, layout, k)
  {
    if k == refId then Instance(layout) else Collection(Collections(layout)[k - refId - 1])
  }

  /** The refIds an instance at `refId` owns, and what each denotes. */
  function Block(refId: int, layout: Layout): map<int, Target> {
    map k | refId <= k <= refId + |Collections(layout)| && InBlock(refId, layout, k) :: TargetAt(refId, layout, k)
  }

  function Bind(t: Tables, refId: int, layout: Layout): Tables {
    t.(targets := t.targets + Block(refId, layout))
  }

  function BindRef(t: Tables, classId: int, refId: int): Option<Tables> {
    if !(0 <= classId < |t.layouts|) then None
    else if refId + |Collections(t.layouts[classId])| > MAX_UINT32 then None
    else Some(Bind(t, refId, t.layouts[classId]))
  }

  predicate CheckDefine(op: Op)
    requires op.Define?
  {
    IsUint32(op.classId) && |op.fields| == |op.types| && ParseAll(op.types).Some?
  }

  function EntryOf(op: Op): ClassEntry
    requires op.Define?
  {
    ClassEntry(op.classId, op.name, op.fields, op.types)
  }

  predicate SameAs(a: ClassEntry, b: ClassEntry) {
    a.name == b.name && a.fields == b.fields && a.types == b.types
  }

  /** A new class takes the next id; a known one must be restated identically. */
  function DefineClass(t: Tables, op: Op): Option<Tables>
    requires op.Define?
  {
    if 0 <= op.classId < |t.classes| then
      if SameAs(t.classes[op.classId], EntryOf(op)) then Some(t) else None
    else if op.classId != |t.classes| then None
    else
      var layout :- ParseAll(op.types);
      var t' := t.(classes := t.classes + [EntryOf(op)], layouts := t.layouts + [layout]);
      Some(if op.classId == 0 then Bind(t', 0, layout) else t')
  }

  // ----------------------------------------------------------------- strings

  /** A byte array holds at most 2^31 - 1 bytes, so a longer encoding cannot be built. */
  function WriteString(text: string): Option<seq<byte>> {
    var utf8 := Utf8.Encode(Utf8.WireText(text));
    if |utf8| <= MAX_INT32 then Some(Varint(|utf8|) + utf8) else None
  }

  function ReadString(s: seq<byte>): (r: Option<(string, seq<byte>)>)
    ensures r.Some? ==> |r.value.1| < |s|
  {
    var (n, rest) :- ReadVarint(s);
    var (utf8, rest') :- Take(rest, n);
    var text :- Utf8.Decode(utf8);
    Some((text, rest'))
  }

  // ----------------------------------------------------------------- scalars

  function WriteInt(kind: IntKind, n: int): seq<byte>
    requires kind.Min() <= n <= kind.Max()
  {
    match kind
    case Int8 | UInt8 => [n % 0x100]
    case Int16 | Int32 => Varint(Zigzag(n))
    case UInt16 | UInt32 => Varint(n)
  }

  function ReadInt(kind: IntKind, s: seq<byte>): (r: Option<(int, seq<byte>)>)
    ensures r.Some? ==> kind.Min() <= r.value.0 <= kind.Max() && |r.value.1| < |s|
  {
    var (n, rest) :- (match kind
      case Int8 => if s == [] then None else Some((if s[0] < 0x80 then s[0] else s[0] as int - 0x100, s[1..]))
      case UInt8 => if s == [] then None else Some((s[0] as int, s[1..]))
      case Int16 | Int32 => var (n, rest) :- ReadVarint(s); Some((Unzigzag(n), rest))
      case UInt16 | UInt32 => var (n, rest) :- ReadVarint(s); Some((n as int, rest)));
    if kind.Min() <= n <= kind.Max() then Some((n, rest)) else None
  }

  function WriteScalar(of: Scalar, v: Val): Option<seq<byte>> {
    match of
    case Float64 => if v.F64? then Some(LittleEndian(WireDouble(v.bits), 8)) else None
    case Float32 => if v.F32? then Some(LittleEndian(WireSingle(v.word), 4)) else None
    case Text => if v.Str? then WriteString(v.s) else None
    case Bool => if v.Flag? then Some([if v.b then 1 else 0]) else None
    case Fixed(_) => if v.Num? && IsInt32(v.n) then Some(Varint(Zigzag(v.n))) else None
    case Integer(kind) =>
      if v.Num? && kind.Min() <= v.n <= kind.Max() then Some(WriteInt(kind, v.n)) else None
  }

  function ReadScalar(of: Scalar, s: seq<byte>): (r: Option<(Val, seq<byte>)>)
    ensures r.Some? ==> |r.value.1| < |s| && !r.value.0.Ref? && !r.value.0.Null?
  {
    match of
    case Float64 =>
      var (b, rest) :- Take(s, 8);
      Some((F64(LittleEndianValue(b, 8)), rest))
    case Float32 =>
      var (b, rest) :- Take(s, 4);
      Some((F32(LittleEndianValue(b, 4)), rest))
    case Text => var (text, rest) :- ReadString(s); Some((Str(text), rest))
    case Bool => if s == [] || s[0] > 1 then None else Some((Flag(s[0] == 1), s[1..]))
    case Fixed(_) => var (n, rest) :- ReadVarint(s); Some((Num(Unzigzag(n)), rest))
    case Integer(kind) => var (n, rest) :- ReadInt(kind, s); Some((Num(n), rest))
  }

  /** The value of `size` little-endian bytes, with its range. */
  function LittleEndianValue(b: seq<byte>, size: nat): (n: nat)
    requires |b| == size
    ensures n < Range256(size)
    ensures size == 4 ==> n < 0x1_0000_0000
    ensures size == 8 ==> n < 0x1_0000_0000_0000_0000
  {
    LittleEndianBound(b);
    assert Range256(2) == 0x1_0000;
    assert Range256(4) == 0x1_0000_0000;
    assert Range256(6) == 0x1_0000_0000_0000;
    FromLittleEndian(b)
  }

  lemma {:induction false} LittleEndianBound(b: seq<byte>)
    ensures FromLittleEndian(b) < Range256(|b|)
  {
    if b != [] {
      LittleEndianBound(b[1..]);
    }
  }

  // ----------------------------------------------------------------- encoder

  function Code(op: Op): nat {
    match op
    case Set(_, _, _) => 0
    case Add(_, _, _) | AddToSet(_, _) => 1
    case Remove(_, _) => 2
    case Clear(_) => 3
    case Define(_, _, _, _) => 4
  }

  const HEADER_S: nat := 0x10

  const F_ESCAPE: nat := 15

  function EncodeIndex(v: Val): Option<seq<byte>> {
    if v.Num? && IsUint32(v.n) then Some(Varint(v.n)) else None
  }

  /** A value's bytes, the tables after it, and the refId it carries, if it is a ref. */
  datatype Written = Written(bytes: seq<byte>, tables: Tables, carried: Option<int>)

  function EncodeRef(t: Tables, v: Val): Option<Written> {
    if !(v.Ref? && IsUint32(v.classId) && IsUint32(v.refId)) then None
    else
      var t' :- BindRef(t, v.classId, v.refId);
      Some(Written(Varint(v.classId) + Varint(v.refId), t', Some(v.refId)))
  }

  function EncodeScalarValue(t: Tables, of: Scalar, v: Val): Option<Written> {
    var b :- WriteScalar(of, v);
    Some(Written(b, t, None))
  }

  /** The value of an instance field. */
  function EncodeValue(t: Tables, of: StateType, v: Val): Option<Written> {
    if of.kind.Schema? then EncodeRef(t, v)
    else if of.kind.Primitive? || of.kind.Int? then EncodeScalarValue(t, of.element, v)
    else None
  }

  function EncodeElement(t: Tables, of: StateType, v: Val): Option<Written> {
    if of.HoldsSchemas() then EncodeRef(t, v) else EncodeScalarValue(t, of.element, v)
  }

  function EncodeKey(of: StateType, key: Val): Option<seq<byte>> {
    if of.IsMap() then WriteScalar(of.key, key) else EncodeIndex(key)
  }

  function EncodeRemoveKey(of: StateType, key: Val): Option<seq<byte>> {
    if of.IsMap() then WriteScalar(of.key, key)
    else if of.kind.Set? then WriteScalar(of.element, key)
    else EncodeIndex(key)
  }

  function EncodeKeyed(t: Tables, of: StateType, key: Option<seq<byte>>, v: Val): Option<Written> {
    var k :- key;
    var w :- EncodeElement(t, of, v);
    Some(w.(bytes := k + w.bytes))
  }

  function EncodeCollectionOp(t: Tables, of: StateType, op: Op): Option<Written>
    requires !op.Define?
  {
    match op
    case Set(_, key, v) => if of.IsArray() then EncodeKeyed(t, of, EncodeIndex(key), v) else None
    case Add(_, key, v) => if of.IsSet() then None else EncodeKeyed(t, of, EncodeKey(of, key), v)
    case AddToSet(_, v) => if of.IsSet() then EncodeElement(t, of, v) else None
    case Remove(_, key) => var k :- EncodeRemoveKey(of, key); Some(Written(k, t, None))
    case Clear(_) => Some(Written([], t, None))
  }

  /** The header byte, the target unless it repeats, and a field index past the escape. */
  function Header(code: nat, refId: nat, last: int, field: nat): seq<byte>
    requires code < 4
  {
    var same := if refId == last then HEADER_S else 0;
    var f := if field < F_ESCAPE then field else F_ESCAPE;
    [0x20 * code + same + f]
    + (if refId == last then [] else Varint(refId))
    + (if f == F_ESCAPE then Varint(field - F_ESCAPE) else [])
  }

  function EncodeStrings(fields: seq<string>, types: seq<string>): Option<seq<byte>>
    requires |fields| == |types|
  {
    if fields == [] then Some([])
    else
      var name :- WriteString(fields[0]);
      var of :- WriteString(types[0]);
      var rest :- EncodeStrings(fields[1..], types[1..]);
      Some(name + of + rest)
  }

  function DefineBytes(op: Op): Option<seq<byte>>
    requires op.Define? && CheckDefine(op)
  {
    var head :- DefineHead(op);
    var fields :- EncodeStrings(op.fields, op.types);
    Some(head + fields)
  }

  function DefineHead(op: Op): Option<seq<byte>>
    requires op.Define? && CheckDefine(op)
  {
    var name :- WriteString(op.name);
    Some([0x80] + Varint(op.classId) + name + Varint(|op.fields|))
  }

  function EncodeDefine(t: Tables, op: Op): Option<(seq<byte>, Tables)>
    requires op.Define?
  {
    if !CheckDefine(op) || |op.fields| > MAX_INT32 then None
    else
      var t' :- DefineClass(t, op);
      var b :- DefineBytes(op);
      Some((b, t'))
  }

  /** An op's bytes, the tables after it, and the running last refId. */
  datatype Encoded = Encoded(bytes: seq<byte>, tables: Tables, last: int)

  function EncodeOp(t: Tables, last: int, op: Op): Option<Encoded> {
    if op.Define? then
      var (b, t') :- EncodeDefine(t, op);
      Some(Encoded(b, t', last))
    else if !IsUint32(op.target) || op.target !in t.targets then None
    else match t.targets[op.target]
      case Instance(layout) =>
        if !(op.Set? && op.key.Num? && 0 <= op.key.n < |layout| && IsUint32(op.key.n)) then None
        else
          var w :- EncodeValue(t, layout[op.key.n], op.value);
          Some(Encoded(Header(0, op.target, last, op.key.n) + w.bytes, w.tables, Last(op.target, w.carried)))
      case Collection(of) =>
        var w :- EncodeCollectionOp(t, of, op);
        Some(Encoded(Header(Code(op), op.target, last, 0) + w.bytes, w.tables, Last(op.target, w.carried)))
  }

  function Last(refId: int, carried: Option<int>): int {
    if carried.Some? then carried.value else refId
  }

  function EncodeOps(t: Tables, last: int, ops: seq<Op>): Option<(seq<byte>, Tables)>
    decreases |ops|
  {
    if ops == [] then Some(([], t))
    else
      var e :- EncodeOp(t, last, ops[0]);
      var (b, t') :- EncodeOps(e.tables, e.last, ops[1..]);
      Some((e.bytes + b, t'))
  }

  function EncodeFrame(t: Tables, ops: seq<Op>): Option<(seq<byte>, Tables)> {
    EncodeOps(t, 0, ops)
  }

  // ----------------------------------------------------------------- decoder

  /** A decoded value, the tables after it and the bytes left. */
  datatype Read = Read(v: Val, tables: Tables, rest: seq<byte>)

  function DecodeRef(t: Tables, s: seq<byte>): (r: Option<Read>)
    ensures r.Some? ==> r.value.v.Ref? && |r.value.rest| < |s|
  {
    var (classId, rest) :- ReadVarint(s);
    var (refId, rest') :- ReadVarint(rest);
    var t' :- BindRef(t, classId, refId);
    Some(Read(Ref(classId, refId), t', rest'))
  }

  function DecodeScalarValue(t: Tables, of: Scalar, s: seq<byte>): (r: Option<Read>)
    ensures r.Some? ==> |r.value.rest| < |s|
  {
    var (v, rest) :- ReadScalar(of, s);
    Some(Read(v, t, rest))
  }

  function DecodeValue(t: Tables, of: StateType, s: seq<byte>): (r: Option<Read>)
    ensures r.Some? ==> |r.value.rest| < |s|
  {
    if of.kind.Schema? then DecodeRef(t, s)
    else if of.kind.Primitive? || of.kind.Int? then DecodeScalarValue(t, of.element, s)
    else None
  }

  function DecodeElement(t: Tables, of: StateType, s: seq<byte>): (r: Option<Read>)
    ensures r.Some? ==> |r.value.rest| < |s|
  {
    if of.HoldsSchemas() then DecodeRef(t, s) else DecodeScalarValue(t, of.element, s)
  }

  function DecodeIndex(s: seq<byte>): (r: Option<(Val, seq<byte>)>)
    ensures r.Some? ==> |r.value.1| < |s|
  {
    var (n, rest) :- ReadVarint(s);
    Some((Num(n), rest))
  }

  function DecodeKey(of: StateType, s: seq<byte>): (r: Option<(Val, seq<byte>)>)
    ensures r.Some? ==> |r.value.1| < |s|
  {
    if of.IsMap() then ReadScalar(of.key, s) else DecodeIndex(s)
  }

  function DecodeRemoveKey(of: StateType, s: seq<byte>): (r: Option<(Val, seq<byte>)>)
    ensures r.Some? ==> |r.value.1| < |s|
  {
    if of.IsMap() then ReadScalar(of.key, s)
    else if of.kind.Set? then ReadScalar(of.element, s)
    else DecodeIndex(s)
  }

  /** A decoded op, the tables and last refId after it, and the bytes left. */
  datatype Decoded = Decoded(op: Op, tables: Tables, last: int, rest: seq<byte>)

  function CarriedBy(v: Val): Option<int> {
    if v.Ref? then Some(v.refId) else None
  }

  function DecodeCollectionOp(t: Tables, of: StateType, code: nat, refId: int, s: seq<byte>): (r: Option<Decoded>)
    requires code < 4
    ensures r.Some? ==> |r.value.rest| <= |s|
  {
    match code
    case 0 =>
      if !of.IsArray() then None
      else
        var (key, s1) :- DecodeIndex(s);
        var e :- DecodeElement(t, of, s1);
        Some(Decoded(Op.Set(refId, key, e.v), e.tables, Last(refId, CarriedBy(e.v)), e.rest))
    case 1 =>
      if of.IsSet() then
        var e :- DecodeElement(t, of, s);
        Some(Decoded(AddToSet(refId, e.v), e.tables, Last(refId, CarriedBy(e.v)), e.rest))
      else
        var (key, s1) :- DecodeKey(of, s);
        var e :- DecodeElement(t, of, s1);
        Some(Decoded(Add(refId, key, e.v), e.tables, Last(refId, CarriedBy(e.v)), e.rest))
    case 2 =>
      var (key, s1) :- DecodeRemoveKey(of, s);
      Some(Decoded(Remove(refId, key), t, refId, s1))
    case _ => Some(Decoded(Clear(refId), t, refId, s))
  }

  function DecodeStrings(count: nat, s: seq<byte>): (r: Option<(seq<string>, seq<string>, seq<byte>)>)
    ensures r.Some? ==> |r.value.0| == |r.value.1| == count && |r.value.2| <= |s|
    decreases count
  {
    if count == 0 then Some(([], [], s))
    else
      var (name, s1) :- ReadString(s);
      var (of, s2) :- ReadString(s1);
      var (names, types, rest) :- DecodeStrings(count - 1, s2);
      Some(([name] + names, [of] + types, rest))
  }

  function DecodeDefine(t: Tables, last: int, s: seq<byte>): (r: Option<Decoded>)
    ensures r.Some? ==> |r.value.rest| < |s|
  {
    var (classId, s1) :- ReadVarint(s);
    var (name, s2) :- ReadString(s1);
    var (count, s3) :- ReadVarint(s2);
    if count > |s3| then None
    else
      var (fields, types, rest) :- DecodeStrings(count, s3);
      var op := Define(classId, name, fields, types);
      if !CheckDefine(op) then None
      else
        var t' :- DefineClass(t, op);
        Some(Decoded(op, t', last, rest))
  }

  function DecodeSetField(t: Tables, layout: Layout, f: nat, refId: int, s: seq<byte>): (r: Option<Decoded>)
    ensures r.Some? ==> |r.value.rest| < |s|
  {
    var (field, s1) :- ReadField(f, s);
    if field >= |layout| then None
    else
      var e :- DecodeValue(t, layout[field], s1);
      Some(Decoded(Op.Set(refId, Num(field), e.v), e.tables, Last(refId, CarriedBy(e.v)), e.rest))
  }

  function DecodeOp(t: Tables, last: int, s: seq<byte>): (r: Option<Decoded>)
    requires s != []
    ensures r.Some? ==> |r.value.rest| < |s|
  {
    var code, same, f := s[0] / 0x20, s[0] / HEADER_S % 2 == 1, s[0] % 0x10;
    if code == 4 then
      if same || f != 0 then None else DecodeDefine(t, last, s[1..])
    else if code > 4 then None
    else
      var (refId, s1) :- ReadTarget(same, last, s[1..]);
      if refId !in t.targets then None
      else match t.targets[refId]
        case Instance(layout) =>
          if code != 0 then None else DecodeSetField(t, layout, f, refId, s1)
        case Collection(of) =>
          if f != 0 then None else DecodeCollectionOp(t, of, code, refId, s1)
  }

  function ReadTarget(same: bool, last: int, s: seq<byte>): (r: Option<(int, seq<byte>)>)
    ensures r.Some? ==> |r.value.1| <= |s|
  {
    if same then Some((last, s))
    else
      var (n, rest) :- ReadVarint(s);
      Some((n as int, rest))
  }

  /** A field index: the header's F, or past the escape a varint. */
  function ReadField(f: nat, s: seq<byte>): (r: Option<(nat, seq<byte>)>)
    ensures r.Some? ==> |r.value.1| <= |s|
  {
    if f == F_ESCAPE then
      var (n, rest) :- ReadVarint(s);
      Some((F_ESCAPE + n, rest))
    else Some((f, s))
  }

  function DecodeOps(t: Tables, last: int, s: seq<byte>): Option<(seq<Op>, Tables)>
    decreases |s|
  {
    if s == [] then Some(([], t))
    else
      var d :- DecodeOp(t, last, s);
      var (ops, t') :- DecodeOps(d.tables, d.last, d.rest);
      Some(([d.op] + ops, t'))
  }

  function DecodeFrame(t: Tables, s: seq<byte>): Option<(seq<Op>, Tables)> {
    DecodeOps(t, 0, s)
  }
}
