/**
 Why the op-stream codec is correct: reads invert writes, a decoder with the
 encoder's tables decodes every accepted op and lands in the encoder's tables,
 and a decoder that knows less either refuses or decodes the same op.
 */
module OpCodecProofs {
  import opened Wrappers
  import opened Wire
  import opened StateTypes
  import opened Doubles
  import opened OpCodec
  import Utf8

  // ------------------------------------------------------------ normal values

  /** Texts without U+0000, and no NaN but the wire's own. */
  predicate NormalVal(v: Val) {
    match v
    case Str(s) => Utf8.NormalText(s)
    case F64(bits) => WireDouble(bits) == bits
    case F32(word) => WireSingle(word) == word
    case _ => true
  }

  predicate NormalTexts(texts: seq<string>) { forall i :: 0 <= i < |texts| ==> Utf8.NormalText(texts[i]) }

  /** An op of which nothing is replaced on the wire. */
  predicate Normal(op: Op) {
    match op
    case Set(_, key, v) => NormalVal(key) && NormalVal(v)
    case Add(_, key, v) => NormalVal(key) && NormalVal(v)
    case AddToSet(_, v) => NormalVal(v)
    case Remove(_, key) => NormalVal(key)
    case Clear(_) => true
    case Define(_, name, fields, types) => Utf8.NormalText(name) && NormalTexts(fields) && NormalTexts(types)
  }

  // ------------------------------------------------------ reads invert writes

  lemma StringRoundTrip(text: string, b: seq<byte>, rest: seq<byte>)
    requires WriteString(text) == Some(b) && Utf8.NormalText(text)
    ensures ReadString(b + rest) == Some((text, rest))
    ensures 1 <= |b|
  {
    hide Varint, ReadVarint, Utf8.Encode, Utf8.Decode;
    assert Utf8.WireText(text) == text;
    var utf8 := Utf8.Encode(text);
    VarintRoundTrip(|utf8|, utf8 + rest);
    assert b + rest == Varint(|utf8|) + (utf8 + rest);
    assert (utf8 + rest)[..|utf8|] == utf8 && (utf8 + rest)[|utf8|..] == rest;
    Utf8.DecodeOfEncode(text);
  }

  lemma IntRoundTrip(kind: IntKind, n: int, rest: seq<byte>)
    requires kind.Min() <= n <= kind.Max()
    ensures ReadInt(kind, WriteInt(kind, n) + rest) == Some((n, rest))
  {
    hide Varint, ReadVarint;
    match kind
    case Int8 | UInt8 =>
      assert ([n % 0x100] + rest)[1..] == rest;
    case Int16 | Int32 =>
      VarintRoundTrip(Zigzag(n), rest);
    case UInt16 | UInt32 =>
      VarintRoundTrip(n, rest);
  }

  lemma FixedWidthRoundTrip(n: nat, size: nat, rest: seq<byte>)
    requires n < Range256(size)
    ensures Take(LittleEndian(n, size) + rest, size) == Some((LittleEndian(n, size), rest))
    ensures FromLittleEndian(LittleEndian(n, size)) == n
  {
    LittleEndianRoundTrip(n, size);
    var b := LittleEndian(n, size);
    assert (b + rest)[..size] == b && (b + rest)[size..] == rest;
  }

  lemma Widths()
    ensures Range256(4) == 0x1_0000_0000 && Range256(8) == 0x1_0000_0000_0000_0000
  {
    assert Range256(2) == 0x1_0000;
    assert Range256(4) == 0x1_0000_0000;
    assert Range256(6) == 0x1_0000_0000_0000;
  }

  lemma ScalarRoundTrip(of: Scalar, v: Val, b: seq<byte>, rest: seq<byte>)
    requires WriteScalar(of, v) == Some(b) && NormalVal(v)
    ensures ReadScalar(of, b + rest) == Some((v, rest))
  {
    hide Varint, ReadVarint, WriteString, ReadString, WriteInt, ReadInt, LittleEndian, FromLittleEndian;
    match of
    case Float64 =>
      Widths();
      FixedWidthRoundTrip(v.bits, 8, rest);
    case Float32 =>
      Widths();
      FixedWidthRoundTrip(v.word, 4, rest);
    case Text => StringRoundTrip(v.s, b, rest);
    case Bool => assert (b + rest)[1..] == rest;
    case Fixed(_) => VarintRoundTrip(Zigzag(v.n), rest);
    case Integer(kind) => IntRoundTrip(kind, v.n, rest);
  }

  lemma IndexRoundTrip(v: Val, b: seq<byte>, rest: seq<byte>)
    requires EncodeIndex(v) == Some(b)
    ensures DecodeIndex(b + rest) == Some((v, rest))
  {
    hide Varint, ReadVarint;
    VarintRoundTrip(v.n, rest);
  }

  lemma {:induction false} StringsRoundTrip(fields: seq<string>, types: seq<string>, b: seq<byte>, rest: seq<byte>)
    requires |fields| == |types| && NormalTexts(fields) && NormalTexts(types)
    requires EncodeStrings(fields, types) == Some(b)
    ensures DecodeStrings(|fields|, b + rest) == Some((fields, types, rest))
    ensures |b| >= |fields|
    decreases |fields|
  {
    hide WriteString, ReadString, Utf8.NormalText;
    if fields == [] {
      assert b + rest == rest;
    } else {
      var name, of := WriteString(fields[0]).value, WriteString(types[0]).value;
      var tail := EncodeStrings(fields[1..], types[1..]).value;
      assert b + rest == name + (of + (tail + rest));
      StringRoundTrip(fields[0], name, of + (tail + rest));
      StringRoundTrip(types[0], of, tail + rest);
      StringsRoundTrip(fields[1..], types[1..], tail, rest);
      assert [fields[0]] + fields[1..] == fields && [types[0]] + types[1..] == types;
    }
  }

  // ------------------------------------------------------------------ tables

  ghost predicate Submap(a: map<int, Target>, b: map<int, Target>) {
    forall k :: k in a ==> k in b && a[k] == b[k]
  }

  /** Class ids are positions, and every layout is its class's parsed types. */
  ghost predicate Sound(t: Tables) {
    && |t.classes| == |t.layouts|
    && forall i :: 0 <= i < |t.classes| ==>
         t.classes[i].classId == i && ParseAll(t.classes[i].types) == Some(t.layouts[i])
  }

  /** Nothing was bound over the root's block (refId 0, an instance of class 0). */
  ghost predicate RootIntact(t: Tables) {
    t.layouts != [] ==> Submap(Block(0, t.layouts[0]), t.targets)
  }

  /** What a decoder that saw only part of the stream knows of the encoder's tables. */
  ghost predicate Knows(td: Tables, te: Tables) {
    Sound(td) && Sound(te) && RootIntact(te) && td.classes <= te.classes && Submap(td.targets, te.targets)
  }

  lemma KnowsLayouts(td: Tables, te: Tables)
    requires Knows(td, te)
    ensures td.layouts <= te.layouts
  {
    forall i | 0 <= i < |td.layouts|
      ensures td.layouts[i] == te.layouts[i]
    {
      assert td.classes[i] == te.classes[i];
    }
  }

  /** A ref whose block starts past the root's block. */
  predicate RefClear(t: Tables, v: Val) {
    v.Ref? && t.layouts != [] ==> v.refId > |Collections(t.layouts[0])|
  }

  predicate RootClear(t: Tables, op: Op) {
    match op
    case Set(_, _, v) => RefClear(t, v)
    case Add(_, _, v) => RefClear(t, v)
    case AddToSet(_, v) => RefClear(t, v)
    case _ => true
  }

  lemma BindKeepsRoot(t: Tables, refId: int, layout: Layout)
    requires RootIntact(t) && (t.layouts != [] ==> refId > |Collections(t.layouts[0])|)
    ensures RootIntact(Bind(t, refId, layout))
  {
  }

  lemma BindKeepsKnows(td: Tables, te: Tables, refId: int, layout: Layout)
    requires Knows(td, te) && (te.layouts != [] ==> refId > |Collections(te.layouts[0])|)
    ensures Knows(Bind(td, refId, layout), Bind(te, refId, layout))
  {
    BindKeepsRoot(te, refId, layout);
  }

  ghost predicate Follows(td: Tables, te: Tables, v: Val) {
    Knows(td, te) && RefClear(te, v)
  }

  /**
   What decoding `v`'s bytes with tables `td` must give, when the encoder went
   from `te` to `te'`: with equal tables exactly the value and the encoder's
   tables; with partial knowledge the value, or a refusal.
   */
  ghost predicate Agrees(td: Tables, te: Tables, r: Option<Read>, v: Val, te': Tables, rest: seq<byte>) {
    && (td == te ==> r == Some(Read(v, te', rest)))
    && (Follows(td, te, v) && r.Some? ==> r.value.v == v && r.value.rest == rest && Knows(r.value.tables, te'))
  }

  lemma RefAgrees(td: Tables, te: Tables, v: Val, w: Written, rest: seq<byte>)
    requires EncodeRef(te, v) == Some(w)
    ensures Agrees(td, te, DecodeRef(td, w.bytes + rest), v, w.tables, rest)
    ensures w.carried == CarriedBy(v)
  {
    hide Varint, ReadVarint, Bind, Knows, RootIntact, Collections;
    VarintRoundTrip(v.classId, Varint(v.refId) + rest);
    VarintRoundTrip(v.refId, rest);
    assert w.bytes + rest == Varint(v.classId) + (Varint(v.refId) + rest);
    if Follows(td, te, v) && 0 <= v.classId < |td.layouts| {
      KnowsLayouts(td, te);
      assert td.layouts[v.classId] == te.layouts[v.classId];
      BindKeepsKnows(td, te, v.refId, te.layouts[v.classId]);
    }
  }

  lemma ScalarAgrees(td: Tables, te: Tables, of: Scalar, v: Val, w: Written, rest: seq<byte>)
    requires EncodeScalarValue(te, of, v) == Some(w) && NormalVal(v)
    ensures Agrees(td, te, DecodeScalarValue(td, of, w.bytes + rest), v, w.tables, rest)
    ensures w.carried == CarriedBy(v)
  {
    hide ReadScalar, Knows;
    ScalarRoundTrip(of, v, w.bytes, rest);
  }

  lemma ValueAgrees(td: Tables, te: Tables, of: StateType, v: Val, w: Written, rest: seq<byte>)
    requires EncodeValue(te, of, v) == Some(w) && NormalVal(v)
    ensures Agrees(td, te, DecodeValue(td, of, w.bytes + rest), v, w.tables, rest)
    ensures w.carried == CarriedBy(v)
  {
    hide EncodeRef, DecodeRef, EncodeScalarValue, DecodeScalarValue, Agrees, Follows;
    if of.kind.Schema? {
      RefAgrees(td, te, v, w, rest);
    } else {
      ScalarAgrees(td, te, of.element, v, w, rest);
    }
  }

  lemma ElementAgrees(td: Tables, te: Tables, of: StateType, v: Val, w: Written, rest: seq<byte>)
    requires EncodeElement(te, of, v) == Some(w) && NormalVal(v)
    ensures Agrees(td, te, DecodeElement(td, of, w.bytes + rest), v, w.tables, rest)
    ensures w.carried == CarriedBy(v)
  {
    hide EncodeRef, DecodeRef, EncodeScalarValue, DecodeScalarValue, Agrees, Follows;
    if of.HoldsSchemas() {
      RefAgrees(td, te, v, w, rest);
    } else {
      ScalarAgrees(td, te, of.element, v, w, rest);
    }
  }

  // --------------------------------------------------------------------- ops

  ghost predicate OpFollows(td: Tables, te: Tables, op: Op) {
    Knows(td, te) && RootClear(te, op)
  }

  /** `Agrees`, for a whole op. */
  ghost predicate OpAgrees(td: Tables, te: Tables, r: Option<Decoded>, op: Op, te': Tables, last: int,
                           rest: seq<byte>) {
    && (td == te ==> r == Some(Decoded(op, te', last, rest)))
    && (OpFollows(td, te, op) && r.Some? ==>
          r.value.op == op && r.value.last == last && r.value.rest == rest && Knows(r.value.tables, te'))
  }

  lemma KeyRoundTrip(of: StateType, key: Val, b: seq<byte>, rest: seq<byte>)
    requires EncodeKey(of, key) == Some(b) && NormalVal(key)
    ensures DecodeKey(of, b + rest) == Some((key, rest))
  {
    hide WriteScalar, ReadScalar, EncodeIndex, DecodeIndex;
    if of.IsMap() {
      ScalarRoundTrip(of.key, key, b, rest);
    } else {
      IndexRoundTrip(key, b, rest);
    }
  }

  lemma RemoveKeyRoundTrip(of: StateType, key: Val, b: seq<byte>, rest: seq<byte>)
    requires EncodeRemoveKey(of, key) == Some(b) && NormalVal(key)
    ensures DecodeRemoveKey(of, b + rest) == Some((key, rest))
  {
    hide WriteScalar, ReadScalar, EncodeIndex, DecodeIndex;
    if of.IsMap() {
      ScalarRoundTrip(of.key, key, b, rest);
    } else if of.kind.Set? {
      ScalarRoundTrip(of.element, key, b, rest);
    } else {
      IndexRoundTrip(key, b, rest);
    }
  }

  lemma CollectionOpAgrees(td: Tables, te: Tables, of: StateType, op: Op, w: Written, rest: seq<byte>)
    requires !op.Define? && EncodeCollectionOp(te, of, op) == Some(w) && Normal(op)
    ensures OpAgrees(td, te, DecodeCollectionOp(td, of, Code(op), op.target, w.bytes + rest),
                     op, w.tables, Last(op.target, w.carried), rest)
  {
    hide EncodeElement, DecodeElement, EncodeIndex, DecodeIndex, EncodeKey, DecodeKey;
    hide EncodeRemoveKey, DecodeRemoveKey, Knows, NormalVal, RefClear;
    match op
    case Set(_, key, v) =>
      var e := EncodeElement(te, of, v).value;
      var k := EncodeIndex(key).value;
      assert w.bytes + rest == k + (e.bytes + rest);
      IndexRoundTrip(key, k, e.bytes + rest);
      ElementAgrees(td, te, of, v, e, rest);
    case Add(_, key, v) =>
      var e := EncodeElement(te, of, v).value;
      var k := EncodeKey(of, key).value;
      assert w.bytes + rest == k + (e.bytes + rest);
      KeyRoundTrip(of, key, k, e.bytes + rest);
      ElementAgrees(td, te, of, v, e, rest);
    case AddToSet(_, v) =>
      ElementAgrees(td, te, of, v, w, rest);
    case Remove(_, key) =>
      RemoveKeyRoundTrip(of, key, w.bytes, rest);
    case Clear(_) =>
      assert w.bytes + rest == rest;
  }

  lemma HeaderBits(code: nat, same: bool, f: nat)
    requires code < 4 && f < 0x10
    ensures var h := 0x20 * code + (if same then HEADER_S else 0) + f;
            h < 0x100 && h / 0x20 == code && (h / HEADER_S % 2 == 1 <==> same) && h % 0x10 == f
  {
    var h := 0x20 * code + (if same then HEADER_S else 0) + f;
    assert h / HEADER_S == 2 * code + (if same then 1 else 0);
  }

  /** The header's bits and the omitted or stated target read back. */
  lemma HeaderRoundTrip(code: nat, refId: nat, last: int, field: nat, tail: seq<byte>)
    requires code < 4 && IsUint32(refId) && IsUint32(field)
    ensures var s := Header(code, refId, last, field) + tail;
            && s != []
            && s[0] / 0x20 == code && (s[0] / HEADER_S % 2 == 1 <==> refId == last)
            && s[0] % 0x10 == (if field < F_ESCAPE then field else F_ESCAPE)
            && var escaped := if field < F_ESCAPE then [] else Varint(field - F_ESCAPE);
            && ReadTarget(refId == last, last, s[1..]) == Some((refId, escaped + tail))
            && ReadField(s[0] % 0x10, escaped + tail) == Some((field, tail))
  {
    hide Varint, ReadVarint;
    HeaderBits(code, refId == last, if field < F_ESCAPE then field else F_ESCAPE);
    var s := Header(code, refId, last, field) + tail;
    assert s[0] == 0x20 * code + (if refId == last then HEADER_S else 0) + (if field < F_ESCAPE then field
                                                                            else F_ESCAPE);
    var escaped := if field < F_ESCAPE then [] else Varint(field - F_ESCAPE);
    if refId == last {
      assert s[1..] == escaped + tail;
    } else {
      VarintRoundTrip(refId, escaped + tail);
      assert s[1..] == Varint(refId) + (escaped + tail);
    }
    if field < F_ESCAPE {
      assert escaped + tail == tail;
    } else {
      VarintRoundTrip(field - F_ESCAPE, tail);
    }
  }

  lemma SetFieldAgrees(td: Tables, te: Tables, last: int, op: Op, e: Encoded, rest: seq<byte>)
    requires EncodeOp(te, last, op) == Some(e) && Normal(op)
    requires op.Set? && te.targets[op.target].Instance?
    ensures e.bytes != []
    ensures OpAgrees(td, te, DecodeOp(td, last, e.bytes + rest), op, e.tables, e.last, rest)
  {
    hide Header, EncodeValue, DecodeValue, ReadTarget, ReadField, NormalVal, RefClear;
    var layout := te.targets[op.target].layout;
    var w := EncodeValue(te, layout[op.key.n], op.value).value;
    HeaderRoundTrip(0, op.target, last, op.key.n, w.bytes + rest);
    assert e.bytes + rest == Header(0, op.target, last, op.key.n) + (w.bytes + rest);
    assert e.bytes != [] by { HeaderRoundTrip(0, op.target, last, op.key.n, w.bytes); }
    ValueAgrees(td, te, layout[op.key.n], op.value, w, rest);
  }

  lemma CollectionAgrees(td: Tables, te: Tables, last: int, op: Op, e: Encoded, rest: seq<byte>)
    requires EncodeOp(te, last, op) == Some(e) && Normal(op)
    requires !op.Define? && te.targets[op.target].Collection?
    ensures e.bytes != []
    ensures OpAgrees(td, te, DecodeOp(td, last, e.bytes + rest), op, e.tables, e.last, rest)
  {
    hide Header, EncodeCollectionOp, DecodeCollectionOp, ReadTarget, ReadField, NormalVal, RefClear;
    var of := te.targets[op.target].of;
    var w := EncodeCollectionOp(te, of, op).value;
    HeaderRoundTrip(Code(op), op.target, last, 0, w.bytes + rest);
    assert [] + (w.bytes + rest) == w.bytes + rest;
    assert e.bytes + rest == Header(Code(op), op.target, last, 0) + (w.bytes + rest);
    assert e.bytes != [] by { HeaderRoundTrip(Code(op), op.target, last, 0, w.bytes); }
    CollectionOpAgrees(td, te, of, op, w, rest);
  }

  // ------------------------------------------------------------------ DEFINE

  /** A class new to the encoder: both sides append it, or only the restating decoder did. */
  lemma DefineKeepsSound(t: Tables, op: Op)
    requires op.Define? && Sound(t) && RootIntact(t) && DefineClass(t, op).Some?
    ensures Sound(DefineClass(t, op).value) && RootIntact(DefineClass(t, op).value)
    ensures Submap(t.targets, DefineClass(t, op).value.targets) || op.classId == 0
    ensures |t.layouts| > 0 ==> DefineClass(t, op).value.targets == t.targets
  {
    hide Block, Collections, ParseAll;
  }

  lemma DefineKeepsKnows(td: Tables, te: Tables, op: Op)
    requires op.Define? && Knows(td, te)
    requires DefineClass(td, op).Some? && DefineClass(te, op).Some?
    ensures Knows(DefineClass(td, op).value, DefineClass(te, op).value)
  {
    hide Block, Collections, ParseAll, Sound;
    DefineKeepsSound(te, op);
    DefineOnlySound(td, op);
    var td', te' := DefineClass(td, op).value, DefineClass(te, op).value;
    if op.classId == |td.classes| < |te.classes| {
      RestatedEntry(te, op);
      assert td'.classes <= te'.classes;
      if op.classId == 0 {
        FirstLayout(te, op);
      }
    }
  }

  lemma DefineOnlySound(t: Tables, op: Op)
    requires op.Define? && Sound(t) && DefineClass(t, op).Some?
    ensures Sound(DefineClass(t, op).value)
  {
    hide Block, ParseAll;
  }

  lemma RestatedEntry(t: Tables, op: Op)
    requires op.Define? && Sound(t) && 0 <= op.classId < |t.classes| && DefineClass(t, op).Some?
    ensures t.classes[op.classId] == EntryOf(op)
  {
  }

  /** The root's layout is its class's types, wherever the class is known. */
  lemma FirstLayout(t: Tables, op: Op)
    requires op.Define? && op.classId == 0 && Sound(t) && t.classes != [] && t.classes[0] == EntryOf(op)
    ensures t.layouts != [] && ParseAll(op.types) == Some(t.layouts[0])
  {
    hide ParseAll;
  }

  lemma DefineBytesRoundTrip(op: Op, name: seq<byte>, fields: seq<byte>, rest: seq<byte>)
    requires op.Define? && Normal(op) && CheckDefine(op) && |op.fields| <= MAX_INT32
    requires WriteString(op.name) == Some(name) && EncodeStrings(op.fields, op.types) == Some(fields)
    ensures var s := Varint(op.classId) + name + Varint(|op.fields|) + fields + rest;
            && ReadVarint(s) == Some((op.classId, name + Varint(|op.fields|) + fields + rest))
            && ReadString(name + Varint(|op.fields|) + fields + rest)
               == Some((op.name, Varint(|op.fields|) + fields + rest))
            && ReadVarint(Varint(|op.fields|) + fields + rest) == Some((|op.fields|, fields + rest))
            && DecodeStrings(|op.fields|, fields + rest) == Some((op.fields, op.types, rest))
            && |op.fields| <= |fields|
  {
    hide Varint, ReadVarint, WriteString, ReadString, ParseAll, EncodeStrings, DecodeStrings, Utf8.NormalText;
    var n := Varint(|op.fields|);
    VarintRoundTrip(op.classId, name + n + fields + rest);
    assert Varint(op.classId) + name + n + fields + rest == Varint(op.classId) + (name + n + fields + rest);
    StringRoundTrip(op.name, name, n + fields + rest);
    assert name + n + fields + rest == name + (n + fields + rest);
    VarintRoundTrip(|op.fields|, fields + rest);
    assert n + fields + rest == n + (fields + rest);
    StringsRoundTrip(op.fields, op.types, fields, rest);
  }

  lemma DefineAgrees(td: Tables, te: Tables, last: int, op: Op, e: Encoded, rest: seq<byte>)
    requires EncodeOp(te, last, op) == Some(e) && Normal(op) && op.Define?
    ensures e.bytes != []
    ensures OpAgrees(td, te, DecodeOp(td, last, e.bytes + rest), op, e.tables, e.last, rest)
  {
    hide Varint, ReadVarint, WriteString, ReadString, ParseAll, EncodeStrings, DecodeStrings;
    hide Utf8.NormalText, NormalTexts, DefineClass, Knows, ReadTarget, ReadField, DecodeValue, DecodeCollectionOp;
    var name := WriteString(op.name).value;
    var fields := EncodeStrings(op.fields, op.types).value;
    DefineBytesRoundTrip(op, name, fields, rest);
    var s := Varint(op.classId) + name + Varint(|op.fields|) + fields + rest;
    assert e.bytes + rest == [0x80] + s;
    assert (e.bytes + rest)[1..] == s;
    if Knows(td, te) && DefineClass(td, op).Some? {
      DefineKeepsKnows(td, te, op);
    }
  }

  // ------------------------------------------------------ one op, one frame

  /** One op: the heart of both the lockstep and the partial-knowledge results. */
  lemma OpRoundTrip(td: Tables, te: Tables, last: int, op: Op, e: Encoded, rest: seq<byte>)
    requires EncodeOp(te, last, op) == Some(e) && Normal(op)
    ensures e.bytes != []
    ensures OpAgrees(td, te, DecodeOp(td, last, e.bytes + rest), op, e.tables, e.last, rest)
  {
    hide EncodeDefine, EncodeValue, EncodeCollectionOp, Normal, OpFollows, OpAgrees, DecodeOp, Header;
    if op.Define? {
      DefineAgrees(td, te, last, op, e, rest);
    } else if te.targets[op.target].Instance? {
      SetFieldAgrees(td, te, last, op, e, rest);
    } else {
      CollectionAgrees(td, te, last, op, e, rest);
    }
  }

  lemma OpGrowsLayouts(t: Tables, last: int, op: Op)
    requires EncodeOp(t, last, op).Some?
    ensures t.layouts <= EncodeOp(t, last, op).value.tables.layouts
    ensures t.classes <= EncodeOp(t, last, op).value.tables.classes
    ensures Sound(t) ==> Sound(EncodeOp(t, last, op).value.tables)
  {
    hide WriteScalar, EncodeIndex, EncodeKey, EncodeRemoveKey, Block, Header, Varint, ParseAll, WriteString,
         EncodeStrings;
  }

  lemma {:induction false} OpsGrowLayouts(t: Tables, last: int, ops: seq<Op>)
    requires EncodeOps(t, last, ops).Some?
    ensures t.layouts <= EncodeOps(t, last, ops).value.1.layouts
    ensures t.classes <= EncodeOps(t, last, ops).value.1.classes
    ensures Sound(t) ==> Sound(EncodeOps(t, last, ops).value.1)
    decreases |ops|
  {
    hide EncodeOp, Sound;
    if ops != [] {
      var e := EncodeOp(t, last, ops[0]).value;
      OpGrowsLayouts(t, last, ops[0]);
      OpsGrowLayouts(e.tables, e.last, ops[1..]);
    }
  }

  lemma DecodeOpKeepsSound(t: Tables, last: int, s: seq<byte>)
    requires s != [] && Sound(t)
    ensures DecodeOp(t, last, s).Some? ==> Sound(DecodeOp(t, last, s).value.tables)
  {
    hide ReadScalar, DecodeIndex, DecodeKey, DecodeRemoveKey, Block, ReadVarint, ReadString, DecodeStrings;
    hide ParseAll, ReadTarget, ReadField, DefineClass, DecodeSetField, DecodeCollectionOp, Sound;
    var code, same, f := s[0] / 0x20, s[0] / HEADER_S % 2 == 1, s[0] % 0x10;
    if DecodeOp(t, last, s).Some? {
      if code == 4 {
        var op := DecodeOp(t, last, s).value.op;
        DefineOnlySound(t, op);
      } else {
        var (refId, s1) := ReadTarget(same, last, s[1..]).value;
        match t.targets[refId]
        case Instance(layout) => SetFieldKeepsSound(t, layout, f, refId, s1);
        case Collection(of) => CollectionOpKeepsSound(t, of, code, refId, s1);
      }
    }
  }

  lemma SetFieldKeepsSound(t: Tables, layout: Layout, f: nat, refId: int, s: seq<byte>)
    requires Sound(t)
    ensures DecodeSetField(t, layout, f, refId, s).Some? ==> Sound(DecodeSetField(t, layout, f, refId, s).value.tables)
  {
    hide ReadScalar, Block, ReadVarint, ReadField, ParseAll;
  }

  lemma CollectionOpKeepsSound(t: Tables, of: StateType, code: nat, refId: int, s: seq<byte>)
    requires Sound(t) && code < 4
    ensures DecodeCollectionOp(t, of, code, refId, s).Some? ==>
              Sound(DecodeCollectionOp(t, of, code, refId, s).value.tables)
  {
    hide ReadScalar, DecodeIndex, DecodeKey, DecodeRemoveKey, Block, ReadVarint, ParseAll;
  }

  lemma {:induction false} DecodeKeepsSound(t: Tables, last: int, s: seq<byte>)
    requires Sound(t)
    ensures DecodeOps(t, last, s).Some? ==> Sound(DecodeOps(t, last, s).value.1)
    decreases |s|
  {
    hide DecodeOp, Sound;
    if s != [] {
      DecodeOpKeepsSound(t, last, s);
      var d := DecodeOp(t, last, s);
      if d.Some? {
        DecodeKeepsSound(d.value.tables, d.value.last, d.value.rest);
      }
    }
  }

  ghost predicate AllNormal(ops: seq<Op>) { forall i :: 0 <= i < |ops| ==> Normal(ops[i]) }

  /** No ref of the frame starts inside the root's block. */
  ghost predicate AllClear(t: Tables, ops: seq<Op>) { forall i :: 0 <= i < |ops| ==> RootClear(t, ops[i]) }

  lemma ClearEarlier(t: Tables, t': Tables, op: Op)
    requires RootClear(t', op) && t.layouts <= t'.layouts
    ensures RootClear(t, op)
  {
    if t.layouts != [] {
      assert t.layouts[0] == t'.layouts[0];
    }
  }

  /** With the encoder's tables, the decoder returns the ops and ends in the encoder's tables. */
  lemma {:induction false} OpsLockstep(t: Tables, last: int, ops: seq<Op>, b: seq<byte>, t': Tables)
    requires EncodeOps(t, last, ops) == Some((b, t')) && AllNormal(ops)
    ensures DecodeOps(t, last, b) == Some((ops, t'))
    decreases |ops|
  {
    hide EncodeOp, DecodeOp, Normal;
    if ops != [] {
      var e := EncodeOp(t, last, ops[0]).value;
      var tail := EncodeOps(e.tables, e.last, ops[1..]).value.0;
      OpRoundTrip(t, t, last, ops[0], e, tail);
      OpsLockstep(e.tables, e.last, ops[1..], tail, t');
      assert [ops[0]] + ops[1..] == ops;
    }
  }

  /**
   Knowing only part of the encoder's tables, the decoder refuses or returns
   exactly the encoder's ops, and still knows a part of its tables.
   */
  lemma {:induction false} OpsPartial(td: Tables, te: Tables, last: int, ops: seq<Op>, b: seq<byte>, te': Tables)
    requires EncodeOps(te, last, ops) == Some((b, te')) && AllNormal(ops)
    requires Knows(td, te) && AllClear(te', ops)
    ensures var d := DecodeOps(td, last, b);
            d.Some? ==> d.value.0 == ops && Knows(d.value.1, te')
    decreases |ops|
  {
    hide EncodeOp, DecodeOp, Normal, RootClear, Knows;
    if ops != [] {
      var e := EncodeOp(te, last, ops[0]).value;
      var tail := EncodeOps(e.tables, e.last, ops[1..]).value.0;
      OpsGrowLayouts(te, last, ops);
      ClearEarlier(te, te', ops[0]);
      OpRoundTrip(td, te, last, ops[0], e, tail);
      var d := DecodeOp(td, last, b);
      if d.Some? {
        OpsPartial(d.value.tables, e.tables, e.last, ops[1..], tail, te');
        assert [ops[0]] + ops[1..] == ops;
      }
    }
  }
}
