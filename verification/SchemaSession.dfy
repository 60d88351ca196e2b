/**
 A codec session as it runs: tables changed in place under an undo journal,
 ops written to a buffer or read from one, and a failed frame rolled back.
 Every method is proved against the functions of `OpCodec`.
 */
module SchemaSession {
  import opened Wrappers
  import opened Wire
  import opened StateTypes
  import opened Doubles
  import opened OpCodec
  import opened Buffers
  import Utf8
  import OpCodecProofs

  /** A refId and what it denoted before the change; `None` if it was unbound. */
  datatype Undo = Undo(refId: int, previous: Option<Target>)

  function UndoOne(targets: map<int, Target>, u: Undo): map<int, Target> {
    match u.previous
    case None => targets - {u.refId}
    case Some(target) => targets[u.refId := target]
  }

  /** The target table with the journal's entries undone, latest first. */
  function Undone(targets: map<int, Target>, journal: seq<Undo>): map<int, Target>
    decreases |journal|
  {
    if journal == [] then targets
    else Undone(UndoOne(targets, journal[|journal| - 1]), journal[..|journal| - 1])
  }

  /** The first `n + 1` refIds of a block. */
  ghost function PartBlock(refId: int, layout: Layout, n: nat): map<int, Target> {
    map k | k in Block(refId, layout) && k <= refId + n :: Block(refId, layout)[k]
  }

  lemma PartBlockSteps(m: map<int, Target>, refId: int, layout: Layout, n: nat)
    requires n <= |Collections(layout)|
    ensures m[refId := Instance(layout)] == m + PartBlock(refId, layout, 0)
    ensures n < |Collections(layout)| ==>
              (m + PartBlock(refId, layout, n))[refId + 1 + n := Collection(Collections(layout)[n])]
              == m + PartBlock(refId, layout, n + 1)
    ensures PartBlock(refId, layout, |Collections(layout)|) == Block(refId, layout)
  {
    hide Collections;
    assert InBlock(refId, layout, refId);
    if n < |Collections(layout)| {
      assert InBlock(refId, layout, refId + 1 + n);
      assert PartBlock(refId, layout, n + 1)
          == PartBlock(refId, layout, n)[refId + 1 + n := Collection(Collections(layout)[n])];
    }
    assert PartBlock(refId, layout, 0) == map[refId := Instance(layout)];
  }

  class TableStore {
    var classes: seq<ClassEntry>
    var layouts: seq<Layout>
    var targets: map<int, Target>
    var journal: seq<Undo>
    var classMark: nat

    /** The tables as they were when the frame began. */
    ghost var base: Tables

    ghost function Now(): Tables
      reads this
    {
      Tables(classes, layouts, targets)
    }

    /** The journal and the mark lead back to `base`. */
    ghost predicate Recoverable()
      reads this
    {
      && |base.classes| == |base.layouts| == classMark
      && base.classes <= classes && base.layouts <= layouts
      && Undone(targets, journal) == base.targets
    }

    constructor ()
      ensures Recoverable() && Now() == FRESH && base == FRESH
    {
      classes, layouts, targets, journal, classMark := [], [], map[], [], 0;
      base := FRESH;
    }

    method Begin()
      requires |classes| == |layouts|
      modifies this
      ensures Recoverable() && Now() == old(Now()) && base == Now()
    {
      journal := [];
      classMark := |layouts|;
      base := Tables(classes, layouts, targets);
    }

    /** However much the frame changed, the tables are those it began with. */
    method Rollback()
      requires Recoverable()
      modifies this
      ensures Recoverable() && Now() == old(base) && base == old(base)
    {
      var i := |journal|;
      assert journal[..i] == journal;
      while i > 0
        invariant 0 <= i <= |journal|
        invariant Undone(targets, journal[..i]) == base.targets
        invariant journal == old(journal) && classes == old(classes) && layouts == old(layouts)
        invariant classMark == old(classMark) && base == old(base)
      {
        i := i - 1;
        assert journal[..i + 1][..i] == journal[..i];
        var entry := journal[i];
        if entry.previous == None {
          targets := targets - {entry.refId};
        } else {
          targets := targets[entry.refId := entry.previous.value];
        }
      }
      journal := [];
      if |layouts| > classMark {
        layouts := layouts[..classMark];
      }
      if classMark < |classes| {
        classes := classes[..classMark];
      }
    }

    method SetTarget(refId: int, target: Target)
      requires Recoverable()
      modifies this`targets, this`journal
      ensures Recoverable() && targets == old(targets)[refId := target]
    {
      var previous := if refId in targets then Some(targets[refId]) else None;
      ghost var before := targets;
      journal := journal + [Undo(refId, previous)];
      targets := targets[refId := target];
      assert UndoOne(targets, Undo(refId, previous)) == before;
      assert journal[..|journal| - 1] == old(journal);
    }

    /** Binds the instance and its collections, one refId after the other. */
    method Bind(refId: int, layout: Layout)
      requires Recoverable()
      modifies this`targets, this`journal
      ensures Recoverable() && Now() == OpCodec.Bind(old(Now()), refId, layout)
    {
      hide Block, Collections, InBlock, TargetAt, PartBlock;
      PartBlockSteps(old(targets), refId, layout, 0);
      SetTarget(refId, Instance(layout));
      var collections := Collections(layout);
      for i := 0 to |collections|
        invariant Recoverable() && targets == old(targets) + PartBlock(refId, layout, i)
      {
        PartBlockSteps(old(targets), refId, layout, i);
        SetTarget(refId + 1 + i, Collection(collections[i]));
      }
      PartBlockSteps(old(targets), refId, layout, |collections|);
    }

    method BindRef(classId: int, refId: int) returns (ok: bool)
      requires Recoverable()
      modifies this`targets, this`journal
      ensures Recoverable()
      ensures ok == OpCodec.BindRef(old(Now()), classId, refId).Some?
      ensures Now() == if ok then OpCodec.BindRef(old(Now()), classId, refId).value else old(Now())
    {
      if classId < 0 || classId >= |layouts| {
        return false;
      }
      var layout := layouts[classId];
      if refId + |Collections(layout)| > MAX_UINT32 {
        return false;
      }
      Bind(refId, layout);
      return true;
    }

    /** A shape-checked DEFINE: a restatement, or the next class. */
    method Define(op: Op) returns (ok: bool)
      requires Recoverable() && op.Define? && CheckDefine(op)
      modifies this
      ensures Recoverable() && base == old(base)
      ensures ok == DefineClass(old(Now()), op).Some?
      ensures ok ==> Now() == DefineClass(old(Now()), op).value
    {
      if 0 <= op.classId < |classes| {
        return SameAs(classes[op.classId], EntryOf(op));
      }
      if op.classId != |classes| {
        return false;
      }
      classes := classes + [EntryOf(op)];
      var types := [];
      for i := 0 to |op.types|
        invariant Recoverable() && base == old(base) && classes == old(classes) + [EntryOf(op)]
        invariant layouts == old(layouts) && targets == old(targets)
        invariant ParseAll(op.types[..i]) == Some(types)
      {
        ParsedSoFar(op.types, i);
        types := types + [Parse(op.types[i]).value];
      }
      assert op.types[..|op.types|] == op.types;
      layouts := layouts + [types];
      if op.classId == 0 {
        Bind(0, types);
      }
      return true;
    }
  }

  lemma {:induction false} ParseAppend(a: seq<string>, b: string)
    ensures ParseAll(a + [b]).Some? <==> ParseAll(a).Some? && Parse(b).Some?
    ensures ParseAll(a + [b]).Some? ==> ParseAll(a + [b]).value == ParseAll(a).value + [Parse(b).value]
  {
    hide Parse;
    if a == [] {
      assert a + [b] == [b] && ParseAll([b][1..]) == Some([]);
    } else {
      assert (a + [b])[0] == a[0] && (a + [b])[1..] == a[1..] + [b];
      ParseAppend(a[1..], b);
    }
  }

  lemma {:induction false} ParsePrefix(texts: seq<string>, k: nat)
    requires k <= |texts| && ParseAll(texts).Some?
    ensures ParseAll(texts[..k]).Some?
    decreases |texts| - k
  {
    hide Parse, ParseAll;
    if k == |texts| {
      assert texts[..k] == texts;
    } else {
      ParsePrefix(texts, k + 1);
      assert texts[..k + 1] == texts[..k] + [texts[k]];
      ParseAppend(texts[..k], texts[k]);
    }
  }

  lemma ParsedSoFar(texts: seq<string>, k: nat)
    requires k < |texts| && ParseAll(texts).Some?
    ensures Parse(texts[k]).Some? && ParseAll(texts[..k]).Some?
    ensures ParseAll(texts[..k + 1]) == Some(ParseAll(texts[..k]).value + [Parse(texts[k]).value])
  {
    hide Parse, ParseAll;
    ParsePrefix(texts, k + 1);
    assert texts[..k + 1] == texts[..k] + [texts[k]];
    ParseAppend(texts[..k], texts[k]);
  }

  class Session {
    const tables: TableStore

    constructor ()
      ensures Settled() && fresh(tables) && tables.Now() == FRESH
    {
      tables := new TableStore();
    }

    /** Between frames every class has its id as position and its parsed types as layout. */
    ghost predicate Settled()
      reads tables
    {
      OpCodecProofs.Sound(tables.Now())
    }

    // --------------------------------------------------------------- encoder

    static method WriteText(out: ByteWriter, text: string) returns (ok: bool)
      requires out.Valid()
      modifies out, out.bytes
      ensures out.Valid() && (fresh(out.bytes) || out.bytes == old(out.bytes))
      ensures ok == WriteString(text).Some?
      ensures ok ==> out.Contents() == old(out.Contents()) + WriteString(text).value
    {
      var utf8 := Utf8.Encode(Utf8.WireText(text));
      if |utf8| > MAX_INT32 {
        return false;
      }
      out.Text(utf8);
      return true;
    }

    static method WriteScalar(out: ByteWriter, of: Scalar, v: Val) returns (ok: bool)
      requires out.Valid()
      modifies out, out.bytes
      ensures out.Valid() && (fresh(out.bytes) || out.bytes == old(out.bytes))
      ensures ok == OpCodec.WriteScalar(of, v).Some?
      ensures ok ==> out.Contents() == old(out.Contents()) + OpCodec.WriteScalar(of, v).value
    {
      hide WriteString, LittleEndian, Varint;
      match of {
        case Float64 =>
          if !v.F64? { return false; }
          out.Bytes(LittleEndian(WireDouble(v.bits), 8));
        case Float32 =>
          if !v.F32? { return false; }
          out.Bytes(LittleEndian(WireSingle(v.word), 4));
        case Text =>
          if !v.Str? { return false; }
          ok := WriteText(out, v.s);
          return;
        case Bool =>
          if !v.Flag? { return false; }
          out.U8(if v.b then 1 else 0);
        case Fixed(_) =>
          if !v.Num? || !IsInt32(v.n) { return false; }
          out.Varint(Zigzag(v.n));
        case Integer(kind) =>
          if !v.Num? || !(kind.Min() <= v.n <= kind.Max()) { return false; }
          match kind {
            case Int8 | UInt8 => out.U8(v.n % 0x100);
            case Int16 | Int32 => out.Varint(Zigzag(v.n));
            case UInt16 | UInt32 => out.Varint(v.n);
          }
      }
      return true;
    }

    static method EncodeIndex(out: ByteWriter, v: Val) returns (ok: bool)
      requires out.Valid()
      modifies out, out.bytes
      ensures out.Valid() && (fresh(out.bytes) || out.bytes == old(out.bytes))
      ensures ok == OpCodec.EncodeIndex(v).Some?
      ensures ok ==> out.Contents() == old(out.Contents()) + OpCodec.EncodeIndex(v).value
    {
      if !v.Num? || !IsUint32(v.n) {
        return false;
      }
      out.Varint(v.n);
      return true;
    }

    method EncodeRef(out: ByteWriter, v: Val) returns (ok: bool, carried: Option<int>)
      requires out.Valid() && tables.Recoverable()
      modifies out, out.bytes, tables`targets, tables`journal
      ensures out.Valid() && (fresh(out.bytes) || out.bytes == old(out.bytes)) && tables.Recoverable()
      ensures ok == OpCodec.EncodeRef(old(tables.Now()), v).Some?
      ensures ok ==> WroteExactly(old(out.Contents()), out.Contents(), tables.Now(), carried,
                                  OpCodec.EncodeRef(old(tables.Now()), v).value)
    {
      hide Varint;
      carried := None;
      if !v.Ref? || !IsUint32(v.classId) || !IsUint32(v.refId) {
        return false, carried;
      }
      var bound := tables.BindRef(v.classId, v.refId);
      if !bound {
        return false, carried;
      }
      out.Varint(v.classId);
      out.Varint(v.refId);
      return true, Some(v.refId);
    }

    method EncodeValue(out: ByteWriter, of: StateType, v: Val) returns (ok: bool, carried: Option<int>)
      requires out.Valid() && tables.Recoverable()
      modifies out, out.bytes, tables`targets, tables`journal
      ensures out.Valid() && (fresh(out.bytes) || out.bytes == old(out.bytes)) && tables.Recoverable()
      ensures ok == OpCodec.EncodeValue(old(tables.Now()), of, v).Some?
      ensures ok ==> WroteExactly(old(out.Contents()), out.Contents(), tables.Now(), carried,
                                  OpCodec.EncodeValue(old(tables.Now()), of, v).value)
    {
      hide OpCodec.EncodeRef, OpCodec.WriteScalar;
      carried, ok := None, false;
      if of.kind.Schema? {
        ok, carried := EncodeRef(out, v);
      } else if of.kind.Primitive? || of.kind.Int? {
        ok := WriteScalar(out, of.element, v);
      }
    }

    method EncodeElement(out: ByteWriter, of: StateType, v: Val) returns (ok: bool, carried: Option<int>)
      requires out.Valid() && tables.Recoverable()
      modifies out, out.bytes, tables`targets, tables`journal
      ensures out.Valid() && (fresh(out.bytes) || out.bytes == old(out.bytes)) && tables.Recoverable()
      ensures ok == OpCodec.EncodeElement(old(tables.Now()), of, v).Some?
      ensures ok ==> WroteExactly(old(out.Contents()), out.Contents(), tables.Now(), carried,
                                  OpCodec.EncodeElement(old(tables.Now()), of, v).value)
    {
      hide OpCodec.EncodeRef, OpCodec.WriteScalar;
      carried := None;
      if of.HoldsSchemas() {
        ok, carried := EncodeRef(out, v);
      } else {
        ok := WriteScalar(out, of.element, v);
      }
    }

    method EncodeCollectionOp(out: ByteWriter, of: StateType, op: Op) returns (ok: bool, carried: Option<int>)
      requires out.Valid() && tables.Recoverable() && !op.Define?
      modifies out, out.bytes, tables`targets, tables`journal
      ensures out.Valid() && (fresh(out.bytes) || out.bytes == old(out.bytes)) && tables.Recoverable()
      ensures ok == OpCodec.EncodeCollectionOp(old(tables.Now()), of, op).Some?
      ensures ok ==> WroteExactly(old(out.Contents()), out.Contents(), tables.Now(), carried,
                                  OpCodec.EncodeCollectionOp(old(tables.Now()), of, op).value)
    {
      hide OpCodec.EncodeElement, OpCodec.WriteScalar, OpCodec.EncodeIndex;
      carried, ok := None, true;
      match op {
        case Set(_, key, v) =>
          if !of.IsArray() { return false, carried; }
          ok := EncodeIndex(out, key);
          if ok { ok, carried := EncodeElement(out, of, v); }
        case Add(_, key, v) =>
          if of.IsSet() { return false, carried; }
          if of.IsMap() { ok := WriteScalar(out, of.key, key); } else { ok := EncodeIndex(out, key); }
          if ok { ok, carried := EncodeElement(out, of, v); }
        case AddToSet(_, v) =>
          if !of.IsSet() { return false, carried; }
          ok, carried := EncodeElement(out, of, v);
        case Remove(_, key) =>
          if of.IsMap() { ok := WriteScalar(out, of.key, key); }
          else if of.kind.Set? { ok := WriteScalar(out, of.element, key); }
          else { ok := EncodeIndex(out, key); }
        case Clear(_) =>
      }
    }

    static method WriteHeader(out: ByteWriter, code: nat, refId: nat, last: int, field: nat)
      requires out.Valid() && code < 4 && IsUint32(refId) && IsUint32(field)
      modifies out, out.bytes
      ensures out.Valid() && (fresh(out.bytes) || out.bytes == old(out.bytes))
      ensures out.Contents() == old(out.Contents()) + Header(code, refId, last, field)
    {
      hide Varint;
      var same := if refId == last then HEADER_S else 0;
      var f := if field < F_ESCAPE then field else F_ESCAPE;
      out.U8(0x20 * code + same + f);
      if same == 0 {
        out.Varint(refId);
      }
      if f == F_ESCAPE {
        out.Varint(field - F_ESCAPE);
      }
    }

    static method WriteDefine(out: ByteWriter, op: Op) returns (ok: bool)
      requires out.Valid() && op.Define? && CheckDefine(op) && |op.fields| <= MAX_INT32
      modifies out, out.bytes
      ensures out.Valid() && (fresh(out.bytes) || out.bytes == old(out.bytes))
      ensures ok == DefineBytes(op).Some?
      ensures ok ==> out.Contents() == old(out.Contents()) + DefineBytes(op).value
    {
      hide Varint, WriteString, ParseAll, EncodeStrings, DefineHead;
      ok := WriteDefineHead(out, op);
      if ok {
        ok := WriteStrings(out, op.fields, op.types);
      }
    }

    static method WriteDefineHead(out: ByteWriter, op: Op) returns (ok: bool)
      requires out.Valid() && op.Define? && CheckDefine(op) && |op.fields| <= MAX_INT32
      modifies out, out.bytes
      ensures out.Valid() && (fresh(out.bytes) || out.bytes == old(out.bytes))
      ensures ok == DefineHead(op).Some?
      ensures ok ==> out.Contents() == old(out.Contents()) + DefineHead(op).value
    {
      hide Varint, WriteString, ParseAll;
      out.U8(0x80);
      out.Varint(op.classId);
      ok := WriteText(out, op.name);
      if ok {
        out.Varint(|op.fields|);
      }
    }

    method EncodeDefine(out: ByteWriter, op: Op) returns (ok: bool)
      requires out.Valid() && tables.Recoverable() && op.Define?
      modifies out, out.bytes, tables
      ensures out.Valid() && (fresh(out.bytes) || out.bytes == old(out.bytes))
      ensures tables.Recoverable() && tables.base == old(tables.base)
      ensures ok == OpCodec.EncodeDefine(old(tables.Now()), op).Some?
      ensures ok ==> out.Contents() == old(out.Contents()) + OpCodec.EncodeDefine(old(tables.Now()), op).value.0
      ensures ok ==> tables.Now() == OpCodec.EncodeDefine(old(tables.Now()), op).value.1
    {
      hide DefineBytes, ParseAll, DefineClass;
      if !CheckDefine(op) || |op.fields| > MAX_INT32 {
        return false;
      }
      ok := tables.Define(op);
      if ok {
        ok := WriteDefine(out, op);
      }
    }

    static method WriteStrings(out: ByteWriter, fields: seq<string>, types: seq<string>) returns (ok: bool)
      requires out.Valid() && |fields| == |types|
      modifies out, out.bytes
      ensures out.Valid() && (fresh(out.bytes) || out.bytes == old(out.bytes))
      ensures ok == EncodeStrings(fields, types).Some?
      ensures ok ==> out.Contents() == old(out.Contents()) + EncodeStrings(fields, types).value
    {
      hide WriteString;
      ghost var all := EncodeStrings(fields, types);
      for i := 0 to |fields|
        invariant out.Valid() && (fresh(out.bytes) || out.bytes == old(out.bytes))
        invariant all.Some? == EncodeStrings(fields[i..], types[i..]).Some?
        invariant all.Some? ==>
                    out.Contents() + EncodeStrings(fields[i..], types[i..]).value == old(out.Contents()) + all.value
      {
        assert fields[i..][1..] == fields[i + 1..] && types[i..][1..] == types[i + 1..];
        ok := WriteText(out, fields[i]);
        if !ok { return; }
        ok := WriteText(out, types[i]);
        if !ok { return; }
      }
      return true;
    }

    method EncodeOp(out: ByteWriter, op: Op, last: int) returns (ok: bool, newLast: int)
      requires out.Valid() && tables.Recoverable()
      modifies out, out.bytes, tables
      ensures out.Valid() && (fresh(out.bytes) || out.bytes == old(out.bytes))
      ensures tables.Recoverable() && tables.base == old(tables.base)
      ensures ok == OpCodec.EncodeOp(old(tables.Now()), last, op).Some?
      ensures ok ==> var e := OpCodec.EncodeOp(old(tables.Now()), last, op).value;
                     out.Contents() == old(out.Contents()) + e.bytes && tables.Now() == e.tables && newLast == e.last
    {
      hide Header, OpCodec.EncodeValue, OpCodec.EncodeCollectionOp, OpCodec.EncodeDefine;
      newLast := last;
      if op.Define? {
        ok := EncodeDefine(out, op);
        return;
      }
      if !IsUint32(op.target) || op.target !in tables.targets {
        return false, last;
      }
      var target := tables.targets[op.target];
      var carried: Option<int>;
      if target.Instance? {
        if !op.Set? || !op.key.Num? || !IsUint32(op.key.n) || op.key.n >= |target.layout| {
          return false, last;
        }
        WriteHeader(out, 0, op.target, last, op.key.n);
        ok, carried := EncodeValue(out, target.layout[op.key.n], op.value);
      } else {
        WriteHeader(out, Code(op), op.target, last, 0);
        ok, carried := EncodeCollectionOp(out, target.of, op);
      }
      newLast := Last(op.target, carried);
    }

    /**
     One frame. The body and the tables are those of `EncodeFrame`; a refused
     frame leaves the session as it was.
     */
    method EncodeOps(ops: seq<Op>) returns (body: Option<seq<byte>>)
      requires Settled()
      modifies tables
      ensures Settled()
      ensures match EncodeFrame(old(tables.Now()), ops)
              case None => body == None && tables.Now() == old(tables.Now())
              case Some((b, t)) => body == Some(b) && tables.Now() == t
    {
      hide OpCodec.EncodeOp, TableStore.Recoverable;
      var out := new ByteWriter();
      tables.Begin();
      ghost var t0 := tables.Now();
      ghost var all := OpCodec.EncodeOps(t0, 0, ops);
      var last := 0;
      for i := 0 to |ops|
        invariant out.Valid() && fresh(out) && fresh(out.bytes) && tables.Recoverable() && tables.base == t0
        invariant OpCodec.EncodeOps(tables.Now(), last, ops[i..]).Some? == all.Some?
        invariant all.Some? ==>
                    var rest := OpCodec.EncodeOps(tables.Now(), last, ops[i..]).value;
                    out.Contents() + rest.0 == all.value.0 && rest.1 == all.value.1
      {
        assert ops[i..][0] == ops[i] && ops[i..][1..] == ops[i + 1..];
        var ok;
        ok, last := EncodeOp(out, ops[i], last);
        if !ok {
          tables.Rollback();
          return None;
        }
      }
      assert out.Contents() + [] == out.Contents();
      OpCodecProofs.OpsGrowLayouts(t0, 0, ops);
      return Some(out.bytes[..out.length]);
    }

    // --------------------------------------------------------------- decoder

    static method ReadText(input: ByteReader) returns (text: string)
      requires input.Valid()
      modifies input
      ensures input.Valid() && input.Rest() == After(old(input.Rest()), ReadString)
      ensures input.Rest().Some? ==> text == ReadString(old(input.Rest()).value).value.0
    {
      hide ReadVarint, Utf8.Decode;
      var n := input.Varint();
      if input.failed || n > |input.data| - input.pos {
        input.Fail();
        return "";
      }
      var utf8 := input.Take(n);
      var decoded := Utf8.Decode(utf8);
      if decoded.None? {
        input.Fail();
        return "";
      }
      return decoded.value;
    }

    static method ReadInt(input: ByteReader, kind: IntKind) returns (n: int)
      requires input.Valid()
      modifies input
      ensures input.Valid() && input.Rest() == After(old(input.Rest()), s => OpCodec.ReadInt(kind, s))
      ensures input.Rest().Some? ==> n == OpCodec.ReadInt(kind, old(input.Rest()).value).value.0
    {
      hide ReadVarint;
      match kind {
        case Int8 | UInt8 =>
          var b := input.U8();
          n := if kind.Int8? && b >= 0x80 then b as int - 0x100 else b;
        case Int16 | Int32 =>
          var z := input.Varint();
          n := Unzigzag(z);
        case UInt16 | UInt32 =>
          n := input.Varint();
      }
      if n < kind.Min() || n > kind.Max() {
        input.Fail();
      }
    }

    static method ReadScalar(input: ByteReader, of: Scalar) returns (v: Val)
      requires input.Valid()
      modifies input
      ensures input.Valid() && input.Rest() == After(old(input.Rest()), s => OpCodec.ReadScalar(of, s))
      ensures input.Rest().Some? ==> v == OpCodec.ReadScalar(of, old(input.Rest()).value).value.0
    {
      hide ReadVarint, ReadString, OpCodec.ReadInt, FromLittleEndian, LittleEndianValue;
      v := Null;
      match of {
        case Float64 =>
          var b := input.Take(8);
          if !input.failed { v := F64(LittleEndianValue(b, 8)); }
        case Float32 =>
          var b := input.Take(4);
          if !input.failed { v := F32(LittleEndianValue(b, 4)); }
        case Text =>
          var text := ReadText(input);
          v := Str(text);
        case Bool =>
          var b := input.U8();
          if b > 1 { input.Fail(); }
          v := Flag(b == 1);
        case Fixed(_) =>
          var z := input.Varint();
          v := Num(Unzigzag(z));
        case Integer(kind) =>
          var n := ReadInt(input, kind);
          v := Num(n);
      }
    }

    static method DecodeKeyOf(input: ByteReader, of: Option<Scalar>) returns (v: Val)
      requires input.Valid()
      modifies input
      ensures input.Valid()
      ensures input.Rest() == After(old(input.Rest()), s =>
                if of.Some? then OpCodec.ReadScalar(of.value, s) else DecodeIndex(s))
      ensures input.Rest().Some? ==>
                v == (if of.Some? then OpCodec.ReadScalar(of.value, old(input.Rest()).value)
                      else DecodeIndex(old(input.Rest()).value)).value.0
    {
      hide ReadVarint, OpCodec.ReadScalar;
      if of.Some? {
        v := ReadScalar(input, of.value);
      } else {
        var n := input.Varint();
        v := Num(n);
      }
    }

    method DecodeRef(input: ByteReader) returns (v: Val)
      requires input.Valid() && tables.Recoverable()
      modifies input, tables`targets, tables`journal
      ensures input.Valid() && tables.Recoverable()
      ensures ReadExactly(old(input.Rest()), input.Rest(), v, tables.Now(),
                          s => OpCodec.DecodeRef(old(tables.Now()), s))
    {
      hide ReadVarint, OpCodec.BindRef;
      var classId := input.Varint();
      var refId := input.Varint();
      if input.failed {
        return Null;
      }
      var bound := tables.BindRef(classId, refId);
      if !bound {
        input.Fail();
        return Null;
      }
      return Ref(classId, refId);
    }

    method DecodeValue(input: ByteReader, of: StateType) returns (v: Val)
      requires input.Valid() && tables.Recoverable()
      modifies input, tables`targets, tables`journal
      ensures input.Valid() && tables.Recoverable()
      ensures ReadExactly(old(input.Rest()), input.Rest(), v, tables.Now(),
                          s => OpCodec.DecodeValue(old(tables.Now()), of, s))
    {
      hide OpCodec.DecodeRef, OpCodec.ReadScalar;
      if of.kind.Schema? {
        v := DecodeRef(input);
      } else if !of.kind.Primitive? && !of.kind.Int? {
        input.Fail();
        v := Null;
      } else {
        v := ReadScalar(input, of.element);
      }
    }

    method DecodeElement(input: ByteReader, of: StateType) returns (v: Val)
      requires input.Valid() && tables.Recoverable()
      modifies input, tables`targets, tables`journal
      ensures input.Valid() && tables.Recoverable()
      ensures ReadExactly(old(input.Rest()), input.Rest(), v, tables.Now(),
                          s => OpCodec.DecodeElement(old(tables.Now()), of, s))
    {
      hide OpCodec.DecodeRef, OpCodec.ReadScalar;
      if of.HoldsSchemas() {
        v := DecodeRef(input);
      } else {
        v := ReadScalar(input, of.element);
      }
    }

    method DecodeCollectionOp(input: ByteReader, of: StateType, code: nat, refId: int)
      returns (op: Option<Op>, last: int)
      requires input.Valid() && tables.Recoverable() && code < 4
      modifies input, tables`targets, tables`journal
      ensures input.Valid() && tables.Recoverable()
      ensures DecodedExactly(old(input.Rest()), input.Rest(), op, last, tables.Now(),
                             s => OpCodec.DecodeCollectionOp(old(tables.Now()), of, code, refId, s))
    {
      hide OpCodec.DecodeElement, OpCodec.ReadScalar, DecodeIndex;
      op, last := None, refId;
      if code == 0 {
        if !of.IsArray() {
          input.Fail();
          return;
        }
        var index := DecodeKeyOf(input, None);
        var v := DecodeElement(input, of);
        op, last := Some(Op.Set(refId, index, v)), Last(refId, CarriedBy(v));
      } else if code == 1 && of.IsSet() {
        var v := DecodeElement(input, of);
        op, last := Some(AddToSet(refId, v)), Last(refId, CarriedBy(v));
      } else if code == 1 {
        var key := DecodeKeyOf(input, if of.IsMap() then Some(of.key) else None);
        var v := DecodeElement(input, of);
        op, last := Some(Add(refId, key, v)), Last(refId, CarriedBy(v));
      } else if code == 2 {
        var key := DecodeKeyOf(input, if of.IsMap() then Some(of.key) else if of.kind.Set? then Some(of.element)
                               else None);
        op := Some(Remove(refId, key));
      } else {
        op := Some(Clear(refId));
      }
    }

    static method ReadStrings(input: ByteReader, count: nat) returns (fields: seq<string>, types: seq<string>)
      requires input.Valid()
      modifies input
      ensures input.Valid()
      ensures match old(input.Rest())
              case None => input.Rest() == None
              case Some(s) =>
                match DecodeStrings(count, s)
                case None => input.Rest() == None
                case Some((names, texts, rest)) => input.Rest() == Some(rest) && fields == names && types == texts
    {
      hide ReadString, DecodeStrings, StringsResume;
      fields, types := [], [];
      ghost var before := input.Rest();
      ghost var all := if before.Some? then DecodeStrings(count, before.value) else None;
      if before.Some? { StringsStart(count, before.value); }
      var i := 0;
      while i < count && !input.failed
        invariant 0 <= i <= count && input.Valid()
        invariant before.None? ==> input.Rest() == None
        invariant before.Some? && input.Rest().None? ==> all == None
        invariant before.Some? && input.Rest().Some? ==> StringsResume(all, fields, types, count - i,
                                                                       input.Rest().value)
      {
        ghost var rest := input.Rest();
        if before.Some? { StringsStep(all, fields, types, count - i, rest.value); }
        var field := ReadText(input);
        var of := ReadText(input);
        fields, types := fields + [field], types + [of];
        i := i + 1;
      }
      if before.Some? && input.Rest().Some? { StringsEnd(all, fields, types, input.Rest().value); }
    }

    method DecodeDefine(input: ByteReader, ghost last: int) returns (op: Option<Op>)
      requires input.Valid() && tables.Recoverable()
      modifies input, tables
      ensures input.Valid() && tables.Recoverable() && tables.base == old(tables.base)
      ensures DecodedExactly(old(input.Rest()), input.Rest(), op, last, tables.Now(),
                             s => OpCodec.DecodeDefine(old(tables.Now()), last, s))
    {
      hide ReadVarint, ReadString, DecodeStrings, DefineClass, ParseAll;
      op := None;
      var classId := input.Varint();
      var name := ReadText(input);
      var count := input.Varint();
      if input.failed || count > |input.data| - input.pos {
        input.Fail();
        return;
      }
      var fields, types := ReadStrings(input, count);
      if input.failed {
        return;
      }
      var define := Define(classId, name, fields, types);
      if !CheckDefine(define) {
        input.Fail();
        return;
      }
      var ok := tables.Define(define);
      if !ok {
        input.Fail();
        return;
      }
      op := Some(define);
    }

    method DecodeSetField(input: ByteReader, layout: Layout, f: nat, refId: int) returns (op: Option<Op>, last: int)
      requires input.Valid() && tables.Recoverable()
      modifies input, tables`targets, tables`journal
      ensures input.Valid() && tables.Recoverable()
      ensures DecodedExactly(old(input.Rest()), input.Rest(), op, last, tables.Now(),
                             s => OpCodec.DecodeSetField(old(tables.Now()), layout, f, refId, s))
    {
      hide ReadVarint, OpCodec.DecodeValue;
      op, last := None, refId;
      var field := f;
      if f == F_ESCAPE {
        var escaped := input.Varint();
        field := F_ESCAPE + escaped;
      }
      if input.failed {
        return;
      }
      if field >= |layout| {
        input.Fail();
        return;
      }
      var v := DecodeValue(input, layout[field]);
      op, last := Some(Op.Set(refId, Num(field), v)), Last(refId, CarriedBy(v));
    }

    method DecodeOp(input: ByteReader, last: int) returns (op: Option<Op>, newLast: int)
      requires input.Valid() && tables.Recoverable() && !input.failed && !input.Done()
      modifies input, tables
      ensures input.Valid() && tables.Recoverable() && tables.base == old(tables.base)
      ensures DecodedExactly(old(input.Rest()), input.Rest(), op, newLast, tables.Now(),
                             s requires s != [] => OpCodec.DecodeOp(old(tables.Now()), last, s))
    {
      hide ReadVarint, OpCodec.DecodeSetField, OpCodec.DecodeCollectionOp, OpCodec.DecodeDefine;
      op, newLast := None, last;
      var header := input.U8();
      var code, same, f := header / 0x20, header / HEADER_S % 2 == 1, header % 0x10;
      if code == 4 {
        if same || f != 0 {
          input.Fail();
          return;
        }
        op := DecodeDefine(input, last);
        return;
      }
      if code > 4 {
        input.Fail();
        return;
      }
      var refId := last;
      if !same {
        refId := input.Varint();
      }
      if input.failed {
        return;
      }
      if refId !in tables.targets {
        input.Fail();
        return;
      }
      var target := tables.targets[refId];
      if target.Instance? {
        if code != 0 {
          input.Fail();
          return;
        }
        op, newLast := DecodeSetField(input, target.layout, f, refId);
        return;
      }
      if f != 0 {
        input.Fail();
        return;
      }
      op, newLast := DecodeCollectionOp(input, target.of, code, refId);
    }

    /** One more op of a frame, after those in `list`. */
    method DecodeNext(input: ByteReader, last: int, list: seq<Op>, ghost all: Option<(seq<Op>, Tables)>)
      returns (longer: seq<Op>, newLast: int)
      requires input.Valid() && tables.Recoverable() && !input.failed && !input.Done()
      requires Follows(all, list, tables.Now(), last, input.Rest())
      modifies input, tables
      ensures input.Valid() && tables.Recoverable() && tables.base == old(tables.base)
      ensures Follows(all, longer, tables.Now(), newLast, input.Rest())
      ensures input.Rest().Some? ==> |input.Rest().value| < |old(input.Rest()).value|
    {
      hide OpCodec.DecodeOp, OpCodec.DecodeOps, TableStore.Recoverable, Resumes;
      ghost var t, s := tables.Now(), input.Rest().value;
      ResumeStep(all, list, t, last, s);
      var op;
      op, newLast := DecodeOp(input, last);
      longer := if op.Some? then list + [op.value] else list;
    }

    /**
     One frame. The ops and the tables are those of `DecodeFrame`; a refused
     frame leaves the session as it was.
     */
    method DecodeOps(data: seq<byte>) returns (ops: Option<seq<Op>>)
      requires Settled()
      modifies tables
      ensures Settled()
      ensures match DecodeFrame(old(tables.Now()), data)
              case None => ops == None && tables.Now() == old(tables.Now())
              case Some((list, t)) => ops == Some(list) && tables.Now() == t
    {
      hide OpCodec.DecodeOps, TableStore.Recoverable, Follows;
      var input := new ByteReader(data);
      tables.Begin();
      ghost var t0 := tables.Now();
      ghost var all := OpCodec.DecodeOps(t0, 0, data);
      var list := [];
      var last := 0;
      FollowsAll(t0, data);
      while !input.failed && !input.Done()
        invariant input.Valid() && fresh(input)
        invariant tables.Recoverable() && tables.base == t0
        invariant Follows(all, list, tables.Now(), last, input.Rest())
        decreases input.Rest().Some?, if input.failed then 0 else |input.Rest().value|
      {
        list, last := DecodeNext(input, last, list, all);
      }
      FollowsEnd(all, list, tables.Now(), last, input.Rest());
      if input.failed {
        tables.Rollback();
        return None;
      }
      OpCodecProofs.DecodeKeepsSound(t0, 0, data);
      return Some(list);
    }
  }

  /** A method wrote exactly `w`: its bytes, its tables and its carried refId. */
  ghost predicate WroteExactly(before: seq<byte>, after: seq<byte>, now: Tables, carried: Option<int>, w: Written) {
    after == before + w.bytes && now == w.tables && carried == w.carried
  }

  /**
   A method read what `r` reads from the bytes left: on success its value,
   tables and remaining bytes; a failed input stays failed.
   */
  ghost predicate ReadExactly(before: Option<seq<byte>>, after: Option<seq<byte>>, v: Val, now: Tables,
                              r: seq<byte> -> Option<Read>) {
    match before
    case None => after == None
    case Some(s) =>
      match r(s)
      case None => after == None
      case Some(read) => after == Some(read.rest) && v == read.v && now == read.tables
  }

  /** `ReadExactly`, for a whole op. */
  ghost predicate DecodedExactly(before: Option<seq<byte>>, after: Option<seq<byte>>, op: Option<Op>, last: int,
                                 now: Tables, r: seq<byte> --> Option<Decoded>)
    requires before.Some? ==> r.requires(before.value)
  {
    match before
    case None => after == None
    case Some(s) =>
      match r(s)
      case None => after == None
      case Some(d) => after == Some(d.rest) && op == Some(d.op) && last == d.last && now == d.tables
  }

  /** The whole frame's result is the ops read so far, then those of what is left. */
  ghost predicate Resumes(all: Option<(seq<Op>, Tables)>, list: seq<Op>, rest: Option<(seq<Op>, Tables)>) {
    match rest
    case None => all == None
    case Some((ops, t)) => all.Some? && all.value.0 == list + ops && all.value.1 == t
  }

  /** As `Resumes`, with the bytes left in the reader; a failed reader has none. */
  ghost predicate Follows(all: Option<(seq<Op>, Tables)>, list: seq<Op>, t: Tables, last: int,
                          rest: Option<seq<byte>>) {
    if rest == None then all == None else Resumes(all, list, DecodeOps(t, last, rest.value))
  }

  lemma FollowsAll(t: Tables, data: seq<byte>)
    ensures Follows(DecodeOps(t, 0, data), [], t, 0, Some(data))
  {
    hide DecodeOps;
    if DecodeOps(t, 0, data).Some? {
      assert [] + DecodeOps(t, 0, data).value.0 == DecodeOps(t, 0, data).value.0;
    }
  }

  lemma FollowsEnd(all: Option<(seq<Op>, Tables)>, list: seq<Op>, t: Tables, last: int, rest: Option<seq<byte>>)
    requires Follows(all, list, t, last, rest) && (rest.Some? ==> rest.value == [])
    ensures rest == None ==> all == None
    ensures rest.Some? ==> all == Some((list, t))
  {
    if rest.Some? {
      ResumeStep(all, list, t, last, []);
    }
  }

  lemma ResumeStep(all: Option<(seq<Op>, Tables)>, list: seq<Op>, t: Tables, last: int, s: seq<byte>)
    requires Resumes(all, list, DecodeOps(t, last, s))
    ensures s == [] ==> all == Some((list, t))
    ensures s != [] ==>
              match DecodeOp(t, last, s)
              case None => all == None
              case Some(d) => Resumes(all, list + [d.op], DecodeOps(d.tables, d.last, d.rest))
  {
    hide DecodeOp;
    if s == [] {
      assert list + [] == list;
    } else if DecodeOp(t, last, s).Some? {
      var d := DecodeOp(t, last, s).value;
      var rest := DecodeOps(d.tables, d.last, d.rest);
      if rest.Some? {
        assert list + ([d.op] + rest.value.0) == list + [d.op] + rest.value.0;
      }
    }
  }

  /** The declaration's strings are those read so far, then those still to read. */
  ghost predicate StringsResume(all: Option<(seq<string>, seq<string>, seq<byte>)>, fields: seq<string>,
                                types: seq<string>, count: nat, s: seq<byte>) {
    match DecodeStrings(count, s)
    case None => all == None
    case Some((names, texts, rest)) =>
      all.Some? && all.value.0 == fields + names && all.value.1 == types + texts && all.value.2 == rest
  }

  lemma StringsStart(count: nat, s: seq<byte>)
    ensures StringsResume(DecodeStrings(count, s), [], [], count, s)
  {
    hide DecodeStrings;
    if DecodeStrings(count, s).Some? {
      var (names, texts, _) := DecodeStrings(count, s).value;
      assert [] + names == names && [] + texts == texts;
    }
  }

  lemma StringsStep(all: Option<(seq<string>, seq<string>, seq<byte>)>, fields: seq<string>, types: seq<string>,
                    count: nat, s: seq<byte>)
    requires 0 < count && StringsResume(all, fields, types, count, s)
    ensures ReadString(s).None? ==> all == None
    ensures ReadString(s).Some? ==>
              var (name, s1) := ReadString(s).value;
              && (ReadString(s1).None? ==> all == None)
              && (ReadString(s1).Some? ==>
                    var (of, s2) := ReadString(s1).value;
                    StringsResume(all, fields + [name], types + [of], count - 1, s2))
  {
    hide ReadString;
    if ReadString(s).Some? {
      var (name, s1) := ReadString(s).value;
      if ReadString(s1).Some? {
        var (of, s2) := ReadString(s1).value;
        var tail := DecodeStrings(count - 1, s2);
        if tail.Some? {
          assert fields + ([name] + tail.value.0) == fields + [name] + tail.value.0;
          assert types + ([of] + tail.value.1) == types + [of] + tail.value.1;
        }
      }
    }
  }

  lemma StringsEnd(all: Option<(seq<string>, seq<string>, seq<byte>)>, fields: seq<string>, types: seq<string>,
                   s: seq<byte>)
    ensures StringsResume(all, fields, types, 0, s) ==> all == Some((fields, types, s))
  {
    assert fields + [] == fields && types + [] == types;
  }
}
