/**
 The MessagePack subset of control bodies and of the `messagepack` codec: the
 int, float, str, bin, array and map families of the "Formats" section of the
 MessagePack specification. A float that is a whole number in the safe range
 travels as an integer, an integer beyond that range as a float.
 */
module MessagePack {
  import opened Wrappers
  import opened Wire
  import opened Doubles
  import Utf8

  datatype Value =
    | Nil
    | Flag(b: bool)
    | Int(n: int)
    | Float(bits: bits64)
    | Text(s: string)
    | Bin(data: seq<byte>)
    | List(items: seq<Value>)
    | Dict(entries: seq<Entry>)

  datatype Entry = Entry(key: string, value: Value)

  const MAX_DEPTH: nat := 512

  // ------------------------------------------------------------------ writing

  /** A value of `size` bytes in two's complement. */
  function Signed(n: int, size: nat): (s: seq<byte>)
    requires n + Range256(size) >= 0
  {
    BigEndian(if n >= 0 then n else n + Range256(size), size)
  }

  function WriteInt(n: int): seq<byte>
    requires -MAX_SAFE <= n <= MAX_SAFE
  {
    Ranges();
    if n >= 0 then
      if n <= 0x7f then [n]
      else if n <= 0xff then [0xcc] + BigEndian(n, 1)
      else if n <= 0xffff then [0xcd] + BigEndian(n, 2)
      else if n <= 0xffff_ffff then [0xce] + BigEndian(n, 4)
      else [0xcf] + BigEndian(n, 8)
    else if n >= -32 then [n + 0x100]
    else if n >= -0x80 then [0xd0] + Signed(n, 1)
    else if n >= -0x8000 then [0xd1] + Signed(n, 2)
    else if n >= -0x8000_0000 then [0xd2] + Signed(n, 4)
    else [0xd3] + Signed(n, 8)
  }

  lemma Ranges()
    ensures Range256(1) == 0x100 && Range256(2) == 0x1_0000 && Range256(4) == 0x1_0000_0000
    ensures Range256(8) == 0x1_0000_0000_0000_0000
  {
    assert Range256(2) == 0x1_0000;
    assert Range256(4) == 0x1_0000_0000;
    assert Range256(6) == 0x1_0000_0000_0000;
  }

  predicate IsSafe(n: int) { -MAX_SAFE <= n <= MAX_SAFE }

  /** A float 64; every NaN has one pattern. */
  function WriteFloat(bits: bits64): seq<byte> { [0xcb] + BigEndian(WireDouble(bits), 8) }

  /** Strings and keys; U+0000 is written as U+FFFD. */
  function WriteText(s: string): Option<seq<byte>> {
    var b := Utf8.Encode(Utf8.WireText(s));
    var n := |b|;
    if n <= 31 then Some([0xa0 + n] + b)
    else if n <= 0xff then Some([0xd9] + BigEndian(n, 1) + b)
    else if n <= 0xffff then Some([0xda] + BigEndian(n, 2) + b)
    else if n <= MAX_INT32 then Some([0xdb] + BigEndian(n, 4) + b)
    else None
  }

  function WriteBin(b: seq<byte>): Option<seq<byte>> {
    var n := |b|;
    if n <= 0xff then Some([0xc4] + BigEndian(n, 1) + b)
    else if n <= 0xffff then Some([0xc5] + BigEndian(n, 2) + b)
    else if n <= MAX_INT32 then Some([0xc6] + BigEndian(n, 4) + b)
    else None
  }

  /** An array or map header: `short` holds up to 15, `wide` and the code after it 16 and 32 bits. */
  function Header(count: nat, short: byte, wide: byte): Option<seq<byte>>
    requires short + 15 < 256 && wide + 1 < 256
  {
    if count <= 15 then Some([short + count])
    else if count <= 0xffff then Some([wide] + BigEndian(count, 2))
    else if count <= MAX_INT32 then Some([wide + 1] + BigEndian(count, 4))
    else None
  }

  function Write(v: Value, depth: nat): Option<seq<byte>>
    decreases v, 1
  {
    if depth > MAX_DEPTH then None
    else match v
      case Nil => Some([0xc0])
      case Flag(b) => Some([if b then 0xc3 else 0xc2])
      case Int(n) =>
        if IsSafe(n) then Some(WriteInt(n)) else if IsInt64(n) then Some(WriteFloat(DoubleOf(n))) else None
      case Float(bits) => Some(if WholeOf(bits).Some? then WriteInt(WholeOf(bits).value) else WriteFloat(bits))
      case Text(s) => WriteText(s)
      case Bin(data) => WriteBin(data)
      case List(items) =>
        var header :- Header(|items|, 0x90, 0xdc);
        var body :- WriteItems(items, depth);
        Some(header + body)
      case Dict(entries) =>
        var header :- Header(|entries|, 0x80, 0xde);
        var body :- WriteEntries(entries, depth);
        Some(header + body)
  }

  function WriteItems(items: seq<Value>, depth: nat): Option<seq<byte>>
    decreases items, 0
  {
    if items == [] then Some([])
    else
      var first :- Write(items[0], depth + 1);
      var rest :- WriteItems(items[1..], depth);
      Some(first + rest)
  }

  function WriteEntries(entries: seq<Entry>, depth: nat): Option<seq<byte>>
    decreases entries, 0
  {
    if entries == [] then Some([])
    else
      var first :- WriteEntry(entries[0], depth);
      var rest :- WriteEntries(entries[1..], depth);
      Some(first + rest)
  }

  function WriteEntry(e: Entry, depth: nat): Option<seq<byte>>
    decreases e, 1
  {
    var key :- WriteText(e.key);
    var value :- Write(e.value, depth + 1);
    Some(key + value)
  }

  function Encode(v: Value): Option<seq<byte>> { Write(v, 0) }

  // ------------------------------------------------------------------ reading

  /** A big-endian number of `size` bytes. */
  function ReadNumber(s: seq<byte>, size: nat): (r: Option<(nat, seq<byte>)>)
    ensures r.Some? ==> |r.value.1| <= |s| && r.value.0 < Range256(size)
  {
    var (b, rest) :- Take(s, size);
    BigEndianBound(b);
    Some((FromBigEndian(b), rest))
  }

  lemma {:induction false} BigEndianBound(b: seq<byte>)
    ensures FromBigEndian(b) < Range256(|b|)
    decreases |b|
  {
    if b != [] {
      BigEndianBound(b[..|b| - 1]);
    }
  }

  function ReadSigned(s: seq<byte>, size: nat): (r: Option<(Value, seq<byte>)>)
    ensures r.Some? ==> |r.value.1| <= |s|
  {
    var (n, rest) :- ReadNumber(s, size);
    Some((Int(if 2 * n < Range256(size) then n else n - Range256(size)), rest))
  }

  /** How many elements follow; a count that the bytes left cannot hold is refused. */
  function ReadLength(s: seq<byte>, size: nat): (r: Option<(nat, seq<byte>)>)
    ensures r.Some? ==> r.value.0 <= |r.value.1| <= |s|
  {
    var (n, rest) :- ReadNumber(s, size);
    if n <= |rest| then Some((n, rest)) else None
  }

  function ReadText(s: seq<byte>, count: nat): (r: Option<(Value, seq<byte>)>)
    ensures r.Some? ==> |r.value.1| <= |s|
  {
    var (b, rest) :- Take(s, count);
    var text :- Utf8.Decode(b);
    Some((Text(text), rest))
  }

  function ReadBin(s: seq<byte>, count: nat): (r: Option<(Value, seq<byte>)>)
    ensures r.Some? ==> |r.value.1| <= |s|
  {
    var (b, rest) :- Take(s, count);
    Some((Bin(b), rest))
  }

  function Read(s: seq<byte>, depth: nat): (r: Option<(Value, seq<byte>)>)
    ensures r.Some? ==> |r.value.1| < |s|
    decreases |s|, 0
  {
    if depth > MAX_DEPTH || s == [] then None
    else
      var head, rest := s[0], s[1..];
      if head <= 0x7f then Some((Int(head), rest))
      else if head >= 0xe0 then Some((Int(head as int - 0x100), rest))
      else if head <= 0x8f then ReadMap(rest, head - 0x80, depth)
      else if head <= 0x9f then ReadArray(rest, head - 0x90, depth)
      else if head <= 0xbf then ReadText(rest, head - 0xa0)
      else ReadLong(head, rest, depth)
  }

  /** The types with a length, a width or no content. */
  function ReadLong(head: byte, rest: seq<byte>, depth: nat): (r: Option<(Value, seq<byte>)>)
    requires depth <= MAX_DEPTH
    ensures r.Some? ==> |r.value.1| <= |rest|
    decreases |rest|, 3
  {
    if head == 0xc0 then Some((Nil, rest))
    else if head == 0xc2 then Some((Flag(false), rest))
    else if head == 0xc3 then Some((Flag(true), rest))
    else if head == 0xca || head == 0xcb then ReadFloat(head, rest)
    else if 0xcc <= head <= 0xcf then ReadUnsigned(head, rest)
    else if 0xd0 <= head <= 0xd3 then ReadSigned(rest, Width(head - 0xd0))
    else if 0xc4 <= head <= 0xc6 then
      var (n, after) :- ReadLength(rest, Width(head - 0xc4));
      ReadBin(after, n)
    else if 0xd9 <= head <= 0xdb then
      var (n, after) :- ReadLength(rest, Width(head - 0xd9));
      ReadText(after, n)
    else if 0xdc <= head <= 0xdd then
      var (n, after) :- ReadLength(rest, Width(head - 0xdb));
      ReadArray(after, n, depth)
    else if 0xde <= head <= 0xdf then
      var (n, after) :- ReadLength(rest, Width(head - 0xdd));
      ReadMap(after, n, depth)
    else None
  }

  /** 1, 2, 4 or 8 bytes. */
  function Width(k: nat): nat { if k == 0 then 1 else if k == 1 then 2 else if k == 2 then 4 else 8 }

  /** A float 64, or a float 32 widened to one. */
  function ReadFloat(head: byte, s: seq<byte>): (r: Option<(Value, seq<byte>)>)
    ensures r.Some? ==> |r.value.1| <= |s|
  {
    Ranges();
    if head == 0xca then
      var (n, rest) :- ReadNumber(s, 4);
      Some((Float(Widen(n)), rest))
    else
      var (n, rest) :- ReadNumber(s, 8);
      Some((Float(n), rest))
  }

  /** A uint 64 above the largest int 64 is read as the nearest float. */
  function ReadUnsigned(head: byte, s: seq<byte>): (r: Option<(Value, seq<byte>)>)
    requires 0xcc <= head <= 0xcf
    ensures r.Some? ==> |r.value.1| <= |s|
  {
    Ranges();
    var (n, rest) :- ReadNumber(s, Width(head - 0xcc));
    Some((if n <= 0x7FFF_FFFF_FFFF_FFFF then Int(n) else Float(DoubleOf(n)), rest))
  }

  function ReadArray(s: seq<byte>, count: nat, depth: nat): (r: Option<(Value, seq<byte>)>)
    ensures r.Some? ==> |r.value.1| <= |s|
    decreases |s|, 2
  {
    if count > |s| then None
    else
      var (items, rest) :- ReadItems(s, count, depth);
      Some((List(items), rest))
  }

  function ReadItems(s: seq<byte>, count: nat, depth: nat): (r: Option<(seq<Value>, seq<byte>)>)
    ensures r.Some? ==> |r.value.1| <= |s|
    decreases |s|, 1
  {
    if count == 0 then Some(([], s))
    else
      var (first, after) :- Read(s, depth + 1);
      var (items, rest) :- ReadItems(after, count - 1, depth);
      Some(([first] + items, rest))
  }

  function ReadMap(s: seq<byte>, count: nat, depth: nat): (r: Option<(Value, seq<byte>)>)
    ensures r.Some? ==> |r.value.1| <= |s|
    decreases |s|, 2
  {
    if count > |s| then None
    else
      var (entries, rest) :- ReadEntries(s, count, depth, {});
      Some((Dict(entries), rest))
  }

  /** Entries whose keys are strings, not `__proto__` and not repeated; `seen` are the keys before. */
  function ReadEntries(s: seq<byte>, count: nat, depth: nat, seen: set<string>): (r: Option<(seq<Entry>, seq<byte>)>)
    ensures r.Some? ==> |r.value.1| <= |s|
    decreases |s|, 1
  {
    if count == 0 then Some(([], s))
    else
      var (key, after) :- Read(s, depth + 1);
      if !key.Text? || key.s == "__proto__" then None
      else
        var (first, next) :- Read(after, depth + 1);
        if key.s in seen then None
        else
          var (entries, rest) :- ReadEntries(next, count - 1, depth, seen + {key.s});
          Some(([Entry(key.s, first)] + entries, rest))
  }

  function Decode(s: seq<byte>): Option<Value> {
    var (v, rest) :- Read(s, 0);
    if rest == [] then Some(v) else None
  }

  // --------------------------------------------------------------- round trip

  /** The value as it is decoded. */
  function NormalValue(v: Value): (r: Value)
    ensures r.Nil? <==> v.Nil?
    decreases v, 1
  {
    match v
    case Int(n) => if IsSafe(n) || !IsInt64(n) then v else Float(DoubleOf(n))
    case Float(bits) => if WholeOf(bits).Some? then Int(WholeOf(bits).value) else Float(WireDouble(bits))
    case Text(s) => Text(Utf8.WireText(s))
    case List(items) => List(NormalList(items))
    case Dict(entries) => Dict(NormalEntries(entries))
    case _ => v
  }

  function NormalList(items: seq<Value>): (r: seq<Value>)
    ensures |r| == |items| && forall i :: 0 <= i < |items| ==> r[i] == NormalValue(items[i])
    decreases items, 0
  {
    if items == [] then [] else [NormalValue(items[0])] + NormalList(items[1..])
  }

  function NormalEntries(entries: seq<Entry>): (r: seq<Entry>)
    ensures |r| == |entries| && forall i :: 0 <= i < |entries| ==> r[i] == NormalEntry(entries[i])
    decreases entries, 0
  {
    if entries == [] then [] else [NormalEntry(entries[0])] + NormalEntries(entries[1..])
  }

  function NormalEntry(e: Entry): Entry
    decreases e, 1
  {
    Entry(Utf8.WireText(e.key), NormalValue(e.value))
  }

  /** No two keys are alike on the wire, and none is `__proto__` or among those before. */
  predicate KeysApart(entries: seq<Entry>, seen: set<string>) {
    && (forall i :: 0 <= i < |entries| ==>
          Utf8.WireText(entries[i].key) != "__proto__" && Utf8.WireText(entries[i].key) !in seen)
    && (forall i, j :: 0 <= i < j < |entries| ==> Utf8.WireText(entries[i].key) != Utf8.WireText(entries[j].key))
  }

  /** Every map, however deep, has keys that a decoder accepts. */
  predicate Readable(v: Value)
    decreases v
  {
    match v
    case List(items) => forall i :: 0 <= i < |items| ==> Readable(items[i])
    case Dict(entries) => KeysApart(entries, {}) && forall i :: 0 <= i < |entries| ==> ReadableEntry(entries[i])
    case _ => true
  }

  predicate ReadableEntry(e: Entry)
    decreases e
  {
    Readable(e.value)
  }

  lemma NumberRoundTrip(n: nat, size: nat, rest: seq<byte>)
    requires n < Range256(size)
    ensures ReadNumber(BigEndian(n, size) + rest, size) == Some((n, rest))
  {
    hide BigEndian, FromBigEndian;
    BigEndianRoundTrip(n, size);
    var s := BigEndian(n, size) + rest;
    assert s[..size] == BigEndian(n, size) && s[size..] == rest;
  }

  lemma SignedRoundTrip(n: int, size: nat, rest: seq<byte>)
    requires 0 <= 2 * n + Range256(size) && 2 * n < Range256(size)
    ensures ReadSigned(Signed(n, size) + rest, size) == Some((Int(n), rest))
  {
    NumberRoundTrip(if n >= 0 then n else n + Range256(size), size, rest);
  }

  /** Reading by the first byte. */
  lemma ReadsLong(head: byte, tail: seq<byte>, depth: nat)
    requires depth <= MAX_DEPTH && 0xc0 <= head < 0xe0
    ensures Read([head] + tail, depth) == ReadLong(head, tail, depth)
  {
    hide ReadLong;
    assert ([head] + tail)[1..] == tail;
  }

  lemma IntRoundTrip(n: int, rest: seq<byte>, depth: nat)
    requires IsSafe(n) && depth <= MAX_DEPTH
    ensures Read(WriteInt(n) + rest, depth) == Some((Int(n), rest))
  {
    Ranges();
    if -32 <= n <= 0x7f {
      var head: byte := if n >= 0 then n else n + 0x100;
      assert WriteInt(n) + rest == [head] + rest && ([head] + rest)[1..] == rest;
    } else if n > 0 {
      UnsignedRoundTrip(n, rest, depth);
    } else {
      NegativeRoundTrip(n, rest, depth);
    }
  }

  lemma UnsignedRoundTrip(n: int, rest: seq<byte>, depth: nat)
    requires 0x7f < n <= MAX_SAFE && depth <= MAX_DEPTH
    ensures Read(WriteInt(n) + rest, depth) == Some((Int(n), rest))
  {
    Ranges();
    var k := if n <= 0xff then 0 else if n <= 0xffff then 1 else if n <= 0xffff_ffff then 2 else 3;
    var size := Width(k);
    assert WriteInt(n) + rest == [0xcc + k] + (BigEndian(n, size) + rest);
    NumberRoundTrip(n, size, rest);
    ReadsLong(0xcc + k, BigEndian(n, size) + rest, depth);
  }

  lemma NegativeRoundTrip(n: int, rest: seq<byte>, depth: nat)
    requires -MAX_SAFE <= n < -32 && depth <= MAX_DEPTH
    ensures Read(WriteInt(n) + rest, depth) == Some((Int(n), rest))
  {
    Ranges();
    var k := if n >= -0x80 then 0 else if n >= -0x8000 then 1 else if n >= -0x8000_0000 then 2 else 3;
    var size := Width(k);
    assert WriteInt(n) + rest == [0xd0 + k] + (Signed(n, size) + rest);
    SignedRoundTrip(n, size, rest);
    ReadsLong(0xd0 + k, Signed(n, size) + rest, depth);
  }

  lemma LengthRoundTrip(n: nat, size: nat, tail: seq<byte>)
    requires n < Range256(size) && n <= |tail|
    ensures ReadLength(BigEndian(n, size) + tail, size) == Some((n, tail))
  {
    hide BigEndian, FromBigEndian;
    NumberRoundTrip(n, size, tail);
  }

  lemma TextBody(s: string, rest: seq<byte>)
    ensures var b := Utf8.Encode(Utf8.WireText(s)); ReadText(b + rest, |b|) == Some((Text(Utf8.WireText(s)), rest))
  {
    hide Utf8.Encode, Utf8.Decode;
    Utf8.WireTextDecodes(s);
    var b := Utf8.Encode(Utf8.WireText(s));
    assert (b + rest)[..|b|] == b && (b + rest)[|b|..] == rest;
  }

  lemma TextRoundTrip(s: string, b: seq<byte>, rest: seq<byte>, depth: nat)
    requires WriteText(s) == Some(b) && depth <= MAX_DEPTH
    ensures Read(b + rest, depth) == Some((Text(Utf8.WireText(s)), rest)) && |b| >= 1
  {
    hide Utf8.Encode, Utf8.WireText;
    var t := Utf8.Encode(Utf8.WireText(s));
    TextBody(s, rest);
    var n := |t|;
    if n <= 31 {
      assert b + rest == [0xa0 + n] + (t + rest) && ([0xa0 + n] + (t + rest))[1..] == t + rest;
    } else {
      var k := if n <= 0xff then 0 else if n <= 0xffff then 1 else 2;
      assert b + rest == [0xd9 + k] + (BigEndian(n, Width(k)) + (t + rest));
      hide Read, ReadText;
      ReadsLong(0xd9 + k, BigEndian(n, Width(k)) + (t + rest), depth);
      LongText(k, n, t + rest, depth);
    }
  }

  lemma LongText(k: nat, n: nat, tail: seq<byte>, depth: nat)
    requires k <= 2 && n <= (if k == 0 then 0xff else if k == 1 then 0xffff else MAX_INT32) && n <= |tail|
             && depth <= MAX_DEPTH
    ensures ReadLong(0xd9 + k, BigEndian(n, Width(k)) + tail, depth) == ReadText(tail, n)
  {
    Ranges();
    hide ReadText, BigEndian, ReadNumber, Range256;
    LengthRoundTrip(n, Width(k), tail);
    hide ReadLength;
  }

  lemma BinRoundTrip(data: seq<byte>, b: seq<byte>, rest: seq<byte>, depth: nat)
    requires WriteBin(data) == Some(b) && depth <= MAX_DEPTH
    ensures Read(b + rest, depth) == Some((Bin(data), rest))
  {
    Ranges();
    var n := |data|;
    var k := if n <= 0xff then 0 else if n <= 0xffff then 1 else 2;
    assert b + rest == [0xc4 + k] + (BigEndian(n, Width(k)) + (data + rest));
    LengthRoundTrip(n, Width(k), data + rest);
    ReadsLong(0xc4 + k, BigEndian(n, Width(k)) + (data + rest), depth);
    assert (data + rest)[..n] == data && (data + rest)[n..] == rest;
  }

  /** A header leads to what follows it, as long as that has a byte for each element. */
  lemma ArrayHeader(count: nat, header: seq<byte>, tail: seq<byte>, depth: nat)
    requires Header(count, 0x90, 0xdc) == Some(header) && count <= |tail| && depth <= MAX_DEPTH
    ensures Read(header + tail, depth) == ReadArray(tail, count, depth) && |header| >= 1
  {
    if count <= 15 {
      ShortArray(count, tail, depth);
    } else {
      hide Read, ReadArray, BigEndian;
      var k := if count <= 0xffff then 1 else 2;
      assert header + tail == [0xdb + k] + (BigEndian(count, Width(k)) + tail);
      ReadsLong(0xdb + k, BigEndian(count, Width(k)) + tail, depth);
      LongArray(k, count, tail, depth);
    }
  }

  lemma ShortArray(count: nat, tail: seq<byte>, depth: nat)
    requires count <= 15 && depth <= MAX_DEPTH
    ensures Read([0x90 + count] + tail, depth) == ReadArray(tail, count, depth)
  {
    hide ReadArray, ReadLong;
    assert ([0x90 + count] + tail)[1..] == tail;
  }

  lemma LongArray(k: nat, count: nat, tail: seq<byte>, depth: nat)
    requires 1 <= k <= 2 && count <= (if k == 1 then 0xffff else MAX_INT32) && count <= |tail| && depth <= MAX_DEPTH
    ensures ReadLong(0xdb + k, BigEndian(count, Width(k)) + tail, depth) == ReadArray(tail, count, depth)
  {
    Ranges();
    hide ReadArray, BigEndian, ReadNumber, Range256;
    LengthRoundTrip(count, Width(k), tail);
    hide ReadLength;
  }

  lemma MapHeader(count: nat, header: seq<byte>, tail: seq<byte>, depth: nat)
    requires Header(count, 0x80, 0xde) == Some(header) && count <= |tail| && depth <= MAX_DEPTH
    ensures Read(header + tail, depth) == ReadMap(tail, count, depth) && |header| >= 1
  {
    if count <= 15 {
      ShortMap(count, tail, depth);
    } else {
      hide Read, ReadMap, BigEndian;
      var k := if count <= 0xffff then 1 else 2;
      assert header + tail == [0xdd + k] + (BigEndian(count, Width(k)) + tail);
      ReadsLong(0xdd + k, BigEndian(count, Width(k)) + tail, depth);
      LongMap(k, count, tail, depth);
    }
  }

  lemma ShortMap(count: nat, tail: seq<byte>, depth: nat)
    requires count <= 15 && depth <= MAX_DEPTH
    ensures Read([0x80 + count] + tail, depth) == ReadMap(tail, count, depth)
  {
    hide ReadMap, ReadLong;
    assert ([0x80 + count] + tail)[1..] == tail;
  }

  lemma LongMap(k: nat, count: nat, tail: seq<byte>, depth: nat)
    requires 1 <= k <= 2 && count <= (if k == 1 then 0xffff else MAX_INT32) && count <= |tail| && depth <= MAX_DEPTH
    ensures ReadLong(0xdd + k, BigEndian(count, Width(k)) + tail, depth) == ReadMap(tail, count, depth)
  {
    Ranges();
    hide ReadMap, BigEndian, ReadNumber, Range256;
    LengthRoundTrip(count, Width(k), tail);
    hide ReadLength;
  }

  /** Every value takes at least a byte, so a count never exceeds the bytes after it. */
  lemma WrittenIsSomething(v: Value, depth: nat)
    requires Write(v, depth).Some?
    ensures |Write(v, depth).value| >= 1
  {
    hide WriteItems, WriteEntries, Utf8.Encode;
  }

  lemma {:induction false} ItemsTakeBytes(items: seq<Value>, depth: nat)
    requires WriteItems(items, depth).Some?
    ensures |items| <= |WriteItems(items, depth).value|
    decreases |items|
  {
    hide Write;
    if items != [] {
      WrittenIsSomething(items[0], depth + 1);
      ItemsTakeBytes(items[1..], depth);
    }
  }

  lemma {:induction false} EntriesTakeBytes(entries: seq<Entry>, depth: nat)
    requires WriteEntries(entries, depth).Some?
    ensures |entries| <= |WriteEntries(entries, depth).value|
    decreases |entries|
  {
    hide Write, WriteText;
    if entries != [] {
      WrittenIsSomething(entries[0].value, depth + 1);
      EntriesTakeBytes(entries[1..], depth);
    }
  }

  /** What reading what was written gives: the value as the wire has it and what follows, or nothing. */
  function Reading(v: Value, rest: seq<byte>): Option<(Value, seq<byte>)> {
    if Readable(v) then Some((NormalValue(v), rest)) else None
  }

  /** Exactly the readable values are read back, each as the wire has it, with what follows it. */
  lemma {:induction false} ReadOfWrite(v: Value, depth: nat, b: seq<byte>, rest: seq<byte>)
    requires Write(v, depth) == Some(b)
    ensures Read(b + rest, depth) == Reading(v, rest)
    decreases v, 1
  {
    hide Read, WriteInt, WriteText, WriteBin, WriteItems, WriteEntries, WriteFloat, Header, WholeOf, DoubleOf;
    match v {
      case Nil => ReadsLeaf(0xc0, rest, depth);
      case Flag(f) => ReadsLeaf(if f then 0xc3 else 0xc2, rest, depth);
      case Int(n) =>
        if IsSafe(n) {
          IntRoundTrip(n, rest, depth);
        } else {
          FloatRoundTrip(DoubleOf(n), rest, depth);
        }
      case Float(bits) =>
        if WholeOf(bits).Some? {
          IntRoundTrip(WholeOf(bits).value, rest, depth);
        } else {
          FloatRoundTrip(bits, rest, depth);
        }
      case Text(s) => TextRoundTrip(s, b, rest, depth);
      case Bin(data) => BinRoundTrip(data, b, rest, depth);
      case List(items) =>
        ItemsTakeBytes(items, depth);
        var header, body := Header(|items|, 0x90, 0xdc).value, WriteItems(items, depth).value;
        assert b + rest == header + (body + rest);
        ArrayHeader(|items|, header, body + rest, depth);
        ReadOfItems(items, depth, body, rest);
        hide ReadItems;
      case Dict(entries) =>
        EntriesTakeBytes(entries, depth);
        var header, body := Header(|entries|, 0x80, 0xde).value, WriteEntries(entries, depth).value;
        assert b + rest == header + (body + rest);
        MapHeader(|entries|, header, body + rest, depth);
        ReadOfEntries(entries, depth, body, rest, {});
        hide ReadEntries;
    }
  }

  lemma ReadsLeaf(head: byte, rest: seq<byte>, depth: nat)
    requires depth <= MAX_DEPTH && (head == 0xc0 || head == 0xc2 || head == 0xc3)
    ensures Read([head] + rest, depth) == Some((if head == 0xc0 then Nil else Flag(head == 0xc3), rest))
  {
    ReadsLong(head, rest, depth);
  }

  lemma FloatRoundTrip(bits: bits64, rest: seq<byte>, depth: nat)
    requires depth <= MAX_DEPTH
    ensures Read(WriteFloat(bits) + rest, depth) == Some((Float(WireDouble(bits)), rest))
  {
    hide BigEndian;
    Ranges();
    var w := WireDouble(bits);
    assert WriteFloat(bits) + rest == [0xcb] + (BigEndian(w, 8) + rest);
    NumberRoundTrip(w, 8, rest);
    ReadsLong(0xcb, BigEndian(w, 8) + rest, depth);
  }

  predicate AllReadable(items: seq<Value>) { forall i :: 0 <= i < |items| ==> Readable(items[i]) }

  lemma {:induction false} ReadOfItems(items: seq<Value>, depth: nat, b: seq<byte>, rest: seq<byte>)
    requires WriteItems(items, depth) == Some(b)
    ensures ReadItems(b + rest, |items|, depth) ==
            if AllReadable(items) then Some((NormalList(items), rest)) else None
    decreases items, 0
  {
    hide Read, Write, Readable, NormalValue;
    if items == [] {
      assert b + rest == rest;
    } else {
      var first, more := Write(items[0], depth + 1).value, WriteItems(items[1..], depth).value;
      assert b + rest == first + (more + rest);
      ReadOfWrite(items[0], depth + 1, first, more + rest);
      ReadOfItems(items[1..], depth, more, rest);
      FirstReadable(items);
    }
  }

  lemma FirstReadable(items: seq<Value>)
    requires items != []
    ensures AllReadable(items) <==> Readable(items[0]) && AllReadable(items[1..])
  {
    hide Readable;
    assert forall i :: 1 <= i < |items| ==> items[i] == items[1..][i - 1];
  }

  predicate AllAccepted(entries: seq<Entry>, seen: set<string>) {
    KeysApart(entries, seen) && forall i :: 0 <= i < |entries| ==> ReadableEntry(entries[i])
  }

  lemma FirstAccepted(entries: seq<Entry>, seen: set<string>)
    requires entries != []
    ensures var key := Utf8.WireText(entries[0].key);
            AllAccepted(entries, seen) <==>
            key != "__proto__" && key !in seen && ReadableEntry(entries[0]) && AllAccepted(entries[1..], seen + {key})
  {
    hide ReadableEntry, Utf8.WireText;
    var rest := entries[1..];
    assert forall i :: 1 <= i < |entries| ==> entries[i] == rest[i - 1];
    if AllAccepted(rest, seen + {Utf8.WireText(entries[0].key)}) {
      forall i, j | 0 <= i < j < |entries|
        ensures i > 0 ==> Utf8.WireText(entries[i].key) != Utf8.WireText(entries[j].key)
        ensures i == 0 ==> Utf8.WireText(entries[0].key) != Utf8.WireText(entries[j].key)
      {
        assert entries[j] == rest[j - 1];
        if i > 0 {
          assert entries[i] == rest[i - 1];
        }
      }
    }
  }

  lemma {:induction false} ReadOfEntries(entries: seq<Entry>, depth: nat, b: seq<byte>, rest: seq<byte>,
                                         seen: set<string>)
    requires WriteEntries(entries, depth) == Some(b)
    ensures ReadEntries(b + rest, |entries|, depth, seen) ==
            if AllAccepted(entries, seen) then Some((NormalEntries(entries), rest)) else None
    decreases entries, 0
  {
    hide Read, Write, WriteText, AllAccepted, NormalValue, Utf8.WireText;
    if entries == [] {
      assert b + rest == rest;
      NoneAccepted(seen);
    } else {
      var e := entries[0];
      var one, more := WriteEntry(e, depth).value, WriteEntries(entries[1..], depth).value;
      ReadOfEntry(e, depth, one, more + rest);
      var key := WriteText(e.key).value;
      assert b + rest == key + (one[|key|..] + (more + rest));
      ReadOfEntries(entries[1..], depth, more, rest, seen + {Utf8.WireText(e.key)});
      FirstAccepted(entries, seen);
      hide Readable;
    }
  }

  lemma NoneAccepted(seen: set<string>)
    ensures AllAccepted([], seen)
  {
  }

  lemma {:induction false} ReadOfEntry(e: Entry, depth: nat, b: seq<byte>, rest: seq<byte>)
    requires WriteEntry(e, depth) == Some(b)
    ensures var key := WriteText(e.key).value;
            && |key| <= |b| && b == key + b[|key|..]
            && Read(key + (b[|key|..] + rest), depth + 1) == Some((Text(Utf8.WireText(e.key)), b[|key|..] + rest))
            && Read(b[|key|..] + rest, depth + 1) == Reading(e.value, rest)
    decreases e, 1
  {
    hide Read, Write, Readable, WriteText, Utf8.WireText;
    var key, value := WriteText(e.key).value, Write(e.value, depth + 1).value;
    assert b[|key|..] == value;
    ValueIsShallow(e.value, depth + 1);
    TextRoundTrip(e.key, key, value + rest, depth + 1);
    ReadOfWrite(e.value, depth + 1, value, rest);
  }

  lemma ValueIsShallow(v: Value, depth: nat)
    requires Write(v, depth).Some?
    ensures depth <= MAX_DEPTH
  {
  }

  /** What decoding an encoding gives, for every value that encodes; nothing is left over and no guard fires. */
  lemma DecodesTo(v: Value)
    requires Encode(v).Some?
    ensures Decode(Encode(v).value) == if Readable(v) then Some(NormalValue(v)) else None
  {
    hide Read, Write, Readable, NormalValue;
    var b := Encode(v).value;
    assert b + [] == b;
    ReadOfWrite(v, 0, b, []);
  }

  // ------------------------------------------------- what comes back unchanged

  predicate UniqueKeys(entries: seq<Entry>) {
    && (forall i :: 0 <= i < |entries| ==> entries[i].key != "__proto__" && Utf8.NormalText(entries[i].key))
    && (forall i, j :: 0 <= i < j < |entries| ==> entries[i].key != entries[j].key)
  }

  /**
   Integers in the safe range; floats that are not, and no NaN but the wire's
   own; texts and keys without U+0000; keys unique and not `__proto__`.
   */
  predicate Legal(v: Value)
    decreases v
  {
    match v
    case Int(n) => IsSafe(n)
    case Float(bits) => WholeOf(bits).None? && (IsNaN(bits) ==> bits == NAN)
    case Text(s) => Utf8.NormalText(s)
    case List(items) => forall i :: 0 <= i < |items| ==> Legal(items[i])
    case Dict(entries) => UniqueKeys(entries) && forall i :: 0 <= i < |entries| ==> LegalEntry(entries[i])
    case _ => true
  }

  predicate LegalEntry(e: Entry)
    decreases e
  {
    Legal(e.value)
  }

  // --------------------------------------------------------- what can be encoded

  /** Nested at most `MAX_DEPTH` deep from `depth` on, integers of 64 bits, lengths within a byte array's. */
  predicate Fits(v: Value, depth: nat)
    decreases v
  {
    && depth <= MAX_DEPTH
    && match v
       case Int(n) => IsInt64(n)
       case Text(s) => |Utf8.Encode(Utf8.WireText(s))| <= MAX_INT32
       case Bin(data) => |data| <= MAX_INT32
       case List(items) => |items| <= MAX_INT32 && forall i :: 0 <= i < |items| ==> Fits(items[i], depth + 1)
       case Dict(entries) => |entries| <= MAX_INT32 && forall i :: 0 <= i < |entries| ==> EntryFits(entries[i], depth)
       case _ => true
  }

  predicate EntryFits(e: Entry, depth: nat)
    decreases e
  {
    |Utf8.Encode(Utf8.WireText(e.key))| <= MAX_INT32 && Fits(e.value, depth + 1)
  }

  /** Exactly the values that fit are encoded. */
  lemma {:induction false} WritesWhatFits(v: Value, depth: nat)
    ensures Write(v, depth).Some? <==> Fits(v, depth)
    decreases v, 1
  {
    hide WriteItems, WriteEntries, Utf8.Encode, BigEndian;
    match v {
      case List(items) => if depth <= MAX_DEPTH { ItemsFit(items, depth); }
      case Dict(entries) => if depth <= MAX_DEPTH { EntriesFit(entries, depth); }
      case _ =>
    }
  }

  lemma {:induction false} ItemsFit(items: seq<Value>, depth: nat)
    ensures WriteItems(items, depth).Some? <==> forall i :: 0 <= i < |items| ==> Fits(items[i], depth + 1)
    decreases items, 0
  {
    hide Write, Fits;
    if items != [] {
      WritesWhatFits(items[0], depth + 1);
      ItemsFit(items[1..], depth);
      assert forall i :: 1 <= i < |items| ==> items[i] == items[1..][i - 1];
    }
  }

  lemma {:induction false} EntriesFit(entries: seq<Entry>, depth: nat)
    ensures WriteEntries(entries, depth).Some? <==> forall i :: 0 <= i < |entries| ==> EntryFits(entries[i], depth)
    decreases entries, 0
  {
    hide WriteEntry, EntryFits;
    if entries != [] {
      EntryWrites(entries[0], depth);
      EntriesFit(entries[1..], depth);
      assert forall i :: 1 <= i < |entries| ==> entries[i] == entries[1..][i - 1];
    }
  }

  lemma {:induction false} EntryWrites(e: Entry, depth: nat)
    ensures WriteEntry(e, depth).Some? <==> EntryFits(e, depth)
    decreases e, 1
  {
    hide Write, Fits, Utf8.Encode, BigEndian;
    WritesWhatFits(e.value, depth + 1);
  }

  // ------------------------------------------------------- the exact round trip

  /** Legal values are those that are read, and read unchanged. */
  lemma {:induction false} LegalIs(v: Value, depth: nat)
    requires Fits(v, depth)
    ensures Legal(v) <==> Readable(v) && NormalValue(v) == v
    decreases v, 1
  {
    hide Utf8.Encode, WholeOf, DoubleOf;
    match v {
      case Text(s) => Utf8.WireTextDecodes(s);
      case List(items) =>
        forall i | 0 <= i < |items|
          ensures Legal(items[i]) <==> Readable(items[i]) && NormalValue(items[i]) == items[i]
        {
          LegalIs(items[i], depth + 1);
        }
        hide Legal, Readable, NormalValue;
        SameList(items);
      case Dict(entries) => LegalMap(entries, depth);
      case _ =>
    }
  }

  lemma SameList(items: seq<Value>)
    ensures NormalList(items) == items <==> forall i :: 0 <= i < |items| ==> NormalValue(items[i]) == items[i]
  {
    hide NormalValue;
  }

  lemma {:induction false} LegalMap(entries: seq<Entry>, depth: nat)
    requires forall i :: 0 <= i < |entries| ==> EntryFits(entries[i], depth)
    ensures Legal(Dict(entries)) <==> Readable(Dict(entries)) && NormalValue(Dict(entries)) == Dict(entries)
    decreases entries, 0
  {
    forall i | 0 <= i < |entries|
      ensures Utf8.NormalText(entries[i].key) && LegalEntry(entries[i]) <==>
              ReadableEntry(entries[i]) && NormalEntry(entries[i]) == entries[i]
      ensures Utf8.NormalText(entries[i].key) <==> Utf8.WireText(entries[i].key) == entries[i].key
    {
      LegalEntryIs(entries[i], depth);
    }
    hide LegalEntry, ReadableEntry, NormalEntry, Utf8.WireText, Utf8.NormalText;
    assert NormalEntries(entries) == entries <==>
           forall i :: 0 <= i < |entries| ==> NormalEntry(entries[i]) == entries[i];
  }

  lemma {:induction false} LegalEntryIs(e: Entry, depth: nat)
    requires EntryFits(e, depth)
    ensures Utf8.NormalText(e.key) && LegalEntry(e) <==> ReadableEntry(e) && NormalEntry(e) == e
    ensures Utf8.NormalText(e.key) <==> Utf8.WireText(e.key) == e.key
    decreases e, 1
  {
    hide Fits, Legal, Readable, NormalValue, Utf8.Encode;
    Utf8.WireTextDecodes(e.key);
    LegalIs(e.value, depth + 1);
  }

  /** A value that encodes is decoded unchanged if and only if it is legal. */
  lemma RoundTrip(v: Value)
    requires Encode(v).Some?
    ensures Decode(Encode(v).value) == Some(v) <==> Legal(v)
  {
    hide Decode, Write, Fits, Legal, Readable, NormalValue;
    WritesWhatFits(v, 0);
    DecodesTo(v);
    LegalIs(v, 0);
  }

  // ------------------------------------------------------------- where it changes

  /** U+0000 comes back as U+FFFD. */
  lemma NulIsReplaced()
    ensures Encode(Text("\0")) == Some([0xa3, 0xef, 0xbf, 0xbd])
    ensures Decode([0xa3, 0xef, 0xbf, 0xbd]) == Some(Text("\U{FFFD}"))
  {
    assert Utf8.WireText("\0") == "\U{FFFD}";
    assert Utf8.Encode("\U{FFFD}") == [0xef, 0xbf, 0xbd] by {
      assert "\U{FFFD}"[1..] == "";
      assert Utf8.EncodeChar('\U{FFFD}') == [0xef, 0xbf, 0xbd];
    }
    hide Utf8.Encode, Utf8.WireText;
    assert WriteText("\0") == Some([0xa3] + [0xef, 0xbf, 0xbd]);
    assert [0xa3] + [0xef, 0xbf, 0xbd] == [0xa3, 0xef, 0xbf, 0xbd];
    assert Encode(Text("\0")) == WriteText("\0");
    DecodesTo(Text("\0"));
  }

  /** Two keys that are one on the wire: the map encodes, and its encoding is refused. */
  lemma ClashingKeysRefused()
    ensures var v := Dict([Entry("\0", Nil), Entry("\U{FFFD}", Nil)]);
            Encode(v).Some? && Decode(Encode(v).value) == None
  {
    var entries := [Entry("\0", Nil), Entry("\U{FFFD}", Nil)];
    assert Utf8.WireText("\0") == Utf8.WireText("\U{FFFD}") == "\U{FFFD}";
    assert |Utf8.Encode("\U{FFFD}")| == 3 by {
      assert "\U{FFFD}"[1..] == "";
    }
    hide Utf8.Encode, Utf8.WireText;
    assert Utf8.WireText(entries[0].key) == Utf8.WireText(entries[1].key);
    assert forall i :: 0 <= i < |entries| ==> EntryFits(entries[i], 0);
    WritesWhatFits(Dict(entries), 0);
    hide Write, Fits, Decode;
    DecodesTo(Dict(entries));
  }

  /** A float that is whole comes back as an integer: here 1.0 and -0. */
  lemma WholeFloatsAreIntegers()
    ensures Encode(Float(0x3FF0_0000_0000_0000)) == Some([1]) && Decode([1]) == Some(Int(1))
    ensures Encode(Float(SIGN)) == Some([0]) && Decode([0]) == Some(Int(0))
  {
    assert Lowered(HIDDEN, 52) == Some(1) by { Powers(); LoweredPower(52); }
    assert WholeOf(0x3FF0_0000_0000_0000) == Some(1);
    assert WholeOf(SIGN) == Some(0);
    assert [1][1..] == [] && [0][1..] == [];
  }
}
