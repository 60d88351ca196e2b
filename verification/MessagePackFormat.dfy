/**
 MessagePack byte by byte: which format each value takes, and what each first
 byte is read as. The round trips hold of any two inverse encodings; these hold
 of the "Formats" section of the MessagePack specification.
 */
module MessagePackFormat {
  import opened Wrappers
  import opened Wire
  import opened Doubles
  import opened MessagePack
  import Utf8
  import WireFormat

  // -------------------------------------------------------------------- numbers

  /** `size` bytes of `b` from `at` on are the number `n`, the highest first. */
  predicate IsBig(b: seq<byte>, at: nat, size: nat, n: nat) {
    |b| >= at + size && forall i: nat :: i < size ==> b[at + size - 1 - i] == WireFormat.ByteOf(n, i)
  }

  lemma BigIs(n: nat, size: nat, head: byte, rest: seq<byte>)
    ensures var b := [head] + BigEndian(n, size) + rest;
            b[0] == head && |b| == 1 + size + |rest| && IsBig(b, 1, size, n) && b[1 + size..] == rest
  {
    var b := [head] + BigEndian(n, size) + rest;
    forall i: nat | i < size
      ensures b[1 + size - 1 - i] == WireFormat.ByteOf(n, i)
    {
      WireFormat.BigEndianIs(n, size, i);
      assert b[1 + size - 1 - i] == BigEndian(n, size)[size - 1 - i];
    }
  }

  /** An integer takes the shortest format of its sign; a negative one is its two's complement. */
  lemma IntIs(n: int)
    requires IsSafe(n)
    ensures var b := WriteInt(n);
            && (0 <= n <= 127 ==> b == [n])
            && (-32 <= n < 0 ==> b == [n + 256])
            && (127 < n <= 255 ==> |b| == 2 && b[0] == 0xcc && IsBig(b, 1, 1, n))
            && (255 < n <= 65535 ==> |b| == 3 && b[0] == 0xcd && IsBig(b, 1, 2, n))
            && (65535 < n <= 4294967295 ==> |b| == 5 && b[0] == 0xce && IsBig(b, 1, 4, n))
            && (n > 4294967295 ==> |b| == 9 && b[0] == 0xcf && IsBig(b, 1, 8, n))
            && (-128 <= n < -32 ==> |b| == 2 && b[0] == 0xd0 && IsBig(b, 1, 1, n + 0x100))
            && (-32768 <= n < -128 ==> |b| == 3 && b[0] == 0xd1 && IsBig(b, 1, 2, n + 0x1_0000))
            && (-2147483648 <= n < -32768 ==> |b| == 5 && b[0] == 0xd2 && IsBig(b, 1, 4, n + 0x1_0000_0000))
            && (n < -2147483648 ==> |b| == 9 && b[0] == 0xd3 && IsBig(b, 1, 8, n + 0x1_0000_0000_0000_0000))
  {
    hide BigEndian, IsBig;
    Ranges();
    var size := if -128 <= n <= 255 then 1 else if -32768 <= n <= 65535 then 2
                else if -2147483648 <= n <= 4294967295 then 4 else 8;
    var whole := if n >= 0 then n else if size == 1 then n + 0x100 else if size == 2 then n + 0x1_0000
                 else if size == 4 then n + 0x1_0000_0000 else n + 0x1_0000_0000_0000_0000;
    if n > 127 || n < -32 {
      var head := WriteInt(n)[0];
      BigIs(whole, size, head, []);
      assert WriteInt(n) == [head] + BigEndian(whole, size) + [];
    }
  }

  /** A float takes nine bytes; every NaN is the one. */
  lemma FloatIs(bits: bits64)
    ensures var b, exponent, fraction := WriteFloat(bits), bits / 0x10_0000_0000_0000 % 0x800,
            bits % 0x10_0000_0000_0000;
            && |b| == 9 && b[0] == 0xcb
            && IsBig(b, 1, 8, if exponent == 0x7FF && fraction != 0 then 0x7FF8_0000_0000_0000 else bits)
  {
    hide BigEndian, IsBig, IsNaN;
    NaNIs(bits);
    BigIs(WireDouble(bits), 8, 0xcb, []);
    assert WriteFloat(bits) == [0xcb] + BigEndian(WireDouble(bits), 8) + [];
  }

  lemma NaNIs(bits: bits64)
    ensures IsNaN(bits) <==> bits / 0x10_0000_0000_0000 % 0x800 == 0x7FF && bits % 0x10_0000_0000_0000 != 0
  {
  }

  // ---------------------------------------------------------- texts and containers

  /** A length of `n` before `rest`: in the first byte itself if it fits, else after `wide` and what follows it. */
  predicate IsLength(b: seq<byte>, n: nat, short: int, most: nat, one: int, two: int, four: int, rest: seq<byte>) {
    && b != []
    && if n <= most then b[0] == short + n && b[1..] == rest
       else if one != 0 && n <= 255 then b[0] == one && IsBig(b, 1, 1, n) && b[2..] == rest
       else if n <= 65535 then b[0] == two && IsBig(b, 1, 2, n) && b[3..] == rest
       else n <= 0x7FFF_FFFF && b[0] == four && IsBig(b, 1, 4, n) && b[5..] == rest
  }

  /** Text is its UTF-8, with U+FFFD for U+0000, after its length. */
  lemma TextIs(s: string)
    requires WriteText(s).Some?
    ensures var utf8 := Utf8.Encode(Utf8.WireText(s));
            IsLength(WriteText(s).value, |utf8|, 0xa0, 31, 0xd9, 0xda, 0xdb, utf8)
  {
    hide Utf8.Encode, Utf8.WireText, BigEndian, IsBig;
    var utf8 := Utf8.Encode(Utf8.WireText(s));
    var n := |utf8|;
    if n > 31 {
      BigIs(n, if n <= 255 then 1 else if n <= 65535 then 2 else 4,
            if n <= 255 then 0xd9 else if n <= 65535 then 0xda else 0xdb, utf8);
    }
  }

  lemma BinIs(data: seq<byte>)
    requires WriteBin(data).Some?
    ensures var b, n := WriteBin(data).value, |data|;
            && b != []
            && (n <= 255 ==> b[0] == 0xc4 && IsBig(b, 1, 1, n) && b[2..] == data)
            && (255 < n <= 65535 ==> b[0] == 0xc5 && IsBig(b, 1, 2, n) && b[3..] == data)
            && (n > 65535 ==> b[0] == 0xc6 && IsBig(b, 1, 4, n) && b[5..] == data)
  {
    hide BigEndian, IsBig;
    var n := |data|;
    BigIs(n, if n <= 255 then 1 else if n <= 65535 then 2 else 4,
          if n <= 255 then 0xc4 else if n <= 65535 then 0xc5 else 0xc6, data);
  }

  lemma HeaderIs(count: nat, short: byte, wide: byte, rest: seq<byte>)
    requires short + 15 < 256 && wide + 1 < 256 && Header(count, short, wide).Some?
    ensures IsLength(Header(count, short, wide).value + rest, count, short, 15, 0, wide, wide + 1, rest)
  {
    hide BigEndian, IsBig;
    if count > 15 {
      BigIs(count, if count <= 65535 then 2 else 4, if count <= 65535 then wide else wide + 1, rest);
    }
  }

  function Joined(a: Option<seq<byte>>, b: Option<seq<byte>>): Option<seq<byte>> {
    if a.Some? && b.Some? then Some(a.value + b.value) else None
  }

  lemma JoinedThrice(a: Option<seq<byte>>, b: Option<seq<byte>>, c: Option<seq<byte>>)
    ensures Joined(a, Joined(b, c)) == Joined(Joined(a, b), c)
    ensures Joined(a, Some([])) == a == Joined(Some([]), a)
  {
    if a.Some? {
      assert a.value + [] == a.value == [] + a.value;
      if b.Some? && c.Some? {
        assert a.value + (b.value + c.value) == a.value + b.value + c.value;
      }
    }
  }

  /** Elements in order: one more is written after the others. */
  lemma {:induction false} ItemsAre(items: seq<Value>, last: Value, depth: nat)
    ensures WriteItems([], depth) == Some([])
    ensures WriteItems(items + [last], depth) == Joined(WriteItems(items, depth), Write(last, depth + 1))
    decreases |items|
  {
    hide Write;
    JoinedThrice(Write(last, depth + 1), None, None);
    if items == [] {
      assert [] + [last] == [last] && [last][1..] == [];
    } else {
      ItemsAre(items[1..], last, depth);
      assert (items + [last])[0] == items[0] && (items + [last])[1..] == items[1..] + [last];
      JoinedThrice(Write(items[0], depth + 1), WriteItems(items[1..], depth), Write(last, depth + 1));
    }
  }

  /** Entries in order, each its key and then its value. */
  lemma {:induction false} EntriesAre(entries: seq<Entry>, last: Entry, depth: nat)
    ensures WriteEntries([], depth) == Some([])
    ensures WriteEntries(entries + [last], depth) ==
            Joined(WriteEntries(entries, depth), Joined(WriteText(last.key), Write(last.value, depth + 1)))
    decreases |entries|
  {
    hide Write, WriteText;
    JoinedThrice(WriteEntry(last, depth), None, None);
    if entries == [] {
      assert [] + [last] == [last] && [last][1..] == [];
    } else {
      EntriesAre(entries[1..], last, depth);
      assert (entries + [last])[0] == entries[0] && (entries + [last])[1..] == entries[1..] + [last];
      JoinedThrice(WriteEntry(entries[0], depth), WriteEntries(entries[1..], depth), WriteEntry(last, depth));
    }
  }

  /** Every value, at whatever depth up to 512, in its format. */
  lemma ValueIs(v: Value, depth: nat)
    requires Write(v, depth).Some?
    ensures depth <= 512
    ensures var b := Write(v, depth).value;
            match v
            case Nil => b == [0xc0]
            case Flag(f) => b == [if f then 0xc3 else 0xc2]
            case Int(n) => if IsSafe(n) then b == WriteInt(n) else IsInt64(n) && b == WriteFloat(DoubleOf(n))
            case Float(bits) => b == if WholeOf(bits).Some? then WriteInt(WholeOf(bits).value) else WriteFloat(bits)
            case Text(s) => WriteText(s) == Some(b)
            case Bin(data) => WriteBin(data) == Some(b)
            case List(items) =>
              WriteItems(items, depth).Some? && IsLength(b, |items|, 0x90, 15, 0, 0xdc, 0xdd,
                                                         WriteItems(items, depth).value)
            case Dict(entries) =>
              && WriteEntries(entries, depth).Some?
              && IsLength(b, |entries|, 0x80, 15, 0, 0xde, 0xdf, WriteEntries(entries, depth).value)
  {
    hide WriteInt, WriteFloat, WriteText, WriteBin, WriteItems, WriteEntries, Header, IsLength, WholeOf, DoubleOf;
    match v {
      case List(items) => HeaderIs(|items|, 0x90, 0xdc, WriteItems(items, depth).value);
      case Dict(entries) => HeaderIs(|entries|, 0x80, 0xde, WriteEntries(entries, depth).value);
      case _ =>
    }
  }

  // -------------------------------------------------------------------- reading

  /** What the first byte says is there, in formats of any width. */
  lemma HeadIs(head: byte, rest: seq<byte>, depth: nat)
    ensures var r := Read([head] + rest, depth);
            if depth > 512 then r == None
            else
              && (head <= 0x7f ==> r == Some((Int(head), rest)))
              && (0xe0 <= head ==> r == Some((Int(head as int - 256), rest)))
              && (head == 0xc0 ==> r == Some((Nil, rest)))
              && (head == 0xc2 ==> r == Some((Flag(false), rest)))
              && (head == 0xc3 ==> r == Some((Flag(true), rest)))
              && (head == 0xc1 || 0xc7 <= head <= 0xc9 || 0xd4 <= head <= 0xd8 ==> r == None)
              && (head == 0xca ==> |rest| >= 4 ==> r == Some((Float(Widen(Big(rest, 4))), rest[4..])))
              && (head == 0xcb ==> |rest| >= 8 ==> r == Some((Float(Big(rest, 8)), rest[8..])))
  {
    Ranges();
    assert ([head] + rest)[1..] == rest;
    hide ReadArray, ReadMap, ReadText, ReadBin, ReadLength, ReadSigned, ReadUnsigned, Widen, Range256, FromBigEndian;
  }

  /** The number in the first `size` bytes. */
  function Big(s: seq<byte>, size: nat): (n: nat)
    requires size <= |s| && (size == 4 || size == 8)
    ensures size == 4 ==> n < 0x1_0000_0000
    ensures size == 8 ==> n < 0x1_0000_0000_0000_0000
  {
    Ranges();
    BigEndianBound(s[..size]);
    FromBigEndian(s[..size])
  }

  /** How many bytes of number follow a first byte that says so. */
  function NumberSize(head: byte): nat {
    if head == 0xcc || head == 0xd0 then 1
    else if head == 0xcd || head == 0xd1 then 2
    else if head == 0xce || head == 0xd2 then 4
    else 8
  }

  /** Integers of any width: unsigned as they are, large ones as floats; signed by the top bit. */
  lemma IntHeadIs(head: byte, rest: seq<byte>, depth: nat)
    requires 0xcc <= head <= 0xcf || 0xd0 <= head <= 0xd3
    ensures var r, size := Read([head] + rest, depth), NumberSize(head);
            if depth > 512 || |rest| < size then r == None
            else
              var n := FromBigEndian(rest[..size]);
              && n < Range256(size) <= 0x1_0000_0000_0000_0000
              && (head <= 0xcf && n < 0x8000_0000_0000_0000 ==> r == Some((Int(n), rest[size..])))
              && (head <= 0xcf && n >= 0x8000_0000_0000_0000 ==> r == Some((Float(DoubleOf(n)), rest[size..])))
              && (head >= 0xd0 ==> r == Some((Int(if n < Range256(size) / 2 then n else n - Range256(size)),
                                              rest[size..])))
  {
    Ranges();
    assert ([head] + rest)[1..] == rest;
    hide ReadArray, ReadMap, ReadText, ReadBin, ReadLength, ReadFloat, FromBigEndian, DoubleOf, Range256;
    if depth <= 512 && |rest| >= NumberSize(head) {
      BigEndianBound(rest[..NumberSize(head)]);
    }
  }

  /** A text, bytes, an array or a map, by its first byte, once its length is known. */
  function Body(head: byte, n: nat, rest: seq<byte>, depth: nat): Option<(Value, seq<byte>)> {
    if 0x80 <= head <= 0x8f || 0xde <= head <= 0xdf then ReadMap(rest, n, depth)
    else if 0x90 <= head <= 0x9f || 0xdc <= head <= 0xdd then ReadArray(rest, n, depth)
    else if 0xc4 <= head <= 0xc6 then ReadBin(rest, n)
    else ReadText(rest, n)
  }

  /** The short forms have their length in the first byte. */
  lemma ShortHeadIs(head: byte, rest: seq<byte>, depth: nat)
    requires depth <= 512
    ensures 0x80 <= head <= 0x8f || 0x90 <= head <= 0x9f ==>
              Read([head] + rest, depth) == Body(head, head % 16, rest, depth)
    ensures 0xa0 <= head <= 0xbf ==> Read([head] + rest, depth) == Body(head, head % 32, rest, depth)
  {
    hide ReadArray, ReadMap, ReadText, ReadBin, ReadLong;
    assert ([head] + rest)[1..] == rest && ([head] + rest)[0] == head;
  }

  /** How many bytes of length follow a first byte that says so. */
  function LengthSize(head: byte): nat {
    if head == 0xc4 || head == 0xd9 then 1
    else if head == 0xc5 || head == 0xda || head == 0xdc || head == 0xde then 2
    else 4
  }

  /** The long forms have it in the bytes after; a length that exceeds what is left is refused. */
  lemma LongHeadIs(head: byte, rest: seq<byte>, depth: nat)
    requires depth <= 512 && (0xc4 <= head <= 0xc6 || 0xd9 <= head <= 0xdb || 0xdc <= head <= 0xdf)
    ensures var r, size := Read([head] + rest, depth), LengthSize(head);
            if |rest| < size || FromBigEndian(rest[..size]) > |rest| - size then r == None
            else r == Body(head, FromBigEndian(rest[..size]), rest[size..], depth)
  {
    hide Read, ReadArray, ReadMap, ReadText, ReadBin, ReadLength, ReadSigned, ReadUnsigned, ReadFloat;
    ReadsLong(head, rest, depth);
    LengthIs(rest, LengthSize(head));
  }

  lemma LengthIs(s: seq<byte>, size: nat)
    ensures ReadLength(s, size) ==
            if |s| < size || FromBigEndian(s[..size]) > |s| - size then None
            else Some((FromBigEndian(s[..size]), s[size..]))
  {
    hide FromBigEndian;
  }

  /** A text is valid UTF-8, bytes are as they are; both must be there. */
  lemma BytesAre(s: seq<byte>, n: nat)
    ensures ReadText(s, n).Some? <==> n <= |s| && Utf8.Decode(s[..n]).Some?
    ensures ReadText(s, n).Some? ==> ReadText(s, n).value == (Text(Utf8.Decode(s[..n]).value), s[n..])
    ensures ReadBin(s, n) == if n <= |s| then Some((Bin(s[..n]), s[n..])) else None
  {
    hide Utf8.Decode;
  }

  /** An entry's key must be a text, not `__proto__`, and not one of those before. */
  lemma KeysAre(s: seq<byte>, count: nat, depth: nat, seen: set<string>)
    requires count > 0
    ensures var key := Read(s, depth + 1);
            && (key.None? || !key.value.0.Text? || key.value.0.s == "__proto__" || key.value.0.s in seen ==>
                  ReadEntries(s, count, depth, seen) == None)
            && (ReadEntries(s, count, depth, seen).Some? ==>
                  var entries := ReadEntries(s, count, depth, seen).value.0;
                  |entries| > 0 && entries[0].key == key.value.0.s)
  {
    hide Read;
  }

  /** One value and nothing after it. */
  lemma WholeIs(s: seq<byte>)
    ensures Decode(s).Some? <==> Read(s, 0).Some? && Read(s, 0).value.1 == []
    ensures Decode(s).Some? ==> Decode(s).value == Read(s, 0).value.0
  {
    hide Read;
  }
}
