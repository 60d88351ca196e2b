/**
 Strict UTF-8 (RFC 3629, section 4; Unicode Table 3-7). A Dafny `char` is a
 Unicode scalar value, so a `string` here is exactly what a UTF-8 byte range
 can hold.
 */
module Utf8 {
  import opened Wrappers
  import opened Wire

  // ------------------------------------------------------ the encoding form

  function EncodeChar(c: char): (s: seq<byte>)
    ensures 1 <= |s| <= 4
  {
    var n := c as int;
    if n < 0x80 then [n]
    else if n < 0x800 then [0xC0 + n / 0x40, 0x80 + n % 0x40]
    else if n < 0x10000 then [0xE0 + n / 0x1000, 0x80 + n / 0x40 % 0x40, 0x80 + n % 0x40]
    else [0xF0 + n / 0x40000, 0x80 + n / 0x1000 % 0x40, 0x80 + n / 0x40 % 0x40, 0x80 + n % 0x40]
  }

  function Encode(text: string): seq<byte> {
    if text == [] then [] else EncodeChar(text[0]) + Encode(text[1..])
  }

  lemma {:induction false} EncodeAppend(a: string, b: string)
    ensures Encode(a + b) == Encode(a) + Encode(b)
  {
    if a == "" {
      assert a + b == b;
    } else {
      assert (a + b)[0] == a[0] && (a + b)[1..] == a[1..] + b;
      EncodeAppend(a[1..], b);
    }
  }

  /** Encoding a prefix one character longer; the whole encoding is at least as long. */
  lemma EncodeStep(text: string, k: nat)
    requires k <= |text|
    ensures text[..0] == "" && Encode("") == []
    ensures k < |text| ==> Encode(text[..k + 1]) == Encode(text[..k]) + EncodeChar(text[k])
    ensures k < |text| ==> |Encode(text[..k])| + |EncodeChar(text[k])| <= |Encode(text)|
  {
    if k < |text| {
      assert text[..k + 1] == text[..k] + [text[k]];
      EncodeAppend(text[..k], [text[k]]);
      assert Encode([text[k]]) == EncodeChar(text[k]) by {
        assert [text[k]][1..] == "" && EncodeChar(text[k]) + [] == EncodeChar(text[k]);
      }
      assert text == text[..k + 1] + text[k + 1..];
      EncodeAppend(text[..k + 1], text[k + 1..]);
    }
  }

  // --------------------------------------------------------------- decoding

  /** What a non-ASCII lead byte demands: how many bytes follow, and the range of the second. */
  datatype Lead = Lead(need: nat, lo: byte, hi: byte)

  function LeadOf(b: byte): (r: Option<Lead>)
    ensures r.Some? ==> 1 <= r.value.need <= 3
  {
    if 0xC2 <= b <= 0xDF then Some(Lead(1, 0x80, 0xBF))
    else if b == 0xE0 then Some(Lead(2, 0xA0, 0xBF))
    else if 0xE1 <= b <= 0xEC then Some(Lead(2, 0x80, 0xBF))
    else if b == 0xED then Some(Lead(2, 0x80, 0x9F))
    else if 0xEE <= b <= 0xEF then Some(Lead(2, 0x80, 0xBF))
    else if b == 0xF0 then Some(Lead(3, 0x90, 0xBF))
    else if 0xF1 <= b <= 0xF3 then Some(Lead(3, 0x80, 0xBF))
    else if b == 0xF4 then Some(Lead(3, 0x80, 0x8F))
    else None
  }

  predicate IsTail(b: byte) { 0x80 <= b <= 0xBF }

  /** Length of the well-formed sequence `s` starts with; 0 if it starts with none. */
  function PrefixLength(s: seq<byte>): (n: nat)
    ensures n <= |s| && n <= 4
  {
    if s == [] then 0
    else if s[0] < 0x80 then 1
    else match LeadOf(s[0])
      case None => 0
      case Some(lead) =>
        if |s| <= lead.need || !(lead.lo <= s[1] <= lead.hi) then 0
        else if lead.need >= 2 && !IsTail(s[2]) then 0
        else if lead.need >= 3 && !IsTail(s[3]) then 0
        else lead.need + 1
  }

  /** The scalar value of lead and tail bytes, by sequence length. */
  function Value2(a: int, b: int): int { 0x40 * (a - 0xC0) + (b - 0x80) }

  function Value3(a: int, b: int, c: int): int { 0x1000 * (a - 0xE0) + 0x40 * (b - 0x80) + (c - 0x80) }

  function Value4(a: int, b: int, c: int, d: int): int {
    0x40000 * (a - 0xF0) + 0x1000 * (b - 0x80) + 0x40 * (c - 0x80) + (d - 0x80)
  }

  function CharValue(s: seq<byte>): (c: char)
    requires 0 < PrefixLength(s)
  {
    if s[0] < 0x80 then s[0] as char
    else if s[0] < 0xE0 then Value2(s[0], s[1]) as char
    else if s[0] < 0xF0 then Value3(s[0], s[1], s[2]) as char
    else Value4(s[0], s[1], s[2], s[3]) as char
  }

  function Decode(s: seq<byte>): (r: Option<string>)
  {
    if s == [] then Some("")
    else
      var n := PrefixLength(s);
      if n == 0 then None
      else
        var rest :- Decode(s[n..]);
        Some([CharValue(s)] + rest)
  }

  // -------------------------------------------------------------- exactness

  lemma Split3(n: nat)
    requires 0x800 <= n < 0x10000
    ensures n == Value3(0xE0 + n / 0x1000, 0x80 + n / 0x40 % 0x40, 0x80 + n % 0x40)
    ensures n / 0x1000 == 0 ==> n / 0x40 % 0x40 >= 0x20
    ensures n / 0x1000 == 13 && n < 0xD800 ==> n / 0x40 % 0x40 < 0x20
    ensures n / 0x1000 == 13 && n >= 0xD800 ==> n < 0xE000
  {
    assert n / 0x40 / 0x40 == n / 0x1000;
  }

  lemma Split4(n: nat)
    requires 0x10000 <= n < 0x110000
    ensures n == Value4(0xF0 + n / 0x40000, 0x80 + n / 0x1000 % 0x40, 0x80 + n / 0x40 % 0x40, 0x80 + n % 0x40)
    ensures n / 0x40000 == 0 ==> n / 0x1000 % 0x40 >= 0x10
    ensures n / 0x40000 == 4 ==> n / 0x1000 % 0x40 < 0x10
    ensures n / 0x40000 <= 4
  {
    assert n / 0x40 / 0x40 == n / 0x1000;
    assert n / 0x1000 / 0x40 == n / 0x40000;
  }

  /** What one turn of the validator's loop tests, in one place. */
  lemma PrefixFacts(s: seq<byte>)
    requires s != []
    ensures s[0] < 0x80 ==> PrefixLength(s) == 1
    ensures s[0] >= 0x80 && LeadOf(s[0]).None? ==> PrefixLength(s) == 0
    ensures s[0] >= 0x80 && LeadOf(s[0]).Some? ==>
              var lead := LeadOf(s[0]).value;
              PrefixLength(s) ==
              if lead.need < |s| && lead.lo <= s[1] <= lead.hi &&
                 forall j :: 2 <= j <= lead.need ==> IsTail(s[j])
              then lead.need + 1 else 0
  {
  }

  /** Every scalar value's encoding is a prefix the table accepts, read back as that value. */
  lemma PrefixOfEncoding(c: char, rest: seq<byte>)
    ensures PrefixLength(EncodeChar(c) + rest) == |EncodeChar(c)|
    ensures CharValue(EncodeChar(c) + rest) == c
  {
    hide PrefixLength;
    var n := c as int;
    var s := EncodeChar(c) + rest;
    PrefixFacts(s);
    if 0x80 <= n < 0x800 {
      assert s[0] == 0xC0 + n / 0x40 && s[1] == 0x80 + n % 0x40;
    } else if 0x800 <= n < 0x10000 {
      Split3(n);
      assert s[0] == 0xE0 + n / 0x1000 && s[1] == 0x80 + n / 0x40 % 0x40 && s[2] == 0x80 + n % 0x40;
    } else if 0x10000 <= n {
      Split4(n);
      assert s[0] == 0xF0 + n / 0x40000 && s[1] == 0x80 + n / 0x1000 % 0x40;
      assert s[2] == 0x80 + n / 0x40 % 0x40 && s[3] == 0x80 + n % 0x40;
    }
  }

  lemma Join3(a: int, b: int, c: int, n: int)
    requires n == Value3(a, b, c) && 0x80 <= b < 0xC0 && 0x80 <= c < 0xC0
    ensures a == 0xE0 + n / 0x1000 && b == 0x80 + n / 0x40 % 0x40 && c == 0x80 + n % 0x40
  {
    assert n / 0x40 == 0x40 * (a - 0xE0) + (b - 0x80);
    assert n / 0x40 / 0x40 == n / 0x1000;
  }

  lemma Join4(a: int, b: int, c: int, d: int, n: int)
    requires n == Value4(a, b, c, d) && 0x80 <= b < 0xC0 && 0x80 <= c < 0xC0 && 0x80 <= d < 0xC0
    ensures a == 0xF0 + n / 0x40000 && b == 0x80 + n / 0x1000 % 0x40
    ensures c == 0x80 + n / 0x40 % 0x40 && d == 0x80 + n % 0x40
  {
    assert n / 0x40 == 0x1000 * (a - 0xF0) + 0x40 * (b - 0x80) + (c - 0x80);
    assert n / 0x40 / 0x40 == n / 0x1000;
    assert n / 0x1000 == 0x40 * (a - 0xF0) + (b - 0x80);
    assert n / 0x1000 / 0x40 == n / 0x40000;
  }

  /** Every prefix the table accepts is the encoding of its scalar value. */
  lemma EncodingOfPrefix(s: seq<byte>)
    requires 0 < PrefixLength(s)
    ensures EncodeChar(CharValue(s)) == s[..PrefixLength(s)]
  {
    var n := CharValue(s) as int;
    if s[0] < 0x80 {
    } else if s[0] < 0xE0 {
      assert n / 0x40 == s[0] - 0xC0 && n % 0x40 == s[1] - 0x80;
      assert EncodeChar(CharValue(s)) == [s[0], s[1]];
    } else if s[0] < 0xF0 {
      Join3(s[0], s[1], s[2], n);
      assert 0x800 <= n < 0x10000;
      assert EncodeChar(CharValue(s)) == [s[0], s[1], s[2]];
    } else {
      Join4(s[0], s[1], s[2], s[3], n);
      assert 0x10000 <= n;
      assert EncodeChar(CharValue(s)) == [s[0], s[1], s[2], s[3]];
    }
  }

  lemma {:induction false} DecodeOfEncode(text: string)
    ensures Decode(Encode(text)) == Some(text)
  {
    hide PrefixLength, CharValue, EncodeChar;
    if text != [] {
      var tail := Encode(text[1..]);
      PrefixOfEncoding(text[0], tail);
      assert (EncodeChar(text[0]) + tail)[|EncodeChar(text[0])|..] == tail;
      DecodeOfEncode(text[1..]);
      assert [text[0]] + text[1..] == text;
    }
  }

  lemma {:induction false} EncodeOfDecode(s: seq<byte>)
    requires Decode(s).Some?
    ensures Encode(Decode(s).value) == s
  {
    hide PrefixLength, CharValue, EncodeChar;
    if s != [] {
      var n := PrefixLength(s);
      EncodingOfPrefix(s);
      EncodeOfDecode(s[n..]);
      assert s == s[..n] + s[n..];
      assert Decode(s).value[1..] == Decode(s[n..]).value;
    }
  }

  /** A byte range is well-formed when it is the encoding of some scalar sequence. */
  ghost predicate WellFormed(s: seq<byte>) {
    exists text :: Encode(text) == s
  }

  lemma DecodableIsWellFormed(s: seq<byte>)
    ensures WellFormed(s) <==> Decode(s).Some?
  {
    if Decode(s).Some? {
      EncodeOfDecode(s);
    }
    if WellFormed(s) {
      var text :| Encode(text) == s;
      DecodeOfEncode(text);
    }
  }

  /** No byte range is the encoding of two texts. */
  lemma EncodeInjective(a: string, b: string)
    requires Encode(a) == Encode(b)
    ensures a == b
  {
    DecodeOfEncode(a);
    DecodeOfEncode(b);
  }

  lemma DecodeStep(s: seq<byte>)
    ensures s == [] ==> Decode(s).Some?
    ensures s != [] && PrefixLength(s) == 0 ==> Decode(s).None?
    ensures PrefixLength(s) > 0 ==> Decode(s).Some? == Decode(s[PrefixLength(s)..]).Some?
  {
  }

  /** The validator's loop over a range of a larger array. */
  method IsValid(bytes: array<byte>, offset: nat, count: nat) returns (valid: bool)
    requires offset + count <= bytes.Length
    ensures valid <==> WellFormed(bytes[offset..offset + count])
  {
    hide PrefixLength, LeadOf, WellFormed, Decode;
    var i := offset;
    var end := offset + count;
    ghost var all := bytes[offset..end];
    DecodableIsWellFormed(all);
    while i < end
      invariant offset <= i <= end
      invariant Decode(all).Some? == Decode(bytes[i..end]).Some?
    {
      ghost var s := bytes[i..end];
      PrefixFacts(s);
      DecodeStep(s);
      var b := bytes[i];
      if b < 0x80 {
        assert s[1..] == bytes[i + 1..end];
        i := i + 1;
        continue;
      }
      var lead := LeadOf(b);
      if lead.None? { return false; }
      var need := lead.value.need;
      if end - i <= need { return false; }
      var second := bytes[i + 1];
      if second < lead.value.lo || second > lead.value.hi { return false; }
      for k := 2 to need + 1
        invariant 2 <= k <= need + 1
        invariant forall j :: 2 <= j < k ==> IsTail(s[j])
      {
        var next := bytes[i + k];
        if next < 0x80 || next > 0xBF {
          assert s[k] == next;
          return false;
        }
      }
      assert s[need + 1..] == bytes[i + need + 1..end];
      i := i + need + 1;
    }
    DecodeStep(bytes[i..end]);
    return true;
  }

  // --------------------------------------------------------------- wire texts

  /** U+0000 is written as U+FFFD, so that every client decodes the same text. */
  function WireText(text: string): string {
    seq(|text|, i requires 0 <= i < |text| => if text[i] == '\0' then '\U{FFFD}' else text[i])
  }

  predicate NormalText(text: string) { '\0' !in text }

  /** What is written decodes to the wire's text, which is the text itself exactly if it has no U+0000. */
  lemma WireTextDecodes(text: string)
    ensures Decode(Encode(WireText(text))) == Some(WireText(text))
    ensures NormalText(WireText(text)) && (WireText(text) == text <==> NormalText(text))
  {
    hide Encode, Decode;
    DecodeOfEncode(WireText(text));
    if i :| 0 <= i < |text| && text[i] == '\0' {
      assert WireText(text)[i] != text[i];
    }
  }
}
