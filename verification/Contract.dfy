/**
 Contract messages: declarations, payloads, and the flag layout of the
 `schema` codec. Payload scalars are as the wire has them (`Val`): integers in
 range, `fixed` numbers scaled, floats as bit patterns.
 */
module Contract {
  import opened Wrappers
  import opened Wire
  import opened StateTypes
  import opened OpCodec

  datatype FieldType =
    | Plain(of: Scalar)
    // Its values, strings or numbers; a message carries the index.
    | Choice(values: seq<Val>)
    | ArrayOf(item: FieldType)
    | MapOf(item: FieldType)
    | OptionalOf(item: FieldType)
    | NestedOf(message: MessageDef)

  datatype Field = Field(name: string, of: FieldType)

  datatype MessageDef = MessageDef(fields: seq<Field>)

  /** A payload: nothing (null), a scalar, an array, or an object with its keys in insertion order. */
  datatype Data = Nothing | Leaf(v: Val) | Items(items: seq<Data>) | Obj(props: seq<Prop>)

  datatype Prop = Prop(key: string, value: Data)

  /** The value under a key, or nothing. */
  function Lookup(props: seq<Prop>, key: string): (d: Data) {
    if props == [] then Nothing else if props[0].key == key then props[0].value else Lookup(props[1..], key)
  }

  predicate DistinctKeys(props: seq<Prop>) {
    forall i, j :: 0 <= i < j < |props| ==> props[i].key != props[j].key
  }

  predicate DistinctFields(fields: seq<Field>) {
    forall i, j :: 0 <= i < j < |fields| ==> fields[i].name != fields[j].name
  }

  /** The first index of an enum value. */
  function ChoiceIndex(values: seq<Val>, v: Val): (i: Option<nat>)
    ensures i.Some? ==> i.value < |values| && values[i.value] == v
  {
    if values == [] then None
    else if values[0] == v then Some(0)
    else
      var i :- ChoiceIndex(values[1..], v);
      Some(i + 1)
  }

  // -------------------------------------------------------------- flag layout

  const TheBool: FieldType := Plain(Bool)

  /** How many flag bits a field takes: a bool its value, an optional its presence, an optional bool both. */
  function BitCount(of: FieldType): nat {
    if of == TheBool then 1 else if of.OptionalOf? then (if of.item == TheBool then 2 else 1) else 0
  }

  function BitsBefore(fields: seq<Field>, n: nat): nat
    requires n <= |fields|
  {
    if n == 0 then 0 else BitsBefore(fields, n - 1) + BitCount(fields[n - 1].of)
  }

  function FlagBytes(bits: nat): nat { (bits + 7) / 8 }

  /** The mask of the used bits of the last flag byte. */
  function LastMask(bits: nat): nat {
    match bits % 8
    case 0 => 0xff case 1 => 1 case 2 => 3 case 3 => 7 case 4 => 15 case 5 => 31 case 6 => 63 case _ => 127
  }

  /** A bool's value bit or an optional's presence bit, or -1. */
  function BitAt(fields: seq<Field>, i: nat): int
    requires i < |fields|
  {
    if BitCount(fields[i].of) == 0 then -1 else BitsBefore(fields, i)
  }

  /** An optional bool's value bit, or -1. */
  function ValueBitAt(fields: seq<Field>, i: nat): int
    requires i < |fields|
  {
    if BitCount(fields[i].of) == 2 then BitsBefore(fields, i) + 1 else -1
  }

  lemma BitsNone(fields: seq<Field>)
    ensures BitsBefore(fields, 0) == 0
  {
  }

  lemma BitsNext(fields: seq<Field>, i: nat)
    requires i < |fields|
    ensures BitsBefore(fields, i + 1) == BitsBefore(fields, i) + BitCount(fields[i].of)
    ensures BitAt(fields, i) == if BitCount(fields[i].of) == 0 then -1 else BitsBefore(fields, i)
    ensures ValueBitAt(fields, i) == if BitCount(fields[i].of) == 2 then BitsBefore(fields, i) + 1 else -1
  {
  }

  /** Where each field lives: -1 where a field has no such bit. */
  class MessagePlan {
    var bits: array<int>
    var valueBits: array<int>
    var flagBytes: nat
    var lastMask: nat

    /** Bits are given out in field order, without gaps or overlaps. */
    ghost predicate Lays(fields: seq<Field>, n: nat)
      reads this, bits, valueBits
    {
      && n <= |fields| == bits.Length == valueBits.Length
      && forall i :: 0 <= i < n ==>
           bits[i] == BitAt(fields, i) && valueBits[i] == ValueBitAt(fields, i)
    }

    constructor (fields: seq<Field>)
      ensures fresh(bits) && fresh(valueBits) && Lays(fields, |fields|)
      ensures flagBytes == FlagBytes(BitsBefore(fields, |fields|)) && lastMask == LastMask(BitsBefore(fields, |fields|))
    {
      hide BitsBefore, BitAt, ValueBitAt;
      BitsNone(fields);
      var at, values := new int[|fields|], new int[|fields|];
      var used := 0;
      for i := 0 to |fields|
        invariant used == BitsBefore(fields, i)
        invariant forall k :: 0 <= k < i ==>
                    at[k] == BitAt(fields, k) && values[k] == ValueBitAt(fields, k)
      {
        BitsNext(fields, i);
        var of := fields[i].of;
        at[i] := -1;
        values[i] := -1;
        if of == TheBool {
          at[i] := used;
          used := used + 1;
        } else if of.OptionalOf? {
          at[i] := used;
          used := used + 1;
          if of.item == TheBool {
            values[i] := used;
            used := used + 1;
          }
        }
      }
      bits, valueBits := at, values;
      flagBytes := (used + 7) / 8;
      lastMask := LastMask(used);
    }
  }

  lemma {:induction false} BitsGrow(fields: seq<Field>, i: nat, j: nat)
    requires i < j <= |fields|
    ensures BitsBefore(fields, i) + BitCount(fields[i].of) <= BitsBefore(fields, j)
    decreases j
  {
    if i < j - 1 {
      BitsGrow(fields, i, j - 1);
    }
  }

  /** The bits of a field: `[BitsBefore, BitsBefore + BitCount)`. */
  predicate HasBit(fields: seq<Field>, i: nat, bit: int)
    requires i < |fields|
  {
    BitsBefore(fields, i) <= bit < BitsBefore(fields, i) + BitCount(fields[i].of)
  }

  /** No bit belongs to two fields, and every bit fits the flag bytes. */
  lemma BitsApart(fields: seq<Field>, i: nat, j: nat, bit: int)
    requires i < |fields| && j < |fields| && HasBit(fields, i, bit) && HasBit(fields, j, bit)
    ensures i == j && bit < 8 * FlagBytes(BitsBefore(fields, |fields|))
  {
    if i < j {
      BitsGrow(fields, i, j);
    } else if j < i {
      BitsGrow(fields, j, i);
    }
    BitsGrow(fields, i, |fields|);
  }
}
