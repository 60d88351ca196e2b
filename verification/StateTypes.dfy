/** Field types of the state schema and the grammar of their type strings. */
module StateTypes {
  import opened Wrappers

  datatype IntKind = Int8 | Int16 | Int32 | UInt8 | UInt16 | UInt32 {
    function Min(): int {
      match this
      case Int8 => -0x80
      case Int16 => -0x8000
      case Int32 => -0x8000_0000
      case _ => 0
    }

    function Max(): int {
      match this
      case Int8 => 0x7F
      case Int16 => 0x7FFF
      case Int32 => 0x7FFF_FFFF
      case UInt8 => 0xFF
      case UInt16 => 0xFFFF
      case UInt32 => 0xFFFF_FFFF
    }
  }

  datatype Scalar = Float64 | Float32 | Fixed(decimals: nat) | Text | Bool | Integer(kind: IntKind) {
    predicate IsPrimitive() { !Integer? }

    predicate IsKey() { Text? || Float64? || Integer? }
  }

  datatype Kind =
    | Primitive | Int | Schema
    | Map | Set | Array
    | SchemaMap | SchemaSet | SchemaArray

  datatype StateType = StateType(text: string, kind: Kind, key: Scalar, element: Scalar, schema: string) {
    predicate IsCollection() { !kind.Primitive? && !kind.Int? && !kind.Schema? }

    predicate IsArray() { kind.Array? || kind.SchemaArray? }

    predicate IsSet() { kind.Set? || kind.SchemaSet? }

    predicate IsMap() { kind.Map? || kind.SchemaMap? }

    predicate HoldsSchemas() { kind.SchemaMap? || kind.SchemaSet? || kind.SchemaArray? }
  }

  function ParseScalar(text: string): Option<Scalar> {
    if text == "float64" then Some(Float64)
    else if text == "float32" then Some(Float32)
    else if text == "string" then Some(Text)
    else if text == "bool" then Some(Bool)
    else if text == "int8" then Some(Integer(Int8))
    else if text == "int16" then Some(Integer(Int16))
    else if text == "int32" then Some(Integer(Int32))
    else if text == "uint8" then Some(Integer(UInt8))
    else if text == "uint16" then Some(Integer(UInt16))
    else if text == "uint32" then Some(Integer(UInt32))
    else if |text| == 7 && text[..6] == "fixed:" && '0' <= text[6] <= '9' then
      Some(Fixed(text[6] as int - '0' as int))
    else None
  }

  /** The first index of `c` in `text`, or its length. */
  function IndexOf(text: string, c: char): (i: nat)
    ensures i <= |text|
    ensures i < |text| ==> text[i] == c
  {
    if text == "" || text[0] == c then 0 else 1 + IndexOf(text[1..], c)
  }

  function ParseGeneric(text: string, head: string, inner: string): Option<StateType> {
    var comma := IndexOf(inner, ',');
    var key := if comma < |inner| then inner[..comma] else "";
    var rest := if comma < |inner| then inner[comma + 1..] else "";
    if head == "schema" && inner != "" then Some(StateType(text, Schema, Float64, Float64, inner))
    else if head == "schemaSet" && inner != "" then Some(StateType(text, SchemaSet, Float64, Float64, inner))
    else if head == "schemaArray" && inner != "" then Some(StateType(text, SchemaArray, Float64, Float64, inner))
    else if head == "set" then
      var element :- ParseScalar(inner);
      if element.IsKey() then Some(StateType(text, Set, Float64, element, "")) else None
    else if head == "array" then
      var element :- ParseScalar(inner);
      if element.IsPrimitive() then Some(StateType(text, Array, Float64, element, "")) else None
    else if head == "map" && key != "" then
      var k :- ParseScalar(key);
      var v :- ParseScalar(rest);
      if k.IsKey() && v.IsPrimitive() then Some(StateType(text, Map, k, v, "")) else None
    else if head == "schemaMap" && key != "" && rest != "" then
      var k :- ParseScalar(key);
      if k.IsKey() then Some(StateType(text, SchemaMap, k, Float64, rest)) else None
    else None
  }

  /** Parses a type string; `None` if it is outside the grammar. */
  function Parse(text: string): Option<StateType> {
    var scalar := ParseScalar(text);
    if scalar.Some? then
      Some(StateType(text, if scalar.value.Integer? then Int else Primitive, Float64, scalar.value, ""))
    else
      var open := IndexOf(text, '<');
      if open == 0 || open == |text| || text[|text| - 1] != '>' then None
      else ParseGeneric(text, text[..open], text[open + 1..|text| - 1])
  }

  function ParseAll(texts: seq<string>): (r: Option<seq<StateType>>)
    ensures r.Some? ==> |r.value| == |texts|
  {
    if texts == [] then Some([])
    else
      var first :- Parse(texts[0]);
      var rest :- ParseAll(texts[1..]);
      Some([first] + rest)
  }
}
