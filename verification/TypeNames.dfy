/** The names of field types, and that exactly these are types. */
module TypeNames {
  import opened Wrappers
  import opened StateTypes

  function ScalarName(of: Scalar): string
    requires of.Fixed? ==> of.decimals <= 9
  {
    match of
    case Float64 => "float64"
    case Float32 => "float32"
    case Text => "string"
    case Bool => "bool"
    case Fixed(d) => "fixed:" + [('0' as int + d) as char]
    case Integer(kind) =>
      match kind
      case Int8 => "int8"
      case Int16 => "int16"
      case Int32 => "int32"
      case UInt8 => "uint8"
      case UInt16 => "uint16"
      case UInt32 => "uint32"
  }

  /** Exactly the scalar names are scalars, each its own. */
  lemma ScalarParses(text: string, of: Scalar)
    requires of.Fixed? ==> of.decimals <= 9
    ensures ParseScalar(text) == Some(of) <==> text == ScalarName(of)
    ensures ParseScalar(text).Some? && ParseScalar(text).value.Fixed? ==> ParseScalar(text).value.decimals <= 9
  {
    if of.Fixed? {
      var digit := ('0' as int + of.decimals) as char;
      var name := "fixed:" + [digit];
      assert |name| == 7 && name[..6] == "fixed:" && name[6] == digit && digit as int - '0' as int == of.decimals;
      if |text| == 7 && text[..6] == "fixed:" {
        assert text == text[..6] + [text[6]];
        assert text[6] == digit <==> text[6] as int == digit as int;
        assert text == name <==> text[6] == digit;
        assert text[1] == text[..6][1] == 'i';
      }
    }
  }

  /** What a collection's or an object's name consists of, before its own. */
  function KindName(kind: Kind): string {
    match kind
    case Schema => "schema"
    case Map => "map"
    case Set => "set"
    case Array => "array"
    case SchemaMap => "schemaMap"
    case SchemaSet => "schemaSet"
    case SchemaArray => "schemaArray"
    case _ => ""
  }

  function IsKeyed(kind: Kind): bool { kind.Map? || kind.SchemaMap? }

  function Generic(kind: Kind, inner: string): string { KindName(kind) + "<" + inner + ">" }

  lemma {:induction false} IndexIs(a: string, c: char, b: string)
    requires c !in a
    ensures IndexOf(a + [c] + b, c) == |a|
    decreases |a|
  {
    var text := a + [c] + b;
    if a != "" {
      IndexIs(a[1..], c, b);
      assert text[1..] == a[1..] + [c] + b;
    }
  }

  lemma GenericOpens(kind: Kind, inner: string)
    requires KindName(kind) != ""
    ensures var text := Generic(kind, inner);
            && ParseScalar(text) == None
            && Parse(text) == ParseGeneric(text, KindName(kind), inner)
  {
    var text, head := Generic(kind, inner), KindName(kind);
    assert '<' !in head;
    IndexIs(head, '<', inner + ">");
    assert text == head + ['<'] + (inner + ">");
    assert text[..|head|] == head && text[|head| + 1..|text| - 1] == inner && text[|text| - 1] == '>';
    hide ParseGeneric, IndexOf;
    assert text[|text| - 1] == '>';
    NotScalar(text);
  }

  lemma NotScalar(text: string)
    requires text != "" && text[|text| - 1] == '>'
    ensures ParseScalar(text) == None
  {
    var scalar := ParseScalar(text);
    if scalar.Some? {
      ScalarParses(text, scalar.value);
    }
  }

  lemma NameHasNoComma(of: Scalar)
    requires of.Fixed? ==> of.decimals <= 9
    ensures ',' !in ScalarName(of) && ScalarName(of) != ""
  {
  }

  /** Keys are strings, doubles or integers. */
  predicate MayBeKey(of: Scalar) { of.Text? || of.Float64? || of.Integer? }

  /** A nested object, or a set or an array of instances, names its class. */
  lemma ObjectsParse(kind: Kind, class_: string)
    requires kind.Schema? || kind.SchemaSet? || kind.SchemaArray?
    ensures Parse(Generic(kind, class_)) ==
            if class_ == "" then None else Some(StateType(Generic(kind, class_), kind, Float64, Float64, class_))
  {
    GenericOpens(kind, class_);
    hide Parse, Generic, ParseGeneric, KindName;
    ObjectInner(kind, Generic(kind, class_), class_);
  }

  lemma ObjectInner(kind: Kind, text: string, class_: string)
    requires kind.Schema? || kind.SchemaSet? || kind.SchemaArray?
    ensures ParseGeneric(text, KindName(kind), class_) ==
            if class_ == "" then None else Some(StateType(text, kind, Float64, Float64, class_))
  {
    hide IndexOf, ParseScalar;
    var head := KindName(kind);
    assert |head| == if kind.Schema? then 6 else if kind.SchemaSet? then 9 else 11;
    assert kind.SchemaSet? ==> head[6] == 'S' && "schemaMap"[6] == 'M';
  }

  /** A set holds what may be a key, an array anything but integers. */
  lemma PlainCollectionsParse(kind: Kind, of: Scalar)
    requires (kind.Set? || kind.Array?) && (of.Fixed? ==> of.decimals <= 9)
    ensures var text := Generic(kind, ScalarName(of));
            Parse(text) ==
            if (if kind.Set? then MayBeKey(of) else !of.Integer?) then Some(StateType(text, kind, Float64, of, ""))
            else None
  {
    GenericOpens(kind, ScalarName(of));
    ScalarParses(ScalarName(of), of);
    hide Parse, Generic, ScalarName, ParseScalar, ParseGeneric, KindName;
    PlainInner(kind, Generic(kind, ScalarName(of)), ScalarName(of));
  }

  lemma PlainInner(kind: Kind, text: string, inner: string)
    requires kind.Set? || kind.Array?
    ensures ParseGeneric(text, KindName(kind), inner) ==
            var of := ParseScalar(inner);
            if of.Some? && (if kind.Set? then of.value.IsKey() else of.value.IsPrimitive())
            then Some(StateType(text, kind, Float64, of.value, "")) else None
  {
    hide IndexOf, ParseScalar;
    assert |KindName(kind)| == if kind.Set? then 3 else 5;
  }

  /** A map names its key's type and its values', or their class. */
  lemma MapsParse(kind: Kind, key: Scalar, value: string)
    requires IsKeyed(kind) && (key.Fixed? ==> key.decimals <= 9)
    ensures var text := Generic(kind, ScalarName(key) + "," + value);
            Parse(text) ==
            if !MayBeKey(key) then None
            else if kind.SchemaMap? then (if value == "" then None
                                          else Some(StateType(text, kind, key, Float64, value)))
            else
              var of := ParseScalar(value);
              if of.Some? && !of.value.Integer? then Some(StateType(text, kind, key, of.value, "")) else None
  {
    var name, inner := ScalarName(key), ScalarName(key) + "," + value;
    GenericOpens(kind, inner);
    ScalarParses(name, key);
    NameHasNoComma(key);
    hide Parse, Generic, ScalarName, ParseScalar, ParseGeneric;
    MapInner(kind, Generic(kind, inner), name, value);
  }

  lemma MapInner(kind: Kind, text: string, name: string, value: string)
    requires IsKeyed(kind) && name != "" && ',' !in name
    ensures ParseGeneric(text, KindName(kind), name + "," + value) ==
            var k := ParseScalar(name);
            if k.None? || !k.value.IsKey() then None
            else if kind.SchemaMap? then
              (if value == "" then None else Some(StateType(text, kind, k.value, Float64, value)))
            else
              var of := ParseScalar(value);
              if of.Some? && of.value.IsPrimitive() then Some(StateType(text, kind, k.value, of.value, "")) else None
  {
    var inner := name + "," + value;
    IndexIs(name, ',', value);
    assert inner[..|name|] == name && inner[|name| + 1..] == value;
    hide IndexOf, ParseScalar;
  }

  /** A scalar's type is its own. */
  lemma ScalarsParse(of: Scalar)
    requires of.Fixed? ==> of.decimals <= 9
    ensures Parse(ScalarName(of)) ==
            Some(StateType(ScalarName(of), if of.Integer? then Int else Primitive, Float64, of, ""))
  {
    ScalarParses(ScalarName(of), of);
    hide ScalarName, ParseScalar, ParseGeneric, IndexOf;
  }

  /** Which kinds are collections, and of what. */
  lemma KindsAre(t: StateType)
    ensures t.IsCollection() <==> t.IsArray() || t.IsSet() || t.IsMap()
    ensures t.IsArray() <==> t.kind == Array || t.kind == SchemaArray
    ensures t.IsSet() <==> t.kind == Kind.Set || t.kind == SchemaSet
    ensures t.IsMap() <==> t.kind == Kind.Map || t.kind == SchemaMap
    ensures t.HoldsSchemas() <==> t.kind == SchemaArray || t.kind == SchemaSet || t.kind == SchemaMap
  {
  }
}
