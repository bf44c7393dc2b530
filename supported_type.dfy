/** The intermediate value of the mapper (Source/Core/SupportedType.swift).
    A value is a raw payload together with a type tag; the two are stored
    separately and the typed accessors look only at the payload, except that
    `double` also widens an `intOrDouble` integer. */
module SupportedTypes {
  import opened Wrappers

  /** Double payloads are opaque: IEEE arithmetic is not modelled. A finite
      double keeps the decimal it denotes, mantissa * 10^exponent. */
  datatype Float64 = Finite(mantissa: int, exponent: int) | NaN | Infinity(negative: bool)

  /** `Double(n)` for an integer `n`. */
  function FromInt(n: int): (d: Float64)
    ensures d.Finite? && d.mantissa == n && d.exponent == 0
  {
    Finite(n, 0)
  }

  function Pow10(n: nat): (p: nat)
    ensures p >= 1
  {
    if n == 0 then 1 else 10 * Pow10(n - 1)
  }

  /** The decimal `m * 10^e` scaled by `10^shift`, as an integer. */
  function Scaled(m: int, e: int, shift: int): int
    requires e >= shift
  {
    m * Pow10((e - shift) as nat)
  }

  /** Swift's `==` on doubles: NaN equals nothing, infinities equal when
      their signs agree, finite values when they denote the same number. */
  predicate FloatEquals(a: Float64, b: Float64) {
    match (a, b)
    case (Finite(m1, e1), Finite(m2, e2)) =>
      var low := if e1 < e2 then e1 else e2;
      Scaled(m1, e1, low) == Scaled(m2, e2, low)
    case (Infinity(n1), Infinity(n2)) => n1 == n2
    case _ => false
  }

  lemma FloatEqualsReflexive(a: Float64)
    requires !a.NaN?
    ensures FloatEquals(a, a)
  {
  }

  lemma FloatEqualsSymmetric(a: Float64, b: Float64)
    ensures FloatEquals(a, b) <==> FloatEquals(b, a)
  {
  }

  /** `SupportedType.RawType` */
  datatype RawType = Null | String | Bool | Int | Double | Array | Dictionary | IntOrDouble

  /** The `raw: Any?` payload. Swift only ever stores one of these kinds in it;
      `N` is the type of the children of a container. */
  datatype Payload<N> =
    | Nil
    | Text(text: string)
    | Boolean(truth: bool)
    | Integer(number: int)
    | Real(float: Float64)
    | Elements(items: seq<N>)
    | Entries(entries: map<string, N>)
  {
    /** `isNull`: the payload is nil. */
    predicate IsNull() { Nil? }

    /** `raw as? String` */
    function AsString(): Option<string> {
      if Text? then Some(text) else None
    }

    /** `raw as? Bool` */
    function AsBool(): Option<bool> {
      if Boolean? then Some(truth) else None
    }

    /** `raw as? Int` */
    function AsInt(): Option<int> {
      if Integer? then Some(number) else None
    }

    /** The `double` getter: an `intOrDouble` integer widens, otherwise `raw as? Double`. */
    function AsDouble(kind: RawType): Option<Float64> {
      if kind == IntOrDouble && Integer? then Some(FromInt(number))
      else if Real? then Some(float)
      else None
    }

    /** `raw as? [SupportedType]` */
    function AsArray(): Option<seq<N>> {
      if Elements? then Some(items) else None
    }

    /** `raw as? [String: SupportedType]` */
    function AsDictionary(): Option<map<string, N>> {
      if Entries? then Some(entries) else None
    }
  }

  /** A value tree: what a `SupportedType` node and the nodes below it denote. */
  datatype Value = Value(raw: Payload<Value>, kind: RawType)

  /** The tag agrees with the payload, at every level. The writer force-casts
      the payload to the kind the tag names, so it needs this. */
  predicate Agrees<N>(raw: Payload<N>, kind: RawType) {
    match kind
    case Null => raw.Nil?
    case String => raw.Text?
    case Bool => raw.Boolean?
    case Int => raw.Integer?
    case IntOrDouble => raw.Integer?
    case Double => raw.Real?
    case Array => raw.Elements?
    case Dictionary => raw.Entries?
  }

  predicate WellTagged(v: Value)
    decreases v
  {
    && Agrees(v.raw, v.kind)
    && (v.raw.Elements? ==> forall i :: 0 <= i < |v.raw.items| ==> WellTagged(v.raw.items[i]))
    && (v.raw.Entries? ==> forall k :: k in v.raw.entries ==> WellTagged(v.raw.entries[k]))
  }

  // The static constructors of SupportedType, on values.

  function NullValue(): (v: Value)
    ensures v.raw.IsNull() && v.kind == Null
    ensures v.raw.AsString().None? && v.raw.AsBool().None? && v.raw.AsInt().None?
    ensures v.raw.AsDouble(v.kind).None? && v.raw.AsArray().None? && v.raw.AsDictionary().None?
  {
    Value(Nil, Null)
  }

  function StringValue(s: string): (v: Value)
    ensures v.raw.AsString() == Some(s) && v.kind == String && !v.raw.IsNull()
    ensures v.raw.AsBool().None? && v.raw.AsInt().None? && v.raw.AsDouble(v.kind).None?
  {
    Value(Text(s), String)
  }

  function BoolValue(b: bool): (v: Value)
    ensures v.raw.AsBool() == Some(b) && v.kind == Bool && !v.raw.IsNull()
    ensures v.raw.AsString().None? && v.raw.AsInt().None? && v.raw.AsDouble(v.kind).None?
  {
    Value(Boolean(b), Bool)
  }

  function IntValue(n: int): (v: Value)
    ensures v.raw.AsInt() == Some(n) && v.kind == Int && !v.raw.IsNull()
    ensures v.raw.AsString().None? && v.raw.AsBool().None? && v.raw.AsDouble(v.kind).None?
  {
    Value(Integer(n), Int)
  }

  function DoubleValue(d: Float64): (v: Value)
    ensures v.raw.AsDouble(v.kind) == Some(d) && v.kind == Double && !v.raw.IsNull()
    ensures v.raw.AsString().None? && v.raw.AsBool().None? && v.raw.AsInt().None?
  {
    Value(Real(d), Double)
  }

  function ArrayValue(items: seq<Value>): (v: Value)
    ensures v.raw.AsArray() == Some(items) && v.kind == Array && !v.raw.IsNull()
    ensures v.raw.AsDictionary().None? && v.raw.AsString().None?
  {
    Value(Elements(items), Array)
  }

  function DictionaryValue(entries: map<string, Value>): (v: Value)
    ensures v.raw.AsDictionary() == Some(entries) && v.kind == Dictionary && !v.raw.IsNull()
    ensures v.raw.AsArray().None? && v.raw.AsString().None?
  {
    Value(Entries(entries), Dictionary)
  }

  /** `intOrDouble(n)`: answers both `int` and `double`, but not `bool`. */
  function IntOrDoubleValue(n: int): (v: Value)
    ensures v.raw.AsInt() == Some(n) && v.raw.AsDouble(v.kind) == Some(FromInt(n))
    ensures v.raw.AsBool().None? && v.raw.AsString().None? && !v.raw.IsNull()
    ensures v.kind == IntOrDouble
  {
    Value(Integer(n), IntOrDouble)
  }

  /** On a well-tagged value each accessor answers exactly for its own tag;
      `int` also answers for `intOrDouble`, and `double` for `intOrDouble`. */
  lemma AccessorsFollowTag(v: Value)
    requires WellTagged(v)
    ensures v.raw.IsNull() <==> v.kind == Null
    ensures v.raw.AsString().Some? <==> v.kind == String
    ensures v.raw.AsBool().Some? <==> v.kind == Bool
    ensures v.raw.AsInt().Some? <==> v.kind == Int || v.kind == IntOrDouble
    ensures v.raw.AsDouble(v.kind).Some? <==> v.kind == Double || v.kind == IntOrDouble
    ensures v.raw.AsArray().Some? <==> v.kind == Array
    ensures v.raw.AsDictionary().Some? <==> v.kind == Dictionary
  {
  }

  /** The mutable node `SupportedType`. Containers hold references to other
      nodes, so a node that is stored in a parent and also held by a Codable
      container is shared: changing it through the container changes the
      parent's child. */
  class SupportedType {
    var raw: Payload<SupportedType>
    var kind: RawType

    /** `init(raw:type:)`: stores both as given, even when they disagree. */
    constructor (raw: Payload<SupportedType>, kind: RawType)
      ensures this.raw == raw && this.kind == kind
    {
      this.raw := raw;
      this.kind := kind;
    }

    predicate IsNull() reads this { raw.IsNull() }
    function AsString(): Option<string> reads this { raw.AsString() }
    function AsBool(): Option<bool> reads this { raw.AsBool() }
    function AsInt(): Option<int> reads this { raw.AsInt() }
    function AsDouble(): Option<Float64> reads this { raw.AsDouble(kind) }
    function AsArray(): Option<seq<SupportedType>> reads this { raw.AsArray() }
    function AsDictionary(): Option<map<string, SupportedType>> reads this { raw.AsDictionary() }

    /** `addToDictionary(key:value:)`: a dictionary keeps its entries and maps
        `key` to `value`; anything else is replaced by the one-entry
        dictionary and retagged. */
    method AddToDictionary(key: string, value: SupportedType)
      modifies this
      ensures old(raw).Entries? ==> raw == Entries(old(raw).entries[key := value]) && kind == old(kind)
      ensures !old(raw).Entries? ==> raw.Entries? && raw.entries == map[key := value] && kind == Dictionary
      ensures AsDictionary().Some? && key in AsDictionary().value && AsDictionary().value[key] == value
    {
      var mutableDictionary: map<string, SupportedType>;
      var dictionary := AsDictionary();
      if dictionary.Some? {
        mutableDictionary := dictionary.value;
      } else {
        mutableDictionary := map[];
        kind := Dictionary;
      }
      mutableDictionary := mutableDictionary[key := value];
      raw := Entries(mutableDictionary);
    }

    /** `appendToArray(value:)`: an array gets `value` as its new last
        element; anything else is replaced by `[value]` and retagged. */
    method AppendToArray(value: SupportedType)
      modifies this
      ensures old(raw).Elements? ==> raw == Elements(old(raw).items + [value]) && kind == old(kind)
      ensures !old(raw).Elements? ==> raw == Elements([value]) && kind == Array
      ensures AsArray().Some? && |AsArray().value| > 0 && AsArray().value[|AsArray().value| - 1] == value
    {
      var mutableArray: seq<SupportedType>;
      var existing := AsArray();
      if existing.Some? {
        mutableArray := existing.value;
      } else {
        mutableArray := [];
        kind := Array;
      }
      mutableArray := mutableArray + [value];
      raw := Elements(mutableArray);
    }

    /** `setNull()` */
    method SetNull()
      modifies this
      ensures raw == Nil && kind == Null && IsNull()
    {
      kind := Null;
      raw := Nil;
    }

    /** The `string` setter; nil means `setNull()`. */
    method SetString(newValue: Option<string>)
      modifies this
      ensures newValue.None? ==> raw == Nil && kind == Null
      ensures newValue.Some? ==> raw == Text(newValue.value) && kind == String
      ensures AsString() == newValue && (IsNull() <==> newValue.None?)
    {
      if newValue.None? {
        SetNull();
        return;
      }
      kind := String;
      raw := Text(newValue.value);
    }

    /** The `bool` setter. */
    method SetBool(newValue: Option<bool>)
      modifies this
      ensures newValue.None? ==> raw == Nil && kind == Null
      ensures newValue.Some? ==> raw == Boolean(newValue.value) && kind == Bool
      ensures AsBool() == newValue && (IsNull() <==> newValue.None?)
    {
      if newValue.None? {
        SetNull();
        return;
      }
      kind := Bool;
      raw := Boolean(newValue.value);
    }

    /** The `int` setter: the tag becomes `.int`, so `double` no longer widens. */
    method SetInt(newValue: Option<int>)
      modifies this
      ensures newValue.None? ==> raw == Nil && kind == Null
      ensures newValue.Some? ==> raw == Integer(newValue.value) && kind == Int
      ensures AsInt() == newValue && AsDouble().None? && (IsNull() <==> newValue.None?)
    {
      if newValue.None? {
        SetNull();
        return;
      }
      kind := Int;
      raw := Integer(newValue.value);
    }

    /** The `double` setter. */
    method SetDouble(newValue: Option<Float64>)
      modifies this
      ensures newValue.None? ==> raw == Nil && kind == Null
      ensures newValue.Some? ==> raw == Real(newValue.value) && kind == Double
      ensures AsDouble() == newValue && AsInt().None? && (IsNull() <==> newValue.None?)
    {
      if newValue.None? {
        SetNull();
        return;
      }
      kind := Double;
      raw := Real(newValue.value);
    }

    /** The `array` setter. */
    method SetArray(newValue: Option<seq<SupportedType>>)
      modifies this
      ensures newValue.None? ==> raw == Nil && kind == Null
      ensures newValue.Some? ==> raw == Elements(newValue.value) && kind == Array
      ensures AsArray() == newValue && (IsNull() <==> newValue.None?)
    {
      if newValue.None? {
        SetNull();
        return;
      }
      kind := Array;
      raw := Elements(newValue.value);
    }

    /** The `dictionary` setter. */
    method SetDictionary(newValue: Option<map<string, SupportedType>>)
      modifies this
      ensures newValue.None? ==> raw == Nil && kind == Null
      ensures newValue.Some? ==> raw == Entries(newValue.value) && kind == Dictionary
      ensures AsDictionary() == newValue && (IsNull() <==> newValue.None?)
    {
      if newValue.None? {
        SetNull();
        return;
      }
      kind := Dictionary;
      raw := Entries(newValue.value);
    }
  }

  // The static constructors of SupportedType, allocating a fresh node.

  method NewNull() returns (n: SupportedType)
    ensures fresh(n) && n.raw == Nil && n.kind == Null
  {
    n := new SupportedType(Nil, Null);
  }

  method NewString(s: string) returns (n: SupportedType)
    ensures fresh(n) && n.raw == Text(s) && n.kind == String
  {
    n := new SupportedType(Text(s), String);
  }

  method NewBool(b: bool) returns (n: SupportedType)
    ensures fresh(n) && n.raw == Boolean(b) && n.kind == Bool
  {
    n := new SupportedType(Boolean(b), Bool);
  }

  method NewInt(i: int) returns (n: SupportedType)
    ensures fresh(n) && n.raw == Integer(i) && n.kind == Int
  {
    n := new SupportedType(Integer(i), Int);
  }

  method NewDouble(d: Float64) returns (n: SupportedType)
    ensures fresh(n) && n.raw == Real(d) && n.kind == Double
  {
    n := new SupportedType(Real(d), Double);
  }

  method NewArray(items: seq<SupportedType>) returns (n: SupportedType)
    ensures fresh(n) && n.raw == Elements(items) && n.kind == Array
  {
    n := new SupportedType(Elements(items), Array);
  }

  method NewDictionary(entries: map<string, SupportedType>) returns (n: SupportedType)
    ensures fresh(n) && n.raw == Entries(entries) && n.kind == Dictionary
  {
    n := new SupportedType(Entries(entries), Dictionary);
  }

  method NewIntOrDouble(i: int) returns (n: SupportedType)
    ensures fresh(n) && n.raw == Integer(i) && n.kind == IntOrDouble
    ensures n.AsInt() == Some(i) && n.AsDouble() == Some(FromInt(i)) && n.AsBool().None?
  {
    n := new SupportedType(Integer(i), IntOrDouble);
  }
}
