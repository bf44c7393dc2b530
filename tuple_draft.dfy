/** The earlier draft of the value (Source/Core/SupportedType/SupportedType.swift):
    a node with only a `raw` payload and no type tag, where numbers may be a
    tuple of optional bool, int and double projections. */
module TupleDraft {
  import opened Wrappers
  import SupportedTypes

  /** `Number = (bool: Bool?, int: Int?, double: Double?)` */
  datatype Number = Number(boolValue: Option<bool>, intValue: Option<int>, doubleValue: Option<SupportedTypes.Float64>)

  /** What the draft stores in `raw: Any?`. */
  datatype Raw =
    | Nil
    | Text(text: string)
    | Boolean(truth: bool)
    | Integer(integer: int)
    | Real(float: SupportedTypes.Float64)
    | Elements(items: seq<SupportedType>)
    | Entries(entries: map<string, SupportedType>)
    | Tuple(number: Number)
  {
    /** `isNull` */
    predicate IsNull() { Nil? }

    /** `raw as? String`: a number tuple is never a string. */
    function AsString(): (r: Option<string>)
      ensures Tuple? ==> r.None?
    {
      if Text? then Some(text) else None
    }

    /** `raw as? Bool ?? number?.bool` */
    function AsBool(): Option<bool> {
      if Boolean? then Some(truth)
      else if Tuple? then number.boolValue
      else None
    }

    /** `raw as? Int ?? number?.int` */
    function AsInt(): Option<int> {
      if Integer? then Some(integer)
      else if Tuple? then number.intValue
      else None
    }

    /** `raw as? Double ?? number?.double` */
    function AsDouble(): Option<SupportedTypes.Float64> {
      if Real? then Some(float)
      else if Tuple? then number.doubleValue
      else None
    }

    function AsArray(): Option<seq<SupportedType>> {
      if Elements? then Some(items) else None
    }

    function AsDictionary(): Option<map<string, SupportedType>> {
      if Entries? then Some(entries) else None
    }

    /** `raw as? Number` */
    function AsNumber(): Option<Number> {
      if Tuple? then Some(number) else None
    }
  }

  // The static `number(...)` constructors, as the payload they store.

  /** `number(bool:int:)`: no double projection. */
  function NumberBoolInt(b: bool, i: int): (r: Raw)
    ensures r.AsBool() == Some(b) && r.AsInt() == Some(i) && r.AsDouble().None?
    ensures r.AsString().None? && !r.IsNull()
  {
    Tuple(Number(Some(b), Some(i), None))
  }

  /** `number(bool:double:)`: no int projection. */
  function NumberBoolDouble(b: bool, d: SupportedTypes.Float64): (r: Raw)
    ensures r.AsBool() == Some(b) && r.AsDouble() == Some(d) && r.AsInt().None?
    ensures r.AsString().None? && !r.IsNull()
  {
    Tuple(Number(Some(b), None, Some(d)))
  }

  /** `number(int:double:)`: no bool projection. */
  function NumberIntDouble(i: int, d: SupportedTypes.Float64): (r: Raw)
    ensures r.AsInt() == Some(i) && r.AsDouble() == Some(d) && r.AsBool().None?
    ensures r.AsString().None? && !r.IsNull()
  {
    Tuple(Number(None, Some(i), Some(d)))
  }

  /** `number(bool:int:double:)`: all three projections. */
  function NumberAll(b: bool, i: int, d: SupportedTypes.Float64): (r: Raw)
    ensures r.AsBool() == Some(b) && r.AsInt() == Some(i) && r.AsDouble() == Some(d)
    ensures r.AsString().None? && !r.IsNull()
  {
    Tuple(Number(Some(b), Some(i), Some(d)))
  }

  /** A direct payload answers its own accessor; only a tuple answers several. */
  lemma DirectPayloadsAnswerOnce(r: Raw)
    requires !r.Tuple?
    ensures r.AsBool().Some? ==> r.AsInt().None? && r.AsDouble().None? && r.AsString().None?
    ensures r.AsInt().Some? ==> r.AsBool().None? && r.AsDouble().None? && r.AsString().None?
    ensures r.AsDouble().Some? ==> r.AsBool().None? && r.AsInt().None? && r.AsString().None?
  {
  }

  /** The draft node: `raw` is its only state. */
  class SupportedType {
    var raw: Raw

    constructor (raw: Raw)
      ensures this.raw == raw
    {
      this.raw := raw;
    }

    predicate IsNull() reads this { raw.IsNull() }

    /** `addToDictionary(key:value:)`: `dictionary ?? [:]` with `key` set. */
    method AddToDictionary(key: string, value: SupportedType)
      modifies this
      ensures old(raw).Entries? ==> raw.Entries? && raw.entries == old(raw).entries[key := value]
      ensures !old(raw).Entries? ==> raw.Entries? && raw.entries == map[key := value]
    {
      var mutableDictionary := raw.AsDictionary().GetOr(map[]);
      mutableDictionary := mutableDictionary[key := value];
      raw := Entries(mutableDictionary);
    }
  }
}
