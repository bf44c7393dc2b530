/** The `SupportedNumber` draft (Source/Core/SupportedType/SupportedNumber*.swift
    and SupportedType+SupportedNumber.swift): a number is three optional
    projections, and the value is an enum whose numeric case carries one. */
module SupportedNumbers {
  import opened Wrappers
  import SupportedTypes

  /** `struct SupportedNumber { let bool: Bool?; let int: Int?; let double: Double? }` */
  datatype SupportedNumber = SupportedNumber(boolValue: Option<bool>, intValue: Option<int>, doubleValue: Option<SupportedTypes.Float64>)

  /** `init(bool: = nil, int: = nil, double: = nil)` */
  function Init(boolValue: Option<bool> := None, intValue: Option<int> := None,
                doubleValue: Option<SupportedTypes.Float64> := None): (n: SupportedNumber)
    ensures n.boolValue == boolValue && n.intValue == intValue && n.doubleValue == doubleValue
  {
    SupportedNumber(boolValue, intValue, doubleValue)
  }

  /** Swift's `==` on `Double?`: nil equals only nil, and present doubles
      compare as IEEE doubles. */
  predicate OptionalDoubleEquals(a: Option<SupportedTypes.Float64>, b: Option<SupportedTypes.Float64>) {
    (a.None? && b.None?) || (a.Some? && b.Some? && SupportedTypes.FloatEquals(a.value, b.value))
  }

  /** `==` on `SupportedNumber`: component-wise. */
  predicate Equal(lhs: SupportedNumber, rhs: SupportedNumber) {
    lhs.boolValue == rhs.boolValue && lhs.intValue == rhs.intValue && OptionalDoubleEquals(lhs.doubleValue, rhs.doubleValue)
  }

  /** Equality holds when the two numbers agree on every component: both
      directions, so an extra component on one side makes them unequal. */
  lemma EqualIffComponentsEqual(lhs: SupportedNumber, rhs: SupportedNumber)
    ensures Equal(lhs, rhs) <==>
      lhs.boolValue == rhs.boolValue && lhs.intValue == rhs.intValue &&
      (lhs.doubleValue.None? <==> rhs.doubleValue.None?) &&
      (lhs.doubleValue.Some? ==> SupportedTypes.FloatEquals(lhs.doubleValue.value, rhs.doubleValue.value))
  {
  }

  /** Reflexive whenever the double component, if any, is not NaN. */
  lemma EqualReflexive(n: SupportedNumber)
    requires n.doubleValue.None? || !n.doubleValue.value.NaN?
    ensures Equal(n, n)
  {
    if n.doubleValue.Some? {
      SupportedTypes.FloatEqualsReflexive(n.doubleValue.value);
    }
  }

  /** A NaN double makes a number unequal to itself, as in Swift. */
  lemma NaNIsNotEqualToItself(n: SupportedNumber)
    requires n.doubleValue == Some(SupportedTypes.NaN)
    ensures !Equal(n, n)
  {
  }

  lemma EqualSymmetric(lhs: SupportedNumber, rhs: SupportedNumber)
    ensures Equal(lhs, rhs) <==> Equal(rhs, lhs)
  {
    if lhs.doubleValue.Some? && rhs.doubleValue.Some? {
      SupportedTypes.FloatEqualsSymmetric(lhs.doubleValue.value, rhs.doubleValue.value);
    }
  }

  /** The cases of the draft's tests. */
  lemma InitAndEqualityExamples()
    ensures Init() == SupportedNumber(None, None, None)
    ensures Init(boolValue := Some(true)).intValue.None? && Init(boolValue := Some(true)).doubleValue.None?
    ensures Init(intValue := Some(1)).boolValue.None? && Init(intValue := Some(1)).doubleValue.None?
    ensures !Equal(Init(intValue := Some(1)), Init(intValue := Some(1), doubleValue := Some(SupportedTypes.FromInt(2))))
    ensures !Equal(Init(Some(false), Some(1), Some(SupportedTypes.FromInt(2))), Init(Some(true), Some(1), Some(SupportedTypes.FromInt(2))))
    ensures !Equal(Init(boolValue := Some(true)), Init(intValue := Some(2)))
    ensures Equal(Init(Some(true), Some(1), Some(SupportedTypes.FromInt(2))), Init(Some(true), Some(1), Some(SupportedTypes.FromInt(2))))
  {
    SupportedTypes.FloatEqualsReflexive(SupportedTypes.FromInt(2));
  }

  /** The enum value of this draft; its numeric case holds a `SupportedNumber`. */
  datatype SupportedType =
    | Null
    | Str(text: string)
    | Number(number: SupportedNumber)
    | Array(items: seq<SupportedType>)
    | Dictionary(entries: map<string, SupportedType>)
  {
    /** `number?.bool` */
    function AsBool(): Option<bool> {
      if Number? then number.boolValue else None
    }

    /** `number?.int` */
    function AsInt(): Option<int> {
      if Number? then number.intValue else None
    }

    /** `number?.double` */
    function AsDouble(): Option<SupportedTypes.Float64> {
      if Number? then number.doubleValue else None
    }
  }

  /** `.bool(v)`: the bool projection only. */
  function BoolNumber(v: bool): (t: SupportedType)
    ensures t.AsBool() == Some(v) && t.AsInt().None? && t.AsDouble().None?
  {
    Number(Init(boolValue := Some(v)))
  }

  /** `.int(v)`: the int projection only. */
  function IntNumber(v: int): (t: SupportedType)
    ensures t.AsInt() == Some(v) && t.AsBool().None? && t.AsDouble().None?
  {
    Number(Init(intValue := Some(v)))
  }

  /** `.double(v)`: the double projection only. */
  function DoubleNumber(v: SupportedTypes.Float64): (t: SupportedType)
    ensures t.AsDouble() == Some(v) && t.AsBool().None? && t.AsInt().None?
  {
    Number(Init(doubleValue := Some(v)))
  }

  /** A value that is not a number answers none of the numeric accessors. */
  lemma NonNumbersHaveNoProjections(t: SupportedType)
    requires !t.Number?
    ensures t.AsBool().None? && t.AsInt().None? && t.AsDouble().None?
  {
  }
}
