/** `DeserializableData` (Source/Core/Map/DeserializableData.swift): a value
    with path navigation and getters that fall back to a default or throw. */
module Deserialization {
  import opened Wrappers
  import opened SupportedTypes
  import opened ObjectMapping

  /** One step of the path: `raw.dictionary?[key] ?? .null`. */
  function Step(v: Value, key: string): (r: Value)
    ensures v.raw.Entries? && key in v.raw.entries ==> r == v.raw.entries[key]
    ensures !(v.raw.Entries? && key in v.raw.entries) ==> r == NullValue()
  {
    match v.raw.AsDictionary()
    case Some(dictionary) => if key in dictionary then dictionary[key] else NullValue()
    case None => NullValue()
  }

  /** `subscript(path:)`: `path.reduce(raw, Step)`. */
  function Subscript(v: Value, path: seq<string>): (r: Value)
    ensures |path| == 0 ==> r == v
    ensures |path| == 1 ==> r == Step(v, path[0])
    decreases |path|
  {
    if |path| == 0 then v else Subscript(Step(v, path[0]), path[1..])
  }

  /** Navigating `p + q` is navigating `p` and then `q`. */
  lemma {:induction false} SubscriptConcat(v: Value, p: seq<string>, q: seq<string>)
    ensures Subscript(v, p + q) == Subscript(Subscript(v, p), q)
    decreases |p|
  {
    if |p| == 0 {
      assert p + q == q;
    } else {
      assert (p + q)[1..] == p[1..] + q;
      SubscriptConcat(Step(v, p[0]), p[1..], q);
    }
  }

  /** Once a step lands on `.null`, every further path stays `.null`. */
  lemma {:induction false} NullStaysNull(path: seq<string>)
    ensures Subscript(NullValue(), path) == NullValue()
    decreases |path|
  {
    if |path| > 0 {
      NullStaysNull(path[1..]);
    }
  }

  /** A missing key, or a step through a non-dictionary, yields `.null` for
      the whole path. */
  lemma MissingKeyYieldsNull(v: Value, p: seq<string>, key: string, q: seq<string>)
    requires var w := Subscript(v, p); !(w.raw.Entries? && key in w.raw.entries)
    ensures Subscript(v, p + [key] + q) == NullValue()
  {
    SubscriptConcat(v, p + [key], q);
    SubscriptConcat(v, p, [key]);
    NullStaysNull(q);
  }

  /** The value at `path` when every key on it is present: `None` as soon as
      a key is missing or a step meets something that is not a dictionary. */
  function Lookup(v: Value, path: seq<string>): Option<Value>
    decreases |path|
  {
    if |path| == 0 then Some(v)
    else if v.raw.Entries? && path[0] in v.raw.entries then Lookup(v.raw.entries[path[0]], path[1..])
    else None
  }

  /** A path of present keys finds the nested value; any other path yields
      `.null`. */
  lemma {:induction false} PresentKeysNavigate(v: Value, path: seq<string>)
    ensures Lookup(v, path).Some? ==> Subscript(v, path) == Lookup(v, path).value
    ensures Lookup(v, path).None? ==> Subscript(v, path) == NullValue()
    decreases |path|
  {
    if |path| > 0 {
      if v.raw.Entries? && path[0] in v.raw.entries {
        PresentKeysNavigate(v.raw.entries[path[0]], path[1..]);
      } else {
        NullStaysNull(path[1..]);
      }
    }
  }

  /** `get(or:)`: the default exactly when `get` throws. */
  function GetOr<T>(data: Value, deserialize: Value -> Result<T, DeserializationError>, default: T): (r: T)
    ensures deserialize(data).Failure? ==> r == default
    ensures deserialize(data).Success? ==> r == deserialize(data).value
  {
    match deserialize(data)
    case Success(value) => value
    case Failure(_) => default
  }

  /** `get(using:or:)` for every result shape: `get(using:) ?? or`. */
  function OrDefault<U>(found: Option<U>, default: U): (r: U)
    ensures found.Some? ==> r == found.value
    ensures found.None? ==> r == default
  {
    found.GetOr(default)
  }

  /** `valueOrThrow`: the value when present, else
      `wrongType(type: raw, expected: .null)`. */
  function ValueOrThrow<U>(data: Value, optionalValue: Option<U>): (r: Result<U, DeserializationError>)
    ensures r.Success? <==> optionalValue.Some?
    ensures r.Success? ==> r.value == optionalValue.value
    ensures r.Failure? ==> r.error == WrongType(Null, data)
  {
    match optionalValue
    case Some(value) => Success(value)
    case None => Failure(WrongType(Null, data))
  }

  /** The throwing `get(using:) -> [T]` throws exactly when the optional
      `get(using:) -> [T]?` is nil, and otherwise agrees with it; the same
      holds for the other shapes, which differ only in the mapper function. */
  lemma ThrowingArrayGetterAgrees<T>(data: Value, transform: Value -> Option<T>)
    ensures var r := ValueOrThrow(data, DeserializeArrayUsing(data, transform));
      (r.Failure? <==> (!data.raw.Elements? || exists i :: 0 <= i < |data.raw.items| && transform(data.raw.items[i]).None?)) &&
      (r.Success? ==> |r.value| == |data.raw.items| && forall i :: 0 <= i < |r.value| ==> transform(data.raw.items[i]) == Some(r.value[i]))
  {
  }

  /** The defaulted dictionary getter `get(using:or:) -> [String: T]` gives
      the default exactly when some value fails or the data is not a
      dictionary. */
  lemma DefaultedDictionaryGetter<T>(data: Value, transform: Value -> Option<T>, default: map<string, T>)
    ensures var r := OrDefault(DeserializeDictionaryUsing(data, transform), default);
      (!data.raw.Entries? ==> r == default) &&
      (data.raw.Entries? && (exists k :: k in data.raw.entries && transform(data.raw.entries[k]).None?) ==>
         r == default) &&
      (data.raw.Entries? && (forall k :: k in data.raw.entries ==> transform(data.raw.entries[k]).Some?) ==>
         r.Keys == data.raw.entries.Keys && forall k :: k in r ==> transform(data.raw.entries[k]) == Some(r[k]))
  {
  }
}
