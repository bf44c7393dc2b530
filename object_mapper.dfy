/** The composite and transformation helpers of `ObjectMapper`
    (Source/Core/ObjectMapper.swift), on value trees. Per-type
    deserialisation (`polymorphType` followed by `init(_ data:)`) and the
    transformations are function parameters. */
module ObjectMapping {
  import opened Wrappers
  import opened SupportedTypes
  import Collections

  /** `DeserializationError`: the mapper's throws. */
  datatype DeserializationError =
    | WrongType(expected: RawType, actual: Value)
    | Custom(message: string)
    | Unknown

  /** All elements deserialize. */
  predicate AllSucceed<T>(items: seq<Value>, deserialize: Value -> Result<T, DeserializationError>) {
    forall i :: 0 <= i < |items| ==> deserialize(items[i]).Success?
  }

  /** `try array.map { try deserialize(T.self, from: $0) }`: one result per
      element, in order, or the error of the first element that fails. */
  function MapThrowing<T>(items: seq<Value>, deserialize: Value -> Result<T, DeserializationError>): (r: Result<seq<T>, DeserializationError>)
    ensures r.Success? <==> AllSucceed(items, deserialize)
    ensures r.Success? ==> |r.value| == |items| && forall i :: 0 <= i < |items| ==> deserialize(items[i]) == Success(r.value[i])
    ensures r.Failure? ==> exists i :: 0 <= i < |items| && deserialize(items[i]) == Failure(r.error) &&
                                       AllSucceed(items[..i], deserialize)
  {
    if |items| == 0 then Success([])
    else
      var head := deserialize(items[0]);
      if head.Failure? then
        assert AllSucceed(items[..0], deserialize);
        Failure(head.error)
      else
        var tail := MapThrowing(items[1..], deserialize);
        if tail.Failure? then
          var j :| 0 <= j < |items[1..]| && deserialize(items[1..][j]) == Failure(tail.error) && AllSucceed(items[1..][..j], deserialize);
          assert deserialize(items[j + 1]) == Failure(tail.error);
          assert AllSucceed(items[..j + 1], deserialize);
          Failure(tail.error)
        else
          Success([head.value] + tail.value)
  }

  /** `deserializeArray`: a non-array throws `wrongType(expected: .array)`;
      otherwise all elements or the first error, never a partial result. */
  function DeserializeArray<T>(storage: Value, deserialize: Value -> Result<T, DeserializationError>): (r: Result<seq<T>, DeserializationError>)
    ensures !storage.raw.Elements? ==> r == Failure(WrongType(Array, storage))
    ensures storage.raw.Elements? ==> r == MapThrowing(storage.raw.items, deserialize)
  {
    match storage.raw.AsArray()
    case None => Failure(WrongType(Array, storage))
    case Some(items) => MapThrowing(items, deserialize)
  }

  /** `deserializeOptional`: nil for a null value, otherwise `deserialize`. */
  function DeserializeOptional<T>(storage: Value, deserialize: Value -> Result<T, DeserializationError>): (r: Result<Option<T>, DeserializationError>)
    ensures storage.raw.IsNull() ==> r == Success(None)
    ensures !storage.raw.IsNull() ==> (r.Success? <==> deserialize(storage).Success?)
    ensures !storage.raw.IsNull() && r.Success? ==> r.value == Some(deserialize(storage).value)
    ensures !storage.raw.IsNull() && r.Failure? ==> r.error == deserialize(storage).error
  {
    if storage.raw.IsNull() then Success(None)
    else
      match deserialize(storage)
      case Success(v) => Success(Some(v))
      case Failure(e) => Failure(e)
  }

  /** `try dictionary.mapValues { try deserialize(...) }`. The iteration
      order of a Swift dictionary is unspecified, so when several values
      fail the model only promises the error of one of them. */
  ghost function MapValuesThrowing<T>(entries: map<string, Value>, deserialize: Value -> Result<T, DeserializationError>): (r: Result<map<string, T>, DeserializationError>)
    ensures r.Success? <==> forall k :: k in entries ==> deserialize(entries[k]).Success?
    ensures r.Success? ==> r.value.Keys == entries.Keys && forall k :: k in entries ==> deserialize(entries[k]) == Success(r.value[k])
    ensures r.Failure? ==> exists k :: k in entries && deserialize(entries[k]) == Failure(r.error)
  {
    if forall k :: k in entries ==> deserialize(entries[k]).Success? then
      Success(map k | k in entries :: deserialize(entries[k]).value)
    else
      var k :| k in entries && deserialize(entries[k]).Failure?;
      Failure(deserialize(entries[k]).error)
  }

  /** `deserializeDictionary`: a non-dictionary throws
      `wrongType(expected: .dictionary)`; otherwise the same keys with their
      deserialized values, or the error of a value that fails. */
  ghost function DeserializeDictionary<T>(storage: Value, deserialize: Value -> Result<T, DeserializationError>): (r: Result<map<string, T>, DeserializationError>)
    ensures !storage.raw.Entries? ==> r == Failure(WrongType(Dictionary, storage))
    ensures storage.raw.Entries? && r.Success? ==> r.value.Keys == storage.raw.entries.Keys
    ensures storage.raw.Entries? && r.Success? ==>
      forall k :: k in storage.raw.entries ==> deserialize(storage.raw.entries[k]) == Success(r.value[k])
    ensures storage.raw.Entries? && r.Failure? ==>
      exists k :: k in storage.raw.entries && deserialize(storage.raw.entries[k]) == Failure(r.error)
    ensures storage.raw.Entries? ==> (r.Success? <==> forall k :: k in storage.raw.entries ==> deserialize(storage.raw.entries[k]).Success?)
  {
    match storage.raw.AsDictionary()
    case None => Failure(WrongType(Dictionary, storage))
    case Some(dictionary) => MapValuesThrowing(dictionary, deserialize)
  }

  // The transformation variants return nil instead of throwing.

  /** `deserialize(_:using:) -> [T]?`: nil for a non-array or when any
      element transforms to nil. */
  function DeserializeArrayUsing<T>(storage: Value, transform: Value -> Option<T>): (r: Option<seq<T>>)
    ensures !storage.raw.Elements? ==> r.None?
    ensures storage.raw.Elements? ==> r == Collections.MappedOrNil(storage.raw.items, transform)
  {
    match storage.raw.AsArray()
    case None => None
    case Some(items) => Collections.MappedOrNil(items, transform)
  }

  /** `deserialize(_:using:) -> [T?]?`: nil elements are kept, so the length
      is the array's. */
  function DeserializeOptionalArrayUsing<T>(storage: Value, transform: Value -> Option<T>): (r: Option<seq<Option<T>>>)
    ensures r.Some? <==> storage.raw.Elements?
    ensures r.Some? ==> |r.value| == |storage.raw.items| && forall i :: 0 <= i < |r.value| ==> r.value[i] == transform(storage.raw.items[i])
  {
    match storage.raw.AsArray()
    case None => None
    case Some(items) => Some(seq(|items|, i requires 0 <= i < |items| => transform(items[i])))
  }

  /** `deserialize(_:using:) -> [String: T]?`: nil for a non-dictionary or
      when any value transforms to nil. */
  function DeserializeDictionaryUsing<T>(storage: Value, transform: Value -> Option<T>): (r: Option<map<string, T>>)
    ensures !storage.raw.Entries? ==> r.None?
    ensures storage.raw.Entries? ==> (r.None? <==> exists k :: k in storage.raw.entries && transform(storage.raw.entries[k]).None?)
    ensures r.Some? ==> r.value.Keys == storage.raw.entries.Keys && forall k :: k in r.value ==> transform(storage.raw.entries[k]) == Some(r.value[k])
  {
    match storage.raw.AsDictionary()
    case None => None
    case Some(dictionary) => Collections.MappedValuesOrNil(dictionary, transform)
  }

  /** `deserialize(_:using:) -> [String: T?]?`: nil values are kept, so the
      key set is the dictionary's. */
  function DeserializeOptionalDictionaryUsing<T>(storage: Value, transform: Value -> Option<T>): (r: Option<map<string, Option<T>>>)
    ensures r.Some? <==> storage.raw.Entries?
    ensures r.Some? ==> r.value.Keys == storage.raw.entries.Keys && forall k :: k in r.value ==> r.value[k] == transform(storage.raw.entries[k])
  {
    match storage.raw.AsDictionary()
    case None => None
    case Some(dictionary) => Some(map k | k in dictionary :: transform(dictionary[k]))
  }

  // Serialisation. `serialize` stands for `ObjectMapper.serialize(_:)`
  // (the value's own `serialize(to:)` and the polymorph's type info).

  /** `serialize(array:to:)`: the storage becomes the array of the elements'
      serialisations. */
  function SerializeArray<T>(elements: seq<T>, serialize: T -> Value): (r: Value)
    ensures r.kind == Array && r.raw.Elements? && |r.raw.items| == |elements|
    ensures forall i :: 0 <= i < |elements| ==> r.raw.items[i] == serialize(elements[i])
  {
    ArrayValue(seq(|elements|, i requires 0 <= i < |elements| => serialize(elements[i])))
  }

  /** `serialize(optional:to:)`: nil sets the storage to null. */
  function SerializeOptional<T>(optional: Option<T>, serialize: T -> Value): (r: Value)
    ensures optional.None? ==> r.raw.IsNull() && r.kind == Null
    ensures optional.Some? ==> r == serialize(optional.value)
  {
    match optional
    case None => NullValue()
    case Some(value) => serialize(value)
  }

  /** `serialize(dictionary:to:)`: the same keys, each value serialised. */
  function SerializeDictionary<T>(dictionary: map<string, T>, serialize: T -> Value): (r: Value)
    ensures r.kind == Dictionary && r.raw.Entries? && r.raw.entries.Keys == dictionary.Keys
    ensures forall k :: k in dictionary ==> r.raw.entries[k] == serialize(dictionary[k])
  {
    DictionaryValue(map k | k in dictionary :: serialize(dictionary[k]))
  }

  /** `serialize(_:using:)` for `[T?]?`: nil is `.null`; a present array maps
      element-wise with the same length. */
  function SerializeArrayUsing<T>(elements: Option<seq<Option<T>>>, transform: Option<T> -> Value): (r: Value)
    ensures elements.None? ==> r.raw.IsNull() && r.kind == Null
    ensures elements.Some? ==> r.kind == Array && r.raw.Elements? && |r.raw.items| == |elements.value|
    ensures elements.Some? ==> forall i :: 0 <= i < |elements.value| ==> r.raw.items[i] == transform(elements.value[i])
  {
    match elements
    case None => NullValue()
    case Some(a) => ArrayValue(seq(|a|, i requires 0 <= i < |a| => transform(a[i])))
  }

  /** `serialize(_:using:)` for `[String: T?]?`: nil is `.null`; a present
      dictionary keeps its keys. */
  function SerializeDictionaryUsing<T>(dictionary: Option<map<string, Option<T>>>, transform: Option<T> -> Value): (r: Value)
    ensures dictionary.None? ==> r.raw.IsNull() && r.kind == Null
    ensures dictionary.Some? ==> r.kind == Dictionary && r.raw.Entries? && r.raw.entries.Keys == dictionary.value.Keys
    ensures dictionary.Some? ==> forall k :: k in dictionary.value ==> r.raw.entries[k] == transform(dictionary.value[k])
  {
    match dictionary
    case None => NullValue()
    case Some(d) => DictionaryValue(map k | k in d :: transform(d[k]))
  }

  /** Serialising a dictionary and deserialising it again with an inverse
      keeps every key and value. */
  lemma DictionaryRoundTrip<T>(dictionary: map<string, T>, serialize: T -> Value, deserialize: Value -> Result<T, DeserializationError>)
    requires forall t :: deserialize(serialize(t)) == Success(t)
    ensures DeserializeDictionary(SerializeDictionary(dictionary, serialize), deserialize) == Success(dictionary)
  {
    var r := DeserializeDictionary(SerializeDictionary(dictionary, serialize), deserialize);
    assert r.value == dictionary;
  }

  /** The same for arrays: order and length come back. */
  lemma ArrayRoundTrip<T>(elements: seq<T>, serialize: T -> Value, deserialize: Value -> Result<T, DeserializationError>)
    requires forall t :: deserialize(serialize(t)) == Success(t)
    ensures DeserializeArray(SerializeArray(elements, serialize), deserialize) == Success(elements)
  {
    var r := DeserializeArray(SerializeArray(elements, serialize), deserialize);
    assert r.value == elements;
  }
}
