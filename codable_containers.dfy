/** The Codable adapters of Source/Core/ObjectMapper.swift (lines 187-971):
    encoders and decoders whose containers share `SupportedType` nodes by
    reference, so a write through a nested container lands in its parent. */
module CodableContainers {
  import opened Wrappers
  import opened SupportedTypes

  /** `DecodingError`, without its coding-path context. */
  datatype DecodingError = ValueNotFound | TypeMismatch | Thrown(message: string)

  /** The entries `addToDictionary(key:value:)` leaves behind. */
  function Inserted(before: Payload<SupportedType>, key: string, node: SupportedType): (m: map<string, SupportedType>)
    ensures key in m && m[key] == node
    ensures before.Entries? ==> m.Keys == before.entries.Keys + {key}
    ensures !before.Entries? ==> m.Keys == {key}
  {
    (if before.Entries? then before.entries else map[])[key := node]
  }

  /** The tag `addToDictionary` leaves behind. */
  function DictionaryKind(before: Payload<SupportedType>, beforeKind: RawType): RawType {
    if before.Entries? then beforeKind else Dictionary
  }

  /** The elements `appendToArray(value:)` leaves behind. */
  function Appended(before: Payload<SupportedType>, node: SupportedType): (s: seq<SupportedType>)
    ensures |s| > 0 && s[|s| - 1] == node
    ensures before.Elements? ==> |s| == |before.items| + 1 && s[..|before.items|] == before.items
    ensures !before.Elements? ==> s == [node]
  {
    (if before.Elements? then before.items else []) + [node]
  }

  /** `ObjectMapperKeyedEncodingContainer`: every `encode` inserts a fresh
      node under the key. */
  class KeyedEncodingContainer {
    const storage: SupportedType
    var codingPath: seq<string>

    constructor (storage: SupportedType, codingPath: seq<string>)
      ensures this.storage == storage && this.codingPath == codingPath
    {
      this.storage := storage;
      this.codingPath := codingPath;
    }

    /** Inserts `node` under `key` in the storage. */
    method Put(key: string, node: SupportedType)
      modifies storage
      ensures storage.raw == Entries(Inserted(old(storage.raw), key, node))
      ensures storage.kind == DictionaryKind(old(storage.raw), old(storage.kind))
    {
      storage.AddToDictionary(key, node);
    }

    method EncodeNil(key: string)
      modifies storage
      ensures storage.raw.Entries? && key in storage.raw.entries
      ensures var n := storage.raw.entries[key]; fresh(n) && n.raw == Nil && n.kind == Null
      ensures storage.raw == Entries(Inserted(old(storage.raw), key, storage.raw.entries[key]))
      ensures storage.kind == DictionaryKind(old(storage.raw), old(storage.kind))
    {
      var n := NewNull();
      Put(key, n);
    }

    method EncodeBool(value: bool, key: string)
      modifies storage
      ensures storage.raw.Entries? && key in storage.raw.entries
      ensures var n := storage.raw.entries[key]; fresh(n) && n.raw == Boolean(value) && n.kind == Bool
      ensures storage.raw == Entries(Inserted(old(storage.raw), key, storage.raw.entries[key]))
      ensures storage.kind == DictionaryKind(old(storage.raw), old(storage.kind))
    {
      var n := NewBool(value);
      Put(key, n);
    }

    method EncodeString(value: string, key: string)
      modifies storage
      ensures storage.raw.Entries? && key in storage.raw.entries
      ensures var n := storage.raw.entries[key]; fresh(n) && n.raw == Text(value) && n.kind == String
      ensures storage.raw == Entries(Inserted(old(storage.raw), key, storage.raw.entries[key]))
      ensures storage.kind == DictionaryKind(old(storage.raw), old(storage.kind))
    {
      var n := NewString(value);
      Put(key, n);
    }

    method EncodeDouble(value: Float64, key: string)
      modifies storage
      ensures storage.raw.Entries? && key in storage.raw.entries
      ensures var n := storage.raw.entries[key]; fresh(n) && n.raw == Real(value) && n.kind == Double
      ensures storage.raw == Entries(Inserted(old(storage.raw), key, storage.raw.entries[key]))
      ensures storage.kind == DictionaryKind(old(storage.raw), old(storage.kind))
    {
      var n := NewDouble(value);
      Put(key, n);
    }

    method EncodeInt(value: int, key: string)
      modifies storage
      ensures storage.raw.Entries? && key in storage.raw.entries
      ensures var n := storage.raw.entries[key]; fresh(n) && n.raw == Integer(value) && n.kind == Int
      ensures storage.raw == Entries(Inserted(old(storage.raw), key, storage.raw.entries[key]))
      ensures storage.kind == DictionaryKind(old(storage.raw), old(storage.kind))
    {
      var n := NewInt(value);
      Put(key, n);
    }

    /** The first half of `encode<T: Encodable>(_:forKey:)`: a fresh encoder
        over a fresh `.null` node, its coding path just the key. The value's
        `encode(to:)` then runs on it. */
    method ValueEncoder(key: string) returns (e: Encoding)
      ensures fresh(e) && fresh(e.storage)
      ensures e.storage.raw == Nil && e.storage.kind == Null && e.codingPath == [key]
    {
      var node := NewNull();
      e := new Encoding(node);
      e.codingPath := e.codingPath + [key];
    }

    /** The second half: the encoder's node goes under the key, whatever the
        value wrote into it. */
    method EncodeEncodable(encoding: Encoding, key: string)
      modifies storage
      ensures storage.raw == Entries(Inserted(old(storage.raw), key, encoding.storage))
      ensures storage.kind == DictionaryKind(old(storage.raw), old(storage.kind))
    {
      Put(key, encoding.storage);
    }

    /** `nestedContainer(keyedBy:forKey:)`: reuses the dictionary already under
        the key, or inserts a fresh empty one; a non-dictionary already there
        is a precondition failure. The coding path is pushed and popped, and
        the nested container starts with an empty one. */
    method NestedContainer(key: string) returns (nested: KeyedEncodingContainer)
      requires storage.raw.Entries? && key in storage.raw.entries ==> storage.raw.entries[key].raw.Entries?
      modifies storage
      ensures fresh(nested) && nested.codingPath == [] && codingPath == old(codingPath)
      ensures old(storage.raw).Entries? && key in old(storage.raw).entries ==>
        nested.storage == old(storage.raw).entries[key] && unchanged(storage)
      ensures !(old(storage.raw).Entries? && key in old(storage.raw).entries) ==>
        fresh(nested.storage) && nested.storage.raw == Entries(map[]) && nested.storage.kind == Dictionary &&
        storage.raw == Entries(Inserted(old(storage.raw), key, nested.storage)) &&
        storage.kind == DictionaryKind(old(storage.raw), old(storage.kind))
    {
      var dictionary: SupportedType;
      var existing := storage.AsDictionary();
      if existing.Some? && key in existing.value {
        dictionary := existing.value[key];
      } else {
        dictionary := NewDictionary(map[]);
        Put(key, dictionary);
      }
      nested := new KeyedEncodingContainer(dictionary, []);
    }

    /** `nestedUnkeyedContainer(forKey:)`: the same with arrays; the nested
        container is created while the key is pushed, so its coding path
        ends with the key. */
    method NestedUnkeyedContainer(key: string) returns (nested: UnkeyedEncodingContainer)
      requires storage.raw.Entries? && key in storage.raw.entries ==> storage.raw.entries[key].raw.Elements?
      modifies storage
      ensures fresh(nested) && nested.codingPath == old(codingPath) + [key] && codingPath == old(codingPath)
      ensures old(storage.raw).Entries? && key in old(storage.raw).entries ==>
        nested.storage == old(storage.raw).entries[key] && unchanged(storage)
      ensures !(old(storage.raw).Entries? && key in old(storage.raw).entries) ==>
        fresh(nested.storage) && nested.storage.raw == Elements([]) && nested.storage.kind == Array &&
        storage.raw == Entries(Inserted(old(storage.raw), key, nested.storage)) &&
        storage.kind == DictionaryKind(old(storage.raw), old(storage.kind))
    {
      var elements: SupportedType;
      var existing := storage.AsDictionary();
      if existing.Some? && key in existing.value {
        elements := existing.value[key];
      } else {
        elements := NewArray([]);
        Put(key, elements);
      }
      nested := new UnkeyedEncodingContainer(codingPath + [key], elements);
    }
  }

  /** `ObjectMapperUnkeyedEncodingContainer`: append-only. */
  class UnkeyedEncodingContainer {
    const storage: SupportedType
    const codingPath: seq<string>

    constructor (codingPath: seq<string>, storage: SupportedType)
      ensures this.storage == storage && this.codingPath == codingPath
    {
      this.storage := storage;
      this.codingPath := codingPath;
    }

    /** `count`: the array length of the storage, or 0. */
    function Count(): (c: nat)
      reads storage
      ensures storage.raw.Elements? ==> c == |storage.raw.items|
      ensures !storage.raw.Elements? ==> c == 0
    {
      match storage.AsArray()
      case Some(items) => |items|
      case None => 0
    }

    /** Appends `node` to the storage; the count rises by exactly one. */
    method Append(node: SupportedType)
      modifies storage
      ensures storage.raw == Elements(Appended(old(storage.raw), node))
      ensures storage.kind == (if old(storage.raw).Elements? then old(storage.kind) else Array)
      ensures Count() == old(Count()) + 1
    {
      storage.AppendToArray(node);
    }

    method EncodeNil()
      modifies storage
      ensures storage.raw.Elements? && |storage.raw.items| > 0
      ensures var n := storage.raw.items[|storage.raw.items| - 1]; fresh(n) && n.raw == Nil && n.kind == Null
      ensures storage.raw == Elements(Appended(old(storage.raw), storage.raw.items[|storage.raw.items| - 1]))
      ensures Count() == old(Count()) + 1
    {
      var n := NewNull();
      Append(n);
    }

    method EncodeBool(value: bool)
      modifies storage
      ensures storage.raw.Elements? && |storage.raw.items| > 0
      ensures var n := storage.raw.items[|storage.raw.items| - 1]; fresh(n) && n.raw == Boolean(value) && n.kind == Bool
      ensures storage.raw == Elements(Appended(old(storage.raw), storage.raw.items[|storage.raw.items| - 1]))
      ensures Count() == old(Count()) + 1
    {
      var n := NewBool(value);
      Append(n);
    }

    method EncodeString(value: string)
      modifies storage
      ensures storage.raw.Elements? && |storage.raw.items| > 0
      ensures var n := storage.raw.items[|storage.raw.items| - 1]; fresh(n) && n.raw == Text(value) && n.kind == String
      ensures storage.raw == Elements(Appended(old(storage.raw), storage.raw.items[|storage.raw.items| - 1]))
      ensures Count() == old(Count()) + 1
    {
      var n := NewString(value);
      Append(n);
    }

    method EncodeDouble(value: Float64)
      modifies storage
      ensures storage.raw.Elements? && |storage.raw.items| > 0
      ensures var n := storage.raw.items[|storage.raw.items| - 1]; fresh(n) && n.raw == Real(value) && n.kind == Double
      ensures storage.raw == Elements(Appended(old(storage.raw), storage.raw.items[|storage.raw.items| - 1]))
      ensures Count() == old(Count()) + 1
    {
      var n := NewDouble(value);
      Append(n);
    }

    method EncodeInt(value: int)
      modifies storage
      ensures storage.raw.Elements? && |storage.raw.items| > 0
      ensures var n := storage.raw.items[|storage.raw.items| - 1]; fresh(n) && n.raw == Integer(value) && n.kind == Int
      ensures storage.raw == Elements(Appended(old(storage.raw), storage.raw.items[|storage.raw.items| - 1]))
      ensures Count() == old(Count()) + 1
    {
      var n := NewInt(value);
      Append(n);
    }

    /** The first half of `encode<T: Encodable>(_:)`: a fresh encoder over a
        fresh empty dictionary, with an empty coding path (the key push is
        not implemented here). The value's `encode(to:)` then runs on it. */
    method ValueEncoder() returns (e: Encoding)
      ensures fresh(e) && fresh(e.storage)
      ensures e.storage.raw == Entries(map[]) && e.storage.kind == Dictionary && e.codingPath == []
    {
      var node := NewDictionary(map[]);
      e := new Encoding(node);
    }

    /** The second half: the encoder's node is appended, whatever the value
        wrote into it. */
    method EncodeEncodable(encoding: Encoding)
      modifies storage
      ensures storage.raw == Elements(Appended(old(storage.raw), encoding.storage))
      ensures Count() == old(Count()) + 1
    {
      Append(encoding.storage);
    }
  }

  /** `ObjectMapperSingleValueEncodingContainer`: each `encode` goes through
      the storage's setters. */
  class SingleValueEncodingContainer {
    const storage: SupportedType
    var codingPath: seq<string>

    constructor (storage: SupportedType)
      ensures this.storage == storage && codingPath == []
    {
      this.storage := storage;
      codingPath := [];
    }

    method EncodeNil()
      modifies storage
      ensures storage.raw == Nil && storage.kind == Null
    {
      storage.SetNull();
    }

    method EncodeBool(value: bool)
      modifies storage
      ensures storage.raw == Boolean(value) && storage.kind == Bool
    {
      storage.SetBool(Some(value));
    }

    method EncodeString(value: string)
      modifies storage
      ensures storage.raw == Text(value) && storage.kind == String
    {
      storage.SetString(Some(value));
    }

    method EncodeDouble(value: Float64)
      modifies storage
      ensures storage.raw == Real(value) && storage.kind == Double
    {
      storage.SetDouble(Some(value));
    }

    method EncodeInt(value: int)
      modifies storage
      ensures storage.raw == Integer(value) && storage.kind == Int
    {
      storage.SetInt(Some(value));
    }

    /** `encode<T: Encodable>`: a new encoder over this container's own node,
        with its coding path. The value's `encode(to:)`, run by the caller on
        that encoder, writes into the node in place. */
    method EncodeEncodable() returns (e: Encoding)
      ensures fresh(e) && e.storage == storage && e.codingPath == codingPath
    {
      e := new Encoding(storage);
      e.codingPath := codingPath;
    }
  }

  /** `ObjectMapperEncoding`: every container it hands out writes to its own
      storage node. */
  class Encoding {
    const storage: SupportedType
    var codingPath: seq<string>

    constructor (storage: SupportedType)
      ensures this.storage == storage && codingPath == []
    {
      this.storage := storage;
      codingPath := [];
    }

    method KeyedContainer() returns (c: KeyedEncodingContainer)
      ensures fresh(c) && c.storage == storage && c.codingPath == codingPath
    {
      c := new KeyedEncodingContainer(storage, codingPath);
    }

    method UnkeyedContainer() returns (c: UnkeyedEncodingContainer)
      ensures fresh(c) && c.storage == storage && c.codingPath == codingPath
    {
      c := new UnkeyedEncodingContainer(codingPath, storage);
    }

    method SingleValueContainer() returns (c: SingleValueEncodingContainer)
      ensures fresh(c) && c.storage == storage && c.codingPath == codingPath
    {
      c := new SingleValueEncodingContainer(storage);
      c.codingPath := codingPath;
    }
  }

  /** Encoding through a nested keyed container shows up in the parent:
      `{key1: {key2: value}}` is built by reference, not by copying. */
  method EncodeThroughNested(key1: string, key2: string, value: bool) returns (root: SupportedType)
    ensures root.raw.Entries? && root.raw.entries.Keys == {key1} && root.kind == Dictionary
    ensures var child := root.raw.entries[key1];
      child.raw.Entries? && child.raw.entries.Keys == {key2} &&
      child.raw.entries[key2].AsBool() == Some(value)
  {
    root := NewNull();
    var encoding := new Encoding(root);
    var container := encoding.KeyedContainer();
    var nested := container.NestedContainer(key1);
    nested.EncodeBool(value, key2);
  }

  /** A value encoded through a single-value container's `encode<T>` writes
      the container's own node: here the value's `encode(to:)` writes a bool
      through the encoder it is handed. */
  method EncodeThroughSingleValue(value: bool) returns (root: SupportedType)
    ensures root.raw == Boolean(value) && root.kind == Bool
  {
    root := NewNull();
    var container := new SingleValueEncodingContainer(root);
    var encoding := container.EncodeEncodable();
    var inner := encoding.SingleValueContainer();
    inner.EncodeBool(value);
  }

  /** A value whose `encode(to:)` writes nothing: under a key it leaves
      `null`, in an array it leaves an empty dictionary. */
  method EncodeNothing(key: string) returns (keyed: SupportedType, unkeyed: SupportedType)
    ensures keyed.raw.Entries? && keyed.raw.entries.Keys == {key}
    ensures keyed.raw.entries[key].raw == Nil && keyed.raw.entries[key].kind == Null
    ensures unkeyed.raw.Elements? && |unkeyed.raw.items| == 1
    ensures unkeyed.raw.items[0].raw == Entries(map[]) && unkeyed.raw.items[0].kind == Dictionary
  {
    keyed := NewDictionary(map[]);
    var container := new KeyedEncodingContainer(keyed, []);
    var e := container.ValueEncoder(key);
    container.EncodeEncodable(e, key);
    unkeyed := NewArray([]);
    var elements := new UnkeyedEncodingContainer([], unkeyed);
    var f := elements.ValueEncoder();
    elements.EncodeEncodable(f);
  }

  /** Reopening a nested container for the same key reuses the node, so two
      writes through two containers both land in it. */
  method ReopenedNestedContainerIsShared(key: string, a: string, b: string) returns (root: SupportedType)
    requires a != b
    ensures root.raw.Entries? && key in root.raw.entries
    ensures var child := root.raw.entries[key];
      child.raw.Entries? && child.raw.entries.Keys == {a, b} &&
      child.raw.entries[a].AsInt() == Some(1) && child.raw.entries[b].AsInt() == Some(2)
  {
    root := NewDictionary(map[]);
    var container := new KeyedEncodingContainer(root, []);
    var first := container.NestedContainer(key);
    first.EncodeInt(1, a);
    var second := container.NestedContainer(key);
    second.EncodeInt(2, b);
  }

  /** `ObjectMapperKeyedDecodingContainer`. */
  class KeyedDecodingContainer {
    const storage: SupportedType

    constructor (storage: SupportedType)
      ensures this.storage == storage
    {
      this.storage := storage;
    }

    /** `contains(_:)`: the key is in the storage's dictionary. */
    predicate Contains(key: string)
      reads storage
      ensures Contains(key) <==> storage.raw.Entries? && key in storage.raw.entries
    {
      match storage.AsDictionary()
      case Some(dictionary) => key in dictionary
      case None => false
    }

    /** `allKeys`, as a set: a Swift dictionary's key order is unspecified. */
    function AllKeys(): (keys: set<string>)
      reads storage
      ensures forall k :: k in keys <==> Contains(k)
    {
      match storage.AsDictionary()
      case Some(dictionary) => dictionary.Keys
      case None => {}
    }

    /** `item(forKey:)`: `valueNotFound` when the key is missing. */
    function Item(key: string): (r: Result<SupportedType, DecodingError>)
      reads storage
      ensures r.Failure? <==> !Contains(key)
      ensures r.Failure? ==> r.error == ValueNotFound
      ensures r.Success? ==> r.value == storage.raw.entries[key]
    {
      if Contains(key) then Success(storage.raw.entries[key]) else Failure(ValueNotFound)
    }

    /** `decodeNil(forKey:)`: whether the item is null. */
    method DecodeNil(key: string) returns (r: Result<bool, DecodingError>)
      ensures !Contains(key) ==> r == Failure(ValueNotFound)
      ensures Contains(key) ==> r == Success(storage.raw.entries[key].IsNull())
    {
      var item := Item(key);
      if item.Failure? {
        return Failure(item.error);
      }
      return Success(item.value.IsNull());
    }

    /** `decode(Bool.self, forKey:)`: `valueNotFound` for a missing key,
        `typeMismatch` for a present value of another kind. */
    method DecodeBool(key: string) returns (r: Result<bool, DecodingError>)
      ensures !Contains(key) ==> r == Failure(ValueNotFound)
      ensures Contains(key) && storage.raw.entries[key].AsBool().None? ==> r == Failure(TypeMismatch)
      ensures Contains(key) && storage.raw.entries[key].AsBool().Some? ==> r == Success(storage.raw.entries[key].AsBool().value)
    {
      var item := Item(key);
      if item.Failure? {
        return Failure(item.error);
      }
      r := Require(item.value.AsBool());
    }

    method DecodeString(key: string) returns (r: Result<string, DecodingError>)
      ensures !Contains(key) ==> r == Failure(ValueNotFound)
      ensures Contains(key) && storage.raw.entries[key].AsString().None? ==> r == Failure(TypeMismatch)
      ensures Contains(key) && storage.raw.entries[key].AsString().Some? ==> r == Success(storage.raw.entries[key].AsString().value)
    {
      var item := Item(key);
      if item.Failure? {
        return Failure(item.error);
      }
      r := Require(item.value.AsString());
    }

    /** `decode(Double.self, forKey:)`: an `intOrDouble` item widens. */
    method DecodeDouble(key: string) returns (r: Result<Float64, DecodingError>)
      ensures !Contains(key) ==> r == Failure(ValueNotFound)
      ensures Contains(key) && storage.raw.entries[key].AsDouble().None? ==> r == Failure(TypeMismatch)
      ensures Contains(key) && storage.raw.entries[key].AsDouble().Some? ==> r == Success(storage.raw.entries[key].AsDouble().value)
    {
      var item := Item(key);
      if item.Failure? {
        return Failure(item.error);
      }
      r := Require(item.value.AsDouble());
    }

    method DecodeInt(key: string) returns (r: Result<int, DecodingError>)
      ensures !Contains(key) ==> r == Failure(ValueNotFound)
      ensures Contains(key) && storage.raw.entries[key].AsInt().None? ==> r == Failure(TypeMismatch)
      ensures Contains(key) && storage.raw.entries[key].AsInt().Some? ==> r == Success(storage.raw.entries[key].AsInt().value)
    {
      var item := Item(key);
      if item.Failure? {
        return Failure(item.error);
      }
      r := Require(item.value.AsInt());
    }

    /** `decode<T: Decodable>(_:forKey:)`: `init` is `T.init(from:)` on a
        decoder over the item, free to read the item's fields. */
    method Decode<T>(key: string, init: SupportedType ~> Result<T, DecodingError>) returns (r: Result<T, DecodingError>)
      requires Contains(key) ==> init.requires(storage.raw.entries[key])
      ensures !Contains(key) ==> r == Failure(ValueNotFound)
      ensures Contains(key) ==> r == init(storage.raw.entries[key])
    {
      var item := Item(key);
      if item.Failure? {
        return Failure(item.error);
      }
      r := init(item.value);
    }
  }

  /** `require(_:)` of the keyed and single-value containers. */
  function Require<T>(optionalValue: Option<T>): (r: Result<T, DecodingError>)
    ensures r.Success? <==> optionalValue.Some?
    ensures r.Success? ==> r.value == optionalValue.value
    ensures r.Failure? ==> r.error == TypeMismatch
  {
    match optionalValue
    case Some(value) => Success(value)
    case None => Failure(TypeMismatch)
  }

  /** `ObjectMapperUnkeyedDecodingContainer`: a cursor over the storage's
      array that only a successful decode moves. */
  class UnkeyedDecodingContainer {
    const storage: SupportedType
    var currentIndex: nat

    constructor (storage: SupportedType)
      ensures this.storage == storage && currentIndex == 0
    {
      this.storage := storage;
      currentIndex := 0;
    }

    /** `count`: nil when the storage is not an array. */
    function Count(): (c: Option<nat>)
      reads storage
      ensures c.Some? <==> storage.raw.Elements?
      ensures c.Some? ==> c.value == |storage.raw.items|
    {
      match storage.AsArray()
      case Some(items) => Some(|items|)
      case None => None
    }

    /** `isAtEnd`: not an array, or the cursor is past the last element. */
    predicate IsAtEnd()
      reads this, storage
      ensures IsAtEnd() <==> !storage.raw.Elements? || currentIndex >= |storage.raw.items|
    {
      match Count()
      case None => true
      case Some(count) => currentIndex >= count
    }

    /** `currentItem`, where `validateNotEnded` has passed. */
    function CurrentItem(): SupportedType
      requires !IsAtEnd()
      reads this, storage
    {
      storage.raw.items[currentIndex]
    }

    /** `decodeNil()`: at the end it throws; otherwise it moves on exactly
        when the item is null. */
    method DecodeNil() returns (r: Result<bool, DecodingError>)
      modifies this
      ensures old(IsAtEnd()) ==> r == Failure(ValueNotFound) && currentIndex == old(currentIndex)
      ensures !old(IsAtEnd()) ==> var isNull := old(CurrentItem()).IsNull();
        r == Success(isNull) && currentIndex == (if isNull then old(currentIndex) + 1 else old(currentIndex))
    {
      if IsAtEnd() {
        return Failure(ValueNotFound);
      }
      if CurrentItem().IsNull() {
        currentIndex := currentIndex + 1;
        return Success(true);
      }
      return Success(false);
    }

    /** `require(_:)` of this container: moves on only when the value is there. */
    method Require<T>(optionalValue: Option<T>) returns (r: Result<T, DecodingError>)
      modifies this
      ensures r.Success? <==> optionalValue.Some?
      ensures r.Success? ==> r.value == optionalValue.value && currentIndex == old(currentIndex) + 1
      ensures r.Failure? ==> r.error == TypeMismatch && currentIndex == old(currentIndex)
    {
      if optionalValue.None? {
        return Failure(TypeMismatch);
      }
      currentIndex := currentIndex + 1;
      return Success(optionalValue.value);
    }

    method DecodeBool() returns (r: Result<bool, DecodingError>)
      modifies this
      ensures old(IsAtEnd()) ==> r == Failure(ValueNotFound) && currentIndex == old(currentIndex)
      ensures !old(IsAtEnd()) && old(CurrentItem()).AsBool().None? ==> r == Failure(TypeMismatch) && currentIndex == old(currentIndex)
      ensures !old(IsAtEnd()) && old(CurrentItem()).AsBool().Some? ==> r == Success(old(CurrentItem()).AsBool().value) && currentIndex == old(currentIndex) + 1
    {
      if IsAtEnd() {
        return Failure(ValueNotFound);
      }
      r := Require(CurrentItem().AsBool());
    }

    method DecodeString() returns (r: Result<string, DecodingError>)
      modifies this
      ensures old(IsAtEnd()) ==> r == Failure(ValueNotFound) && currentIndex == old(currentIndex)
      ensures !old(IsAtEnd()) && old(CurrentItem()).AsString().None? ==> r == Failure(TypeMismatch) && currentIndex == old(currentIndex)
      ensures !old(IsAtEnd()) && old(CurrentItem()).AsString().Some? ==> r == Success(old(CurrentItem()).AsString().value) && currentIndex == old(currentIndex) + 1
    {
      if IsAtEnd() {
        return Failure(ValueNotFound);
      }
      r := Require(CurrentItem().AsString());
    }

    method DecodeDouble() returns (r: Result<Float64, DecodingError>)
      modifies this
      ensures old(IsAtEnd()) ==> r == Failure(ValueNotFound) && currentIndex == old(currentIndex)
      ensures !old(IsAtEnd()) && old(CurrentItem()).AsDouble().None? ==> r == Failure(TypeMismatch) && currentIndex == old(currentIndex)
      ensures !old(IsAtEnd()) && old(CurrentItem()).AsDouble().Some? ==> r == Success(old(CurrentItem()).AsDouble().value) && currentIndex == old(currentIndex) + 1
    {
      if IsAtEnd() {
        return Failure(ValueNotFound);
      }
      r := Require(CurrentItem().AsDouble());
    }

    method DecodeInt() returns (r: Result<int, DecodingError>)
      modifies this
      ensures old(IsAtEnd()) ==> r == Failure(ValueNotFound) && currentIndex == old(currentIndex)
      ensures !old(IsAtEnd()) && old(CurrentItem()).AsInt().None? ==> r == Failure(TypeMismatch) && currentIndex == old(currentIndex)
      ensures !old(IsAtEnd()) && old(CurrentItem()).AsInt().Some? ==> r == Success(old(CurrentItem()).AsInt().value) && currentIndex == old(currentIndex) + 1
    {
      if IsAtEnd() {
        return Failure(ValueNotFound);
      }
      r := Require(CurrentItem().AsInt());
    }

    /** `decode<T: Decodable>(_:)`: the cursor moves only after `init`
        succeeds. */
    method Decode<T>(init: SupportedType ~> Result<T, DecodingError>) returns (r: Result<T, DecodingError>)
      requires !IsAtEnd() ==> init.requires(CurrentItem())
      modifies this
      ensures old(IsAtEnd()) ==> r == Failure(ValueNotFound) && currentIndex == old(currentIndex)
      ensures !old(IsAtEnd()) ==> r == old(init(CurrentItem()))
      ensures !old(IsAtEnd()) ==> currentIndex == (if r.Success? then old(currentIndex) + 1 else old(currentIndex))
    {
      if IsAtEnd() {
        return Failure(ValueNotFound);
      }
      r := init(CurrentItem());
      if r.Success? {
        currentIndex := currentIndex + 1;
      }
    }
  }

  /** A `decode<T>` whose `init` reads the item's fields: a keyed container
      hands it the node under the key. */
  method DecodeThroughInit(storage: SupportedType, key: string) returns (r: Result<int, DecodingError>)
    ensures !(storage.raw.Entries? && key in storage.raw.entries) ==> r == Failure(ValueNotFound)
    ensures storage.raw.Entries? && key in storage.raw.entries ==>
      var item := storage.raw.entries[key];
      r == (if item.raw.Integer? then Success(item.raw.number) else Failure(TypeMismatch))
  {
    var container := new KeyedDecodingContainer(storage);
    r := container.Decode(key, (n: SupportedType) reads n =>
      if n.raw.Integer? then Success(n.raw.number) else Failure(TypeMismatch));
  }

  /** Decoding every element of an array of ints one by one reads them in
      order and ends at the end. */
  method DecodeAllInts(storage: SupportedType) returns (r: Result<seq<int>, DecodingError>)
    requires storage.raw.Elements?
    ensures r.Success? ==> |r.value| == |storage.raw.items|
    ensures r.Success? ==> forall i :: 0 <= i < |r.value| ==> storage.raw.items[i].AsInt() == Some(r.value[i])
    ensures r.Failure? ==> r.error == TypeMismatch
    ensures r.Failure? ==> exists i :: 0 <= i < |storage.raw.items| && storage.raw.items[i].AsInt().None?
  {
    var container := new UnkeyedDecodingContainer(storage);
    var decoded: seq<int> := [];
    while !container.IsAtEnd()
      invariant container.storage == storage && container.currentIndex == |decoded| <= |storage.raw.items|
      invariant forall i :: 0 <= i < |decoded| ==> storage.raw.items[i].AsInt() == Some(decoded[i])
      decreases |storage.raw.items| - container.currentIndex
    {
      var item := container.DecodeInt();
      if item.Failure? {
        return Failure(item.error);
      }
      decoded := decoded + [item.value];
    }
    return Success(decoded);
  }

  /** `ObjectMapperSingleValueDecodingContainer`. */
  class SingleValueDecodingContainer {
    const storage: SupportedType

    constructor (storage: SupportedType)
      ensures this.storage == storage
    {
      this.storage := storage;
    }

    method DecodeNil() returns (r: bool)
      ensures r <==> storage.raw.Nil?
    {
      r := storage.IsNull();
    }

    method DecodeBool() returns (r: Result<bool, DecodingError>)
      ensures r.Success? <==> storage.raw.Boolean?
      ensures r.Success? ==> r.value == storage.raw.truth
      ensures r.Failure? ==> r.error == TypeMismatch
    {
      r := Require(storage.AsBool());
    }

    method DecodeString() returns (r: Result<string, DecodingError>)
      ensures r.Success? <==> storage.raw.Text?
      ensures r.Success? ==> r.value == storage.raw.text
      ensures r.Failure? ==> r.error == TypeMismatch
    {
      r := Require(storage.AsString());
    }

    /** An `intOrDouble` storage decodes as a double too. */
    method DecodeDouble() returns (r: Result<Float64, DecodingError>)
      ensures r.Success? <==> storage.raw.Real? || (storage.kind == IntOrDouble && storage.raw.Integer?)
      ensures r.Success? && storage.raw.Real? ==> r.value == storage.raw.float
      ensures r.Success? && storage.raw.Integer? ==> r.value == FromInt(storage.raw.number)
      ensures r.Failure? ==> r.error == TypeMismatch
    {
      r := Require(storage.AsDouble());
    }

    method DecodeInt() returns (r: Result<int, DecodingError>)
      ensures r.Success? <==> storage.raw.Integer?
      ensures r.Success? ==> r.value == storage.raw.number
      ensures r.Failure? ==> r.error == TypeMismatch
    {
      r := Require(storage.AsInt());
    }

    /** `decode<T: Decodable>(_:)`: `init` is `T.init(from:)` on a decoder
        over the node. */
    method Decode<T>(init: SupportedType ~> Result<T, DecodingError>) returns (r: Result<T, DecodingError>)
      requires init.requires(storage)
      ensures r == init(storage)
    {
      r := init(storage);
    }
  }

  /** `ObjectMapperDecoding`: every container it hands out reads its storage. */
  class Decoding {
    const storage: SupportedType

    constructor (storage: SupportedType)
      ensures this.storage == storage
    {
      this.storage := storage;
    }

    method KeyedContainer() returns (c: KeyedDecodingContainer)
      ensures fresh(c) && c.storage == storage
    {
      c := new KeyedDecodingContainer(storage);
    }

    method UnkeyedContainer() returns (c: UnkeyedDecodingContainer)
      ensures fresh(c) && c.storage == storage && c.currentIndex == 0
    {
      c := new UnkeyedDecodingContainer(storage);
    }

    method SingleValueContainer() returns (c: SingleValueDecodingContainer)
      ensures fresh(c) && c.storage == storage
    {
      c := new SingleValueDecodingContainer(storage);
    }
  }
}
