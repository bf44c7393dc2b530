# DataMapper core in Dafny

DataMapper (Brightify) maps Swift objects to and from an intermediate value,
`SupportedType`, and reads and writes that value as JSON. This project models
its core and proves properties of the model:

- **The intermediate value.** `SupportedType` is a mutable node with a `raw`
  payload and a `type` tag. Its getters answer only for the matching payload,
  except that `double` widens an `intOrDouble` integer. Its builders
  (`addToDictionary`, `appendToArray`, `setNull`, the setters) rewrite the
  node in place and turn a scalar into a container rather than merging into
  it. Two earlier drafts are modelled beside it:
  - a tuple-`Number` node with no tag;
  - a `SupportedNumber` made of three optional projections, with
    component-wise equality.
- **The hand-written JSON parser** (`JsonParser`). It is a cursor
  `(index, hasNext)` over Unicode scalars, moved by `next()` and
  `repeatCharacter()`. It parses with explicit state machines for
  dictionaries, arrays and numbers. It keeps two quirks:
  - a non-hex scalar inside `\u` counts as 0;
  - the error column is always 0.
- **The JSON writer** (`JsonWriter`). It appends to `result` through a
  161-entry escape table, separates elements by commas, and writes nothing
  for a top-level null. Parsing what the writer wrote gives back a tree
  without doubles, with `int` read back as `intOrDouble`.
- **The byte-level reader** (`JSONReader` in JsonSerialization.swift). It
  skips a UTF-8 byte order mark, parses objects, arrays, strings, escapes,
  surrogate pairs and literals in index-passing style, and yields NSNull
  when nothing parses. JsonReading, JsonReader and JsonReaderProperties
  model the reader with the four corrections of "## Findings" applied;
  JsonReaderFindings models the code as written.
- **The mapping engine** (`ObjectMapper`):
  - all-or-nothing composite (de)serialisation;
  - the transformation variants, which return nil instead of throwing;
  - the Codable containers, which share `SupportedType` nodes by reference
    and move a `currentIndex` cursor.
- **Small combinators**: path navigation and defaulted getters of
  `DeserializableData`, and the all-or-nothing maps `mapOrNil` and
  `mapValueOrNil`.

Stateful code is modelled as classes and methods, each proved equal to a
specification function or given its whole new state in terms of the old.
These are:
- the `SupportedType` node and the Codable containers;
- the parser's cursor;
- the writer's `result`;
- the reader's and the utilities' loops.

The properties are proved about the specification functions.

Files, one module each:
- `wrappers.dfy`: Option and Result.
- `supported_type.dfy`, `tuple_draft.dfy` and `supported_number.dfy`: the
  value and its two drafts.
- `collections.dfy`: the all-or-nothing maps.
- `object_mapper.dfy`: the composite and transformation helpers.
- `deserializable_data.dfy`: path navigation and the getters.
- `codable_containers.dfy`: the Codable containers.
- `json_parser.dfy`, `json_parser_class.dfy` and `json_parser_properties.dfy`:
  the parser.
- `json_escape.dfy`, `json_writer.dfy` and `json_writer_properties.dfy`: the
  writer.
- `json_round_trip.dfy`: writer and parser together.
- `json_reader.dfy`, `json_reader_methods.dfy`, `json_reader_properties.dfy`,
  `json_reader_examples.dfy` and `json_reader_findings.dfy`: the byte-level
  reader.

Doubles are opaque, and IEEE arithmetic is not modelled. A finite double
keeps the exact decimal it denotes.

## Model

| member | source | states |
|---|---|---|
| SupportedTypes.FromInt | Source/Core/SupportedType.swift:118-119 | `Double(n)` of an integer is the finite decimal n with exponent 0 |
| SupportedTypes.FloatEqualsReflexive | Source/Core/SupportedType/SupportedNumber+Equatable.swift:13 | Swift double equality is reflexive on every value but NaN |
| SupportedTypes.FloatEqualsSymmetric | Source/Core/SupportedType/SupportedNumber+Equatable.swift:13 | Swift double equality is symmetric |
| SupportedTypes.NullValue | Source/Core/SupportedType.swift:170-172 | `.null` is null, tagged `.null` |
| SupportedTypes.StringValue | Source/Core/SupportedType.swift:174-176 | `.string(s)` answers `string == s`, is tagged `.string`, and is not null |
| SupportedTypes.BoolValue | Source/Core/SupportedType.swift:178-180 | `.bool(b)` answers `bool == b`, tagged `.bool` |
| SupportedTypes.IntValue | Source/Core/SupportedType.swift:182-184 | `.int(n)` answers `int == n`, tagged `.int` |
| SupportedTypes.DoubleValue | Source/Core/SupportedType.swift:186-188 | `.double(d)` answers `double == d`, tagged `.double` |
| SupportedTypes.ArrayValue | Source/Core/SupportedType.swift:190-192 | `.array(a)` answers `array == a`, tagged `.array` |
| SupportedTypes.DictionaryValue | Source/Core/SupportedType.swift:194-196 | `.dictionary(d)` answers `dictionary == d`, tagged `.dictionary` |
| SupportedTypes.IntOrDoubleValue | Source/Core/SupportedType.swift:198-200 | `intOrDouble(n)` answers `int == n` and `double == Double(n)`, but `bool` and `string` are nil |
| SupportedTypes.AccessorsFollowTag | Source/Core/SupportedType.swift:65-161 | on a value whose tag agrees with its payload, each getter answers exactly for its own tag (iff). `int` and `double` also answer for `intOrDouble`. So `.bool(true).int`, `.int(1).bool` and `.bool(true).string` are nil |
| SupportedTypes.Payload.IsNull | Source/Core/SupportedType.swift:65-67 | defines `isNull`: the payload is nil. SupportedTypes.AccessorsFollowTag states what each getter answers on a tag that agrees with its payload |
| SupportedTypes.Payload.AsString | Source/Core/SupportedType.swift:75-77 | defines `string`: the text of a string payload, else nil. SupportedTypes.AccessorsFollowTag states what each getter answers on a tag that agrees with its payload |
| SupportedTypes.Payload.AsBool | Source/Core/SupportedType.swift:89-91 | defines `bool`: the truth value of a bool payload, else nil. SupportedTypes.AccessorsFollowTag states what each getter answers on a tag that agrees with its payload |
| SupportedTypes.Payload.AsInt | Source/Core/SupportedType.swift:103-105 | defines `int`: the number of an integer payload, else nil. SupportedTypes.AccessorsFollowTag states what each getter answers on a tag that agrees with its payload |
| SupportedTypes.Payload.AsDouble | Source/Core/SupportedType.swift:117-123 | defines `double`: an integer widened when the tag is `.intOrDouble`, the double of a double payload, else nil. SupportedTypes.AccessorsFollowTag states what each getter answers on a tag that agrees with its payload |
| SupportedTypes.Payload.AsArray | Source/Core/SupportedType.swift:136-138 | defines `array`: the elements of an array payload, else nil. SupportedTypes.AccessorsFollowTag states what each getter answers on a tag that agrees with its payload |
| SupportedTypes.Payload.AsDictionary | Source/Core/SupportedType.swift:150-152 | defines `dictionary`: the entries of a dictionary payload, else nil. SupportedTypes.AccessorsFollowTag states what each getter answers on a tag that agrees with its payload |
| SupportedTypes.SupportedType.IsNull | Source/Core/SupportedType.swift:65-67 | the getter on the node's current payload and tag. The setters' contracts state what it answers after each `set` |
| SupportedTypes.SupportedType.AsString | Source/Core/SupportedType.swift:75-77 | the getter on the node's current payload and tag. The setters' contracts state what it answers after each `set` |
| SupportedTypes.SupportedType.AsBool | Source/Core/SupportedType.swift:89-91 | the getter on the node's current payload and tag. The setters' contracts state what it answers after each `set` |
| SupportedTypes.SupportedType.AsInt | Source/Core/SupportedType.swift:103-105 | the getter on the node's current payload and tag. The setters' contracts state what it answers after each `set` |
| SupportedTypes.SupportedType.AsDouble | Source/Core/SupportedType.swift:117-123 | the getter on the node's current payload and tag. The setters' contracts state what it answers after each `set` |
| SupportedTypes.SupportedType.AsArray | Source/Core/SupportedType.swift:136-138 | the getter on the node's current payload and tag. The setters' contracts state what it answers after each `set` |
| SupportedTypes.SupportedType.AsDictionary | Source/Core/SupportedType.swift:150-152 | the getter on the node's current payload and tag. The setters' contracts state what it answers after each `set` |
| SupportedTypes.SupportedType.constructor | Source/Core/SupportedType.swift:32-35 | `init(raw:type:)` stores both as given |
| SupportedTypes.SupportedType.AddToDictionary | Source/Core/SupportedType.swift:37-47 | a dictionary keeps its entries and its tag and maps the key to the value. Anything else becomes the one-entry dictionary tagged `.dictionary`. Afterwards the key looks up the value |
| SupportedTypes.SupportedType.AppendToArray | Source/Core/SupportedType.swift:49-60 | an array keeps its elements as a prefix and gets the value last. Anything else becomes `[value]` tagged `.array` |
| SupportedTypes.SupportedType.SetNull | Source/Core/SupportedType.swift:69-72 | payload nil, tag `.null`, `isNull` true |
| SupportedTypes.SupportedType.SetString | Source/Core/SupportedType.swift:74-86 | nil means `setNull()`. Otherwise `.string` with the value. The getter then returns what was set |
| SupportedTypes.SupportedType.SetBool | Source/Core/SupportedType.swift:88-100 | the same for `bool` |
| SupportedTypes.SupportedType.SetInt | Source/Core/SupportedType.swift:102-114 | the same for `int`. The tag becomes `.int`, so `double` no longer answers |
| SupportedTypes.SupportedType.SetDouble | Source/Core/SupportedType.swift:116-133 | the same for `double`. `int` no longer answers |
| SupportedTypes.SupportedType.SetArray | Source/Core/SupportedType.swift:135-147 | the same for `array` |
| SupportedTypes.SupportedType.SetDictionary | Source/Core/SupportedType.swift:149-161 | the same for `dictionary` |
| SupportedTypes.NewNull | Source/Core/SupportedType.swift:170-172 | a fresh node, payload nil, tag `.null` |
| SupportedTypes.NewString | Source/Core/SupportedType.swift:174-176 | a fresh node holding the string, tag `.string` |
| SupportedTypes.NewBool | Source/Core/SupportedType.swift:178-180 | a fresh node holding the bool, tag `.bool` |
| SupportedTypes.NewInt | Source/Core/SupportedType.swift:182-184 | a fresh node holding the integer, tag `.int` |
| SupportedTypes.NewDouble | Source/Core/SupportedType.swift:186-188 | a fresh node holding the double, tag `.double` |
| SupportedTypes.NewArray | Source/Core/SupportedType.swift:190-192 | a fresh node holding the elements, tag `.array` |
| SupportedTypes.NewDictionary | Source/Core/SupportedType.swift:194-196 | a fresh node holding the entries, tag `.dictionary` |
| SupportedTypes.NewIntOrDouble | Source/Core/SupportedType.swift:198-200 | a fresh node tagged `.intOrDouble`. It answers `int == n` and `double == Double(n)`, not `bool` |
| TupleDraft.Raw.AsString | Source/Core/SupportedType/SupportedType.swift:34-36 | a number tuple is never a string |
| TupleDraft.NumberBoolInt | Source/Core/SupportedType/SupportedType.swift:100-102 | `number(bool:int:)` answers bool and int and has no double. It is not a string and not null |
| TupleDraft.NumberBoolDouble | Source/Core/SupportedType/SupportedType.swift:104-106 | `number(bool:double:)` answers bool and double and has no int |
| TupleDraft.NumberIntDouble | Source/Core/SupportedType/SupportedType.swift:108-110 | `number(int:double:)` answers int and double and has no bool |
| TupleDraft.NumberAll | Source/Core/SupportedType/SupportedType.swift:112-114 | `number(bool:int:double:)` answers all three |
| TupleDraft.DirectPayloadsAnswerOnce | Source/Core/SupportedType/SupportedType.swift:38-48 | a payload that is not a tuple answers at most one of bool, int, double (and then not string). The number fallback is the only way to answer several |
| TupleDraft.SupportedType.constructor | Source/Core/SupportedType/SupportedType.swift:17-19 | stores the payload |
| TupleDraft.SupportedType.AddToDictionary | Source/Core/SupportedType/SupportedType.swift:21-25 | `dictionary ?? [:]` with the key set: other keys are kept, and a non-dictionary becomes a one-entry dictionary |
| SupportedNumbers.Init | Source/Core/SupportedType/SupportedNumber.swift:15-19 | each argument is stored unchanged in its own field. The defaults leave all three nil |
| SupportedNumbers.EqualIffComponentsEqual | Source/Core/SupportedType/SupportedNumber+Equatable.swift:12-14 | two numbers are equal iff bool and int agree, the doubles are both nil or both present, and present doubles compare equal. A component on one side only makes them unequal |
| SupportedNumbers.EqualReflexive | Source/Core/SupportedType/SupportedNumber+Equatable.swift:12-14 | every number whose double, if any, is not NaN equals itself |
| SupportedNumbers.NaNIsNotEqualToItself | Source/Core/SupportedType/SupportedNumber+Equatable.swift:13 | a NaN double makes a number unequal to itself |
| SupportedNumbers.EqualSymmetric | Source/Core/SupportedType/SupportedNumber+Equatable.swift:13 | equality is symmetric |
| SupportedNumbers.InitAndEqualityExamples | Source/Core/SupportedType/SupportedNumber.swift:15-19 | the default init is all nil. One-field inits leave the others nil. `int:1` differs from `int:1,double:2`. Differing only in bool makes numbers unequal. An all-fields number equals itself |
| SupportedNumbers.BoolNumber | Source/Core/SupportedType/SupportedType+SupportedNumber.swift:11-13 | `.bool(v)` answers `bool == v`, and `int` and `double` are nil |
| SupportedNumbers.IntNumber | Source/Core/SupportedType/SupportedType+SupportedNumber.swift:15-17 | `.int(v)` answers `int == v`, and `bool` and `double` are nil |
| SupportedNumbers.DoubleNumber | Source/Core/SupportedType/SupportedType+SupportedNumber.swift:19-21 | `.double(v)` answers `double == v`, and `bool` and `int` are nil |
| SupportedNumbers.NonNumbersHaveNoProjections | Source/Core/SupportedType/SupportedType+SupportedNumber.swift:23-33 | a value that is not a number answers none of the three accessors |
| Collections.MappedOrNil | Source/Core/Utils/ArrayUtils.swift:11-26 | nil iff some element maps to nil. Otherwise the same length with `r[i] == f(a[i])`. The empty array maps to the empty array |
| Collections.MappedOrNilUnique | Source/Core/Utils/ArrayUtils.swift:11-26 | a sequence of the right length whose elements are the mapped values is the map's result |
| Collections.MapOrNil | Source/Core/Utils/ArrayUtils.swift:11-26 | the loop returns the all-or-nothing map of the array: nil iff some element maps to nil, else element-wise mapped values |
| Collections.MappedOrNilPrefix | Source/Core/Utils/ArrayUtils.swift:15-23 | when the whole map succeeds, the map of every prefix is the prefix of the result, the output the loop has built so far |
| Collections.MapValueOrNil | Source/Core/Utils/DictionaryUtils.swift:11-21 | nil iff some value maps to nil. Otherwise exactly the input's keys with `r[k] == f(m[k])`. The empty dictionary maps to the empty dictionary |
| Collections.MappedValuesOrNil | Source/Core/Utils/DictionaryUtils.swift:11-21 | the reference result of `mapValueOrNil`: nil unless every value maps, otherwise the mapped values under the same keys. MapValueOrNil's contract ties the loop to it |
| ObjectMapping.MapThrowing | Source/Core/ObjectMapper.swift:82-84 | success iff every element deserializes, with one result per element in order. Otherwise the error is that of an element all of whose predecessors succeeded: the first failure |
| ObjectMapping.DeserializeArray | Source/Core/ObjectMapper.swift:77-85 | a non-array throws `wrongType(expected: .array)`. Otherwise all elements or the first error, never a partial result |
| ObjectMapping.DeserializeOptional | Source/Core/ObjectMapper.swift:87-93 | nil for a null value. Otherwise exactly the result or error of `deserialize` |
| ObjectMapping.MapValuesThrowing | Source/Core/ObjectMapper.swift:100-102 | success iff every value deserializes, with the same keys. Otherwise the error of some failing value |
| ObjectMapping.DeserializeDictionary | Source/Core/ObjectMapper.swift:95-103 | a non-dictionary throws `wrongType(expected: .dictionary)`. Otherwise success iff every value deserializes, with exactly the key set and each key's deserialized value; a failure is the error of some failing value |
| ObjectMapping.DeserializeArrayUsing | Source/Core/ObjectMapper.swift:109-115 | `[T]?`: nil for a non-array, otherwise the all-or-nothing `mapOrNil` |
| ObjectMapping.DeserializeOptionalArrayUsing | Source/Core/ObjectMapper.swift:117-119 | `[T?]?`: present iff the value is an array. Nil elements are kept and the length is preserved |
| ObjectMapping.DeserializeDictionaryUsing | Source/Core/ObjectMapper.swift:121-127 | `[String: T]?`: nil for a non-dictionary or iff some value transforms to nil. Otherwise the same keys |
| ObjectMapping.DeserializeOptionalDictionaryUsing | Source/Core/ObjectMapper.swift:129-131 | `[String: T?]?`: present iff the value is a dictionary. Keys are kept, nil values included |
| ObjectMapping.SerializeArray | Source/Core/ObjectMapper.swift:27-31 | an array of the same length, each element serialised in order |
| ObjectMapping.SerializeOptional | Source/Core/ObjectMapper.swift:33-39 | nil gives `.null`, a value its serialisation |
| ObjectMapping.SerializeDictionary | Source/Core/ObjectMapper.swift:41-43 | a dictionary with the same keys, each value serialised |
| ObjectMapping.SerializeArrayUsing | Source/Core/ObjectMapper.swift:49-55 | nil gives `.null`. A present array maps element-wise with the same length |
| ObjectMapping.SerializeDictionaryUsing | Source/Core/ObjectMapper.swift:57-63 | nil gives `.null`. A present dictionary keeps its keys, each value transformed |
| ObjectMapping.DictionaryRoundTrip | Source/Core/ObjectMapper.swift:41-43 | deserialising a serialised dictionary with an inverse gives it back |
| ObjectMapping.ArrayRoundTrip | Source/Core/ObjectMapper.swift:27-31 | the same for arrays: order and length come back |
| Deserialization.Step | Source/Core/Map/DeserializableData.swift:21 | one path step: the entry under a present key of a dictionary, else `.null` |
| Deserialization.Subscript | Source/Core/Map/DeserializableData.swift:19-27 | the empty path is the value itself, and a one-key path is one step |
| Deserialization.SubscriptConcat | Source/Core/Map/DeserializableData.swift:19-23 | `self[p + q] == self[p][q]` |
| Deserialization.NullStaysNull | Source/Core/Map/DeserializableData.swift:21 | every path from `.null` is `.null` |
| Deserialization.MissingKeyYieldsNull | Source/Core/Map/DeserializableData.swift:19-23 | a missing key or a non-dictionary step yields `.null` for the whole path, whatever follows |
| Deserialization.PresentKeysNavigate | Source/Core/Map/DeserializableData.swift:19-23 | a path of any length whose keys are all present finds the nested value `Lookup` reaches; any other path yields `.null` |
| Deserialization.GetOr | Source/Core/Map/DeserializableData.swift:33-39 | `get(or:)` is the default exactly when `get` throws, else its result |
| Deserialization.OrDefault | Source/Core/Map/DeserializableData.swift:45-47 | `get(using:or:)` is the transformation result when non-nil, else the default |
| Deserialization.ValueOrThrow | Source/Core/Map/DeserializableData.swift:101-107 | success iff the value is present, with that value. Otherwise `wrongType(type: raw, expected: .null)` |
| Deserialization.ThrowingArrayGetterAgrees | Source/Core/Map/DeserializableData.swift:53-63 | the throwing `[T]` getter throws iff the data is not an array or some element transforms to nil. Otherwise it returns the element-wise results |
| Deserialization.DefaultedDictionaryGetter | Source/Core/Map/DeserializableData.swift:77-83 | the defaulted `[String: T]` getter gives the default for a non-dictionary and when some value transforms to nil. When every value transforms it gives the dictionary's keys, each with its transformed value |
| CodableContainers.Inserted | Source/Core/SupportedType.swift:37-47 | the entries `addToDictionary` leaves: the old keys plus the key, which maps to the node |
| CodableContainers.Appended | Source/Core/SupportedType.swift:49-60 | the elements `appendToArray` leaves: the old ones as a prefix and the node last, or only the node |
| CodableContainers.KeyedEncodingContainer.constructor | Source/Core/ObjectMapper.swift:320-326 | stores the shared node and the coding path |
| CodableContainers.KeyedEncodingContainer.Put | Source/Core/ObjectMapper.swift:332-354 | inserts a node under a key in the shared storage, as `addToDictionary` does |
| CodableContainers.KeyedEncodingContainer.EncodeNil | Source/Core/ObjectMapper.swift:332-334 | the key maps to a fresh null node. The other entries are kept |
| CodableContainers.KeyedEncodingContainer.EncodeBool | Source/Core/ObjectMapper.swift:336-338 | the key maps to a fresh bool node. The other entries are kept |
| CodableContainers.KeyedEncodingContainer.EncodeString | Source/Core/ObjectMapper.swift:340-342 | the key maps to a fresh string node |
| CodableContainers.KeyedEncodingContainer.EncodeDouble | Source/Core/ObjectMapper.swift:344-346 | the key maps to a fresh double node |
| CodableContainers.KeyedEncodingContainer.EncodeInt | Source/Core/ObjectMapper.swift:352-354 | the key maps to a fresh int node |
| CodableContainers.KeyedEncodingContainer.ValueEncoder | Source/Core/ObjectMapper.swift:393-394 | the encoder the value is encoded with: fresh, over a fresh `.null` node, with the coding path `[key]` |
| CodableContainers.KeyedEncodingContainer.EncodeEncodable | Source/Core/ObjectMapper.swift:396 | the key maps to the encoder's node, whatever the value wrote into it, and the other entries stay |
| CodableContainers.KeyedEncodingContainer.NestedContainer | Source/Core/ObjectMapper.swift:399-415 | reuses the dictionary already under the key (a wrong kind there is the source's precondition). Otherwise it inserts a fresh empty dictionary. The nested container writes into that node |
| CodableContainers.KeyedEncodingContainer.NestedUnkeyedContainer | Source/Core/ObjectMapper.swift:417-432 | the same with arrays. The nested coding path is extended by the key |
| CodableContainers.UnkeyedEncodingContainer.constructor | Source/Core/ObjectMapper.swift:448-451 | stores the coding path and the shared node |
| CodableContainers.UnkeyedEncodingContainer.Count | Source/Core/ObjectMapper.swift:453-455 | the array length of the storage, or 0 |
| CodableContainers.UnkeyedEncodingContainer.Append | Source/Core/ObjectMapper.swift:472-539 | appends the node. The count rises by exactly one |
| CodableContainers.UnkeyedEncodingContainer.EncodeNil | Source/Core/ObjectMapper.swift:472-474 | appends a fresh null node. The count rises by one |
| CodableContainers.UnkeyedEncodingContainer.EncodeBool | Source/Core/ObjectMapper.swift:476-478 | appends a fresh bool node. The count rises by one |
| CodableContainers.UnkeyedEncodingContainer.EncodeString | Source/Core/ObjectMapper.swift:480-482 | appends a fresh string node |
| CodableContainers.UnkeyedEncodingContainer.EncodeDouble | Source/Core/ObjectMapper.swift:484-486 | appends a fresh double node |
| CodableContainers.UnkeyedEncodingContainer.EncodeInt | Source/Core/ObjectMapper.swift:492-494 | appends a fresh int node |
| CodableContainers.UnkeyedEncodingContainer.ValueEncoder | Source/Core/ObjectMapper.swift:536 | the encoder the value is encoded with: fresh, over a fresh empty `.dictionary`, with an empty coding path |
| CodableContainers.UnkeyedEncodingContainer.EncodeEncodable | Source/Core/ObjectMapper.swift:538 | appends the encoder's node, whatever the value wrote into it |
| CodableContainers.SingleValueEncodingContainer.constructor | Source/Core/ObjectMapper.swift:221-223 | stores the shared node |
| CodableContainers.SingleValueEncodingContainer.EncodeNil | Source/Core/ObjectMapper.swift:234-237 | the node becomes null |
| CodableContainers.SingleValueEncodingContainer.EncodeBool | Source/Core/ObjectMapper.swift:239-242 | the node becomes the bool |
| CodableContainers.SingleValueEncodingContainer.EncodeString | Source/Core/ObjectMapper.swift:244-247 | the node becomes the string |
| CodableContainers.SingleValueEncodingContainer.EncodeDouble | Source/Core/ObjectMapper.swift:249-252 | the node becomes the double |
| CodableContainers.SingleValueEncodingContainer.EncodeInt | Source/Core/ObjectMapper.swift:259-262 | the node becomes the integer |
| CodableContainers.SingleValueEncodingContainer.EncodeEncodable | Source/Core/ObjectMapper.swift:309-314 | a fresh encoder over the container's own node, with its coding path, so what the value encodes lands in that node |
| CodableContainers.Encoding.constructor | Source/Core/ObjectMapper.swift:193-195 | stores the node, with an empty coding path |
| CodableContainers.Encoding.KeyedContainer | Source/Core/ObjectMapper.swift:197-201 | a fresh container over the encoder's own node |
| CodableContainers.Encoding.UnkeyedContainer | Source/Core/ObjectMapper.swift:203-207 | a fresh container over the encoder's own node |
| CodableContainers.Encoding.SingleValueContainer | Source/Core/ObjectMapper.swift:209-213 | a fresh container over the encoder's own node, with the encoder's coding path |
| CodableContainers.EncodeThroughNested | Source/Core/ObjectMapper.swift:399-415 | a value encoded through a nested keyed container shows up under its key in the parent |
| CodableContainers.EncodeThroughSingleValue | Source/Core/ObjectMapper.swift:309-314 | a bool written through the encoder `encode<T>` hands out ends up in the single-value container's own node |
| CodableContainers.EncodeNothing | Source/Core/ObjectMapper.swift:392-397 | a usage method of both `encode<T>`s, for a value that writes nothing (:532-539 for the unkeyed one): under a key it leaves `null`, in an array an empty dictionary |
| CodableContainers.ReopenedNestedContainerIsShared | Source/Core/ObjectMapper.swift:399-415 | reopening the nested container for a key reuses the node, so both writes land in one child |
| CodableContainers.KeyedDecodingContainer.constructor | Source/Core/ObjectMapper.swift:623-625 | stores the node |
| CodableContainers.KeyedDecodingContainer.Contains | Source/Core/ObjectMapper.swift:645-647 | holds iff the key is in the storage's dictionary |
| CodableContainers.KeyedDecodingContainer.AllKeys | Source/Core/ObjectMapper.swift:617-621 | exactly the keys `contains` accepts |
| CodableContainers.KeyedDecodingContainer.Item | Source/Core/ObjectMapper.swift:631-636 | a missing key throws `valueNotFound`. Otherwise the node under it |
| CodableContainers.KeyedDecodingContainer.DecodeNil | Source/Core/ObjectMapper.swift:649-651 | a missing key throws `valueNotFound`. Otherwise whether the item is null |
| CodableContainers.KeyedDecodingContainer.DecodeBool | Source/Core/ObjectMapper.swift:653-655 | `valueNotFound` for a missing key, `typeMismatch` for a present non-bool, else the bool |
| CodableContainers.KeyedDecodingContainer.DecodeString | Source/Core/ObjectMapper.swift:657-659 | the same for strings |
| CodableContainers.KeyedDecodingContainer.DecodeDouble | Source/Core/ObjectMapper.swift:661-663 | the same for doubles. An `intOrDouble` item widens |
| CodableContainers.KeyedDecodingContainer.DecodeInt | Source/Core/ObjectMapper.swift:669-671 | the same for integers |
| CodableContainers.KeyedDecodingContainer.Decode | Source/Core/ObjectMapper.swift:709-712 | `valueNotFound` for a missing key, else `T.init(from:)` on the item. `init` may read the item's fields |
| CodableContainers.DecodeThroughInit | Source/Core/ObjectMapper.swift:709-712 | a usage method: an `init` that reads the item's payload gets the node under the key, so it gives its integer or `typeMismatch`. A missing key gives `valueNotFound` |
| CodableContainers.Require | Source/Core/ObjectMapper.swift:638-643 | success iff the value is present, else `typeMismatch` |
| CodableContainers.UnkeyedDecodingContainer.constructor | Source/Core/ObjectMapper.swift:745-752 | stores the node with the cursor at 0 |
| CodableContainers.UnkeyedDecodingContainer.CurrentItem | Source/Core/ObjectMapper.swift:760-762 | defines `currentItem` as the element at the cursor. It is only called where `isAtEnd` is false, which is what the force-unwrap and the index need |
| CodableContainers.UnkeyedDecodingContainer.Count | Source/Core/ObjectMapper.swift:736-738 | present iff the storage is an array, and then its length |
| CodableContainers.UnkeyedDecodingContainer.IsAtEnd | Source/Core/ObjectMapper.swift:740-743 | holds iff the storage is not an array or `currentIndex >= count` |
| CodableContainers.UnkeyedDecodingContainer.DecodeNil | Source/Core/ObjectMapper.swift:772-781 | at the end it throws `valueNotFound` and the cursor stays put. Otherwise it answers whether the item is null, and moves on exactly when it is |
| CodableContainers.UnkeyedDecodingContainer.Require | Source/Core/ObjectMapper.swift:764-770 | success iff the value is present, and then the cursor moves on by one. Otherwise `typeMismatch` and the cursor stays |
| CodableContainers.UnkeyedDecodingContainer.DecodeBool | Source/Core/ObjectMapper.swift:783-787 | `valueNotFound` at the end, `typeMismatch` on a non-bool (cursor unchanged), else the bool and the cursor one on |
| CodableContainers.UnkeyedDecodingContainer.DecodeString | Source/Core/ObjectMapper.swift:789-793 | the same for strings |
| CodableContainers.UnkeyedDecodingContainer.DecodeDouble | Source/Core/ObjectMapper.swift:795-799 | the same for doubles |
| CodableContainers.UnkeyedDecodingContainer.DecodeInt | Source/Core/ObjectMapper.swift:807-811 | the same for integers |
| CodableContainers.UnkeyedDecodingContainer.Decode | Source/Core/ObjectMapper.swift:867-874 | `valueNotFound` at the end. Otherwise `init` on the current item, evaluated on the state before the call, with the cursor moving only on success. `init` may read the item's fields |
| CodableContainers.DecodeAllInts | Source/Core/ObjectMapper.swift:740-811 | a usage lemma of UnkeyedDecodingContainer, not a model of these lines: a client loop calling `decode(Int.self)` until `isAtEnd`. decoding ints until `isAtEnd` reads the whole array in order, or fails with `typeMismatch` at an element that is not an int |
| CodableContainers.SingleValueDecodingContainer.constructor | Source/Core/ObjectMapper.swift:894-896 | stores the node |
| CodableContainers.SingleValueDecodingContainer.DecodeNil | Source/Core/ObjectMapper.swift:905-907 | true iff the payload is nil |
| CodableContainers.SingleValueDecodingContainer.DecodeBool | Source/Core/ObjectMapper.swift:909-911 | success iff the payload is a bool, else `typeMismatch` |
| CodableContainers.SingleValueDecodingContainer.DecodeString | Source/Core/ObjectMapper.swift:913-915 | success iff the payload is a string, else `typeMismatch` |
| CodableContainers.SingleValueDecodingContainer.DecodeDouble | Source/Core/ObjectMapper.swift:917-919 | success iff the payload is a double, or an `intOrDouble` integer (widened) |
| CodableContainers.SingleValueDecodingContainer.DecodeInt | Source/Core/ObjectMapper.swift:925-927 | success iff the payload is an integer |
| CodableContainers.SingleValueDecodingContainer.Decode | Source/Core/ObjectMapper.swift:965-968 | `T.init(from:)` on the node, which may read the node's fields |
| CodableContainers.Decoding.constructor | Source/Core/ObjectMapper.swift:595-597 | stores the node |
| CodableContainers.Decoding.KeyedContainer | Source/Core/ObjectMapper.swift:599-601 | a fresh container over the decoder's node |
| CodableContainers.Decoding.UnkeyedContainer | Source/Core/ObjectMapper.swift:603-605 | a fresh container over the decoder's node, cursor at 0 |
| CodableContainers.Decoding.SingleValueContainer | Source/Core/ObjectMapper.swift:607-609 | a fresh container over the decoder's node |
| JsonParsing.ErrorAt | Source/JsonSerializer/JsonParser.swift:390-403 | defines the parse error at a position: that index, line 1 + the line feeds before it, column 0 and the scalar there. Parser.JsonParser.CreateError's loop is proved to compute it |
| JsonParsing.ParseText | Source/JsonSerializer/JsonParser.swift:70-90 | defines `parse()`: empty input is `.null`, otherwise one value followed by whitespace only. Parser.JsonParser.Parse computes it; JsonParserProperties.BlankInput and ParseTextAccepts state what it accepts |
| JsonParsing.Trailing | Source/JsonSerializer/JsonParser.swift:83-88 | defines the check after the top-level value. JsonParserProperties.TrailingBlank proves it passes iff only whitespace follows, and otherwise reports the first other scalar |
| JsonParsing.ShortEscape | Source/JsonSerializer/JsonParser.swift:131-147 | defines the scalar after a backslash for each of `" \ / b f n r t` and what it stands for. JsonParserProperties.ShortEscapes proves each decodes to that scalar |
| JsonParsing.IsScalarValue | Source/JsonSerializer/JsonParser.swift:165-169 | defines the numbers `UnicodeScalar(number)` accepts: below 0xD800, or from 0xE000 to 0x10FFFF. JsonParserProperties.LoneSurrogateRejected shows a lone surrogate fails |
| JsonParsing.Expect | Source/JsonSerializer/JsonParser.swift:285-290 | defines one `next()` compared with the expected scalar, failing with `unexpectedCharacter` otherwise. Parser.JsonParser.EnsureExpectedCharacter computes it |
| JsonParsing.ComposeNumber | Source/JsonSerializer/JsonParser.swift:354-368 | defines the value of a finished number, composed exactly: `intOrDouble` iff the decimal is an integer, otherwise `.double`. JsonParserProperties.ComposeInteger, IntegralDecimalExample and FractionalDecimalExample state its results. The `Int(number)` trap is under "Left out" |
| JsonParsing.RepeatUndoesNext | Source/JsonSerializer/JsonParser.swift:371-388 | `repeatCharacter()` right after `next()` restores the cursor `(index, hasNext)` |
| JsonParsing.NextAtEndStays | Source/JsonSerializer/JsonParser.swift:371-388 | with `hasNext` off, `next()` leaves the cursor where it is, and `repeatCharacter()` then does not restore it |
| JsonParsing.CursorPositions | Source/JsonSerializer/JsonParser.swift:371-388 | as a position in [0, n], `next()` moves one on and stops at n, and `repeatCharacter()` moves one back |
| JsonParsing.PositionDeterminesCursor | Source/JsonSerializer/JsonParser.swift:371-388 | a reachable cursor is determined by its position |
| JsonParsing.ParseValue | Source/JsonSerializer/JsonParser.swift:92-118 | a parsed value ends strictly after where it started, within the input |
| JsonParsing.HexValue | Source/JsonSerializer/JsonParser.swift:152-160 | the digit value of any scalar is below 16 |
| JsonParsing.ParseHex | Source/JsonSerializer/JsonParser.swift:149-164 | a successful `\u` loop of k scalars ends exactly k on |
| JsonParsing.ParseString | Source/JsonSerializer/JsonParser.swift:120-182 | a parsed string ends strictly after where it started |
| JsonParsing.UncheckedNext | Source/JsonSerializer/JsonParser.swift:285-290 | a `next()` that does not look at `hasNext` stays within the input |
| JsonParsing.ParseLiteral | Source/JsonSerializer/JsonParser.swift:260-290 | a literal that parses yields its value |
| JsonParsing.ParseDictionary | Source/JsonSerializer/JsonParser.swift:193-224 | a parsed dictionary ends strictly after where it started |
| JsonParsing.ParseArray | Source/JsonSerializer/JsonParser.swift:233-258 | a parsed array ends strictly after where it started |
| JsonParsing.NumberLoop | Source/JsonSerializer/JsonParser.swift:312-352 | the number loop never moves back, and leaves the accumulators unchanged when it reads nothing |
| JsonParsing.ParseNumber | Source/JsonSerializer/JsonParser.swift:304-369 | a parsed number ends strictly after where it started |
| Parser.JsonParser.constructor | Source/JsonSerializer/JsonParser.swift:62-68 | the empty scalar view, cursor at its start, `hasNext` off |
| Parser.JsonParser.Parse | Source/JsonSerializer/JsonParser.swift:70-90 | the method's result is `ParseText` of the input. Empty input changes nothing |
| Parser.JsonParser.ParseValue | Source/JsonSerializer/JsonParser.swift:92-118 | the loop computes `ParseValue` from the cursor's position and leaves the cursor where that says |
| Parser.JsonParser.ParseString | Source/JsonSerializer/JsonParser.swift:120-182 | the loop computes `ParseString` from the cursor's position |
| Parser.JsonParser.ParseHexDigits | Source/JsonSerializer/JsonParser.swift:149-164 | the four-step loop computes `ParseHex` |
| Parser.JsonParser.ParseDictionary | Source/JsonSerializer/JsonParser.swift:193-224 | the state-machine loop computes `ParseDictionary` from state start |
| Parser.JsonParser.ParseArray | Source/JsonSerializer/JsonParser.swift:233-258 | the state-machine loop computes `ParseArray` from state start |
| Parser.JsonParser.ParseTrue | Source/JsonSerializer/JsonParser.swift:260-266 | reads `rue` and gives `.bool(true)`, as `ParseLiteral` says |
| Parser.JsonParser.ParseFalse | Source/JsonSerializer/JsonParser.swift:268-275 | reads `alse` and gives `.bool(false)` |
| Parser.JsonParser.ParseNull | Source/JsonSerializer/JsonParser.swift:277-283 | reads `ull` and gives `.null` |
| Parser.JsonParser.EnsureExpectedCharacter | Source/JsonSerializer/JsonParser.swift:285-290 | error iff the scalar read is not the expected one. The cursor moves as an unchecked `next()` |
| Parser.JsonParser.ParseNumber | Source/JsonSerializer/JsonParser.swift:304-369 | the number loop and its final switch compute `ParseNumber` |
| Parser.JsonParser.Next | Source/JsonSerializer/JsonParser.swift:371-380 | returns the scalar at `index` and advances the cursor, or turns `hasNext` off at the last scalar |
| Parser.JsonParser.RepeatCharacter | Source/JsonSerializer/JsonParser.swift:382-388 | moves the cursor one position back |
| Parser.JsonParser.CreateError | Source/JsonSerializer/JsonParser.swift:390-403 | the line-counting loop gives line = 1 + the line feeds before the index, and column 0 |
| JsonParserProperties.BlankValue | Source/JsonSerializer/JsonParser.swift:92-118 | only whitespace left: `parseValue` fails with `unexpectedEOF` |
| JsonParserProperties.BlankInput | Source/JsonSerializer/JsonParser.swift:74-76 | empty input parses to `.null`. Non-empty all-whitespace input fails with `unexpectedEOF` |
| JsonParserProperties.TrailingBlank | Source/JsonSerializer/JsonParser.swift:83-88 | the trailing check passes iff only whitespace follows. Otherwise `onlyWhitespacesAtEnd` at the first other scalar |
| JsonParserProperties.ParseTextAccepts | Source/JsonSerializer/JsonParser.swift:70-90 | a non-empty input parses iff its value parses and only whitespace follows, and the result is that value |
| JsonParserProperties.ShortEscapes | Source/JsonSerializer/JsonParser.swift:131-147 | `\" \\ \/ \b \f \n \r \t` decode to U+0022, U+005C, U+002F, U+0008, U+000C, U+000A, U+000D and U+0009. Any other scalar but `u` fails with `unknownEscapedCharacter` |
| JsonParserProperties.UnicodeEscapeTakesFour | Source/JsonSerializer/JsonParser.swift:148-169 | `\u` consumes exactly the next four scalars and appends the scalar they spell, each non-hex scalar counting 0. A non-scalar value fails with `invalidUnicodeCharacter` |
| JsonParserProperties.UnterminatedString | Source/JsonSerializer/JsonParser.swift:125-181 | with no closing quote the string fails, with `unexpectedEOF` or an escape error |
| JsonParserProperties.HexEndOfInput | Source/JsonSerializer/JsonParser.swift:150-163 | the `\u` loop fails only by reaching the end, with `unexpectedEOF` |
| JsonParserProperties.DictionaryAllows | Source/JsonSerializer/JsonParser.swift:204-221 | a scalar the state does not allow (key only after `{` or `,`, colon only after a key, `,`/`}` only after a value) fails with `unexpectedCharacter` |
| JsonParserProperties.DictionaryTrailingComma | Source/JsonSerializer/JsonParser.swift:212-215 | `}` after a comma is rejected |
| JsonParserProperties.ArrayAfterElement | Source/JsonSerializer/JsonParser.swift:244-250 | after an element only `,` or `]` is accepted |
| JsonParserProperties.ArrayTrailingComma | Source/JsonSerializer/JsonParser.swift:251-256 | `]` after a comma is parsed as a number and fails with `invalidNumber` |
| JsonParserProperties.LoopStep | Source/JsonSerializer/JsonParser.swift:312-352 | one accepted scalar is one turn of the number loop |
| JsonParserProperties.LoopStop | Source/JsonSerializer/JsonParser.swift:348-351 | the loop stops at the end or at the first scalar its switch does not take |
| JsonParserProperties.IntegerDigit | Source/JsonSerializer/JsonParser.swift:323-325 | an integer digit shifts the mantissa one decimal place |
| JsonParserProperties.ComposeInteger | Source/JsonSerializer/JsonParser.swift:359-367 | with no fraction and no exponent the value is `.intOrDouble` of the signed mantissa |
| JsonParserProperties.DigitsAcc | Source/JsonSerializer/JsonParser.swift:312-352 | a run of digits with no leading zero leaves the decimal value in the mantissa and a finished state |
| JsonParserProperties.FinishedNumber | Source/JsonSerializer/JsonParser.swift:354-368 | a loop that stops in a finished state gives the composed number |
| JsonParserProperties.IntegerLiteral | Source/JsonSerializer/JsonParser.swift:304-368 | an optional minus and digits with no leading zero give `.intOrDouble` of their decimal value |
| JsonParserProperties.NotANumber | Source/JsonSerializer/JsonParser.swift:354-356 | anything but a minus or a digit where a number starts fails with `invalidNumber` |
| JsonParserProperties.LiteralAtEnd | Source/JsonSerializer/JsonParser.swift:285-290 | `next()` past the end re-reads the last scalar, so `nul` at the very end parses as null, while `tru`, `fals` and `[nul]` fail |
| JsonParserProperties.NonHexDigitCountsZero | Source/JsonSerializer/JsonParser.swift:154-160 | `\u00g1` decodes to U+0001 |
| JsonParserProperties.LoneSurrogateRejected | Source/JsonSerializer/JsonParser.swift:165-169 | `\ud800` fails with `invalidUnicodeCharacter(0xD800)` |
| JsonParserProperties.EmptyContainers | Source/JsonSerializer/JsonParser.swift:212-213 | `[]` and `{}` parse to empty containers |
| JsonParserProperties.ArrayTrailingCommaExample | Source/JsonSerializer/JsonParser.swift:244-256 | `[1,]` fails with `invalidNumber` at the bracket |
| JsonParserProperties.DictionaryTrailingCommaExample | Source/JsonSerializer/JsonParser.swift:204-221 | `{"a":1,}` fails with `unexpectedCharacter` at the brace |
| JsonParserProperties.IntegralDecimalExample | Source/JsonSerializer/JsonParser.swift:365-367 | `1.5e1` is integral and gives `.intOrDouble(15)` |
| JsonParserProperties.FractionalDecimalExample | Source/JsonSerializer/JsonParser.swift:365-367 | `-2.50` gives the double -2.5 |
| JsonParserProperties.LeadingZeroExamples | Source/JsonSerializer/JsonParser.swift:318-319 | `0` parses, and `01` fails with `onlyWhitespacesAtEnd` |
| JsonEscaping.EscapeRule | Source/JsonSerializer/JsonWriter.swift:13-14 | defines how one scalar is written inside a string. KnownCharacterIsRule proves the 161-entry table agrees with it, and JsonRoundTrip.ParseWrittenScalar proves the parser reads each escape back as its scalar |
| JsonEscaping.HexDigit | Source/JsonSerializer/JsonWriter.swift:13-14 | the lower-case hexadecimal digit of a value below 16 |
| JsonEscaping.KnownCharacterIsRule | Source/JsonSerializer/JsonWriter.swift:13-14 | the table has exactly 161 entries, and entry i is the escape rule's text for scalar i: `\"`, `\\`, five short escapes, `\u00xx` for the other controls and 0x7F-0xA0, the scalar itself otherwise |
| JsonEscaping.EscapeScalar | Source/JsonSerializer/JsonWriter.swift:45-51 | a scalar up to 160 via the table, above it verbatim: either way the rule's text |
| JsonWriting.NatTextDigits | Source/JsonSerializer/JsonWriter.swift:55-57 | the decimal text is all digits, with no leading zero |
| JsonWriting.SortedKeys | Source/JsonSerializer/JsonWriter.swift:62 | one key per element of the set |
| JsonWriting.SortedKeysMembers | Source/JsonSerializer/JsonWriter.swift:62 | the ordered keys are exactly the dictionary's |
| JsonWriting.SortedKeysAscending | Source/JsonSerializer/JsonWriter.swift:62 | the ordered keys ascend strictly, so each key is written once |
| JsonWriting.JsonWriter.constructor | Source/JsonSerializer/JsonWriter.swift:16 | `result` starts empty |
| JsonWriting.JsonWriter.Serialize | Source/JsonSerializer/JsonWriter.swift:18-22 | appends the top-level text. A top-level null appends nothing |
| JsonWriting.JsonWriter.SerializeRecursive | Source/JsonSerializer/JsonWriter.swift:24-41 | appends the value's text, chosen by the tag |
| JsonWriting.JsonWriter.SerializeString | Source/JsonSerializer/JsonWriter.swift:43-53 | appends a quote, each scalar's escape in order, and a quote |
| JsonWriting.JsonWriter.SerializeInt | Source/JsonSerializer/JsonWriter.swift:55-57 | appends the decimal text |
| JsonWriting.JsonWriter.SerializeDictionary | Source/JsonSerializer/JsonWriter.swift:59-73 | the `first`-flag loop appends the members comma-separated within braces |
| JsonWriting.JsonWriter.SerializeMember | Source/JsonSerializer/JsonWriter.swift:68-70 | appends the key as a string, a colon and the value |
| JsonWriting.JsonWriter.SerializeArray | Source/JsonSerializer/JsonWriter.swift:75-87 | the `first`-flag loop appends the elements comma-separated within brackets |
| JsonWriting.JsonWriter.SerializeDouble | Source/JsonSerializer/JsonWriter.swift:89-95 | NaN and the infinities as `null`, others by their description |
| JsonWriting.JsonWriter.SerializeBool | Source/JsonSerializer/JsonWriter.swift:97-99 | appends `true` or `false` |
| JsonWriting.JsonWriter.SerializeNull | Source/JsonSerializer/JsonWriter.swift:101-103 | appends `null` |
| JsonWriting.FindLeast | Source/JsonSerializer/JsonWriter.swift:62 | the loop finds the least key |
| JsonWriting.SortKeys | Source/JsonSerializer/JsonWriter.swift:62 | the keys in ascending order |
| JsonWriting.Escaped | Source/JsonSerializer/JsonWriter.swift:45-52 | defines the escapes of a string's scalars in order. JsonWriter.SerializeString appends it; JsonRoundTrip.ParseWrittenEscaped reads it back as the string |
| JsonWriting.StringText | Source/JsonSerializer/JsonWriter.swift:43-53 | defines the quoted, escaped text of a string. JsonRoundTrip.ParseWrittenString reads it back as that string |
| JsonWriting.IntText | Source/JsonSerializer/JsonWriter.swift:55-57 | defines `Int.description`: a minus for a negative number, then the decimal digits. NatTextDigits and JsonRoundTrip.ParseWrittenInt state its digits and that it reads back as the integer |
| JsonWriting.DoubleText | Source/JsonSerializer/JsonWriter.swift:89-95 | defines the text of a double: `null` for NaN and the infinities, otherwise `describe`. JsonWriterProperties.ScalarsWritten states it |
| JsonWriting.BoolText | Source/JsonSerializer/JsonWriter.swift:97-99 | defines `true` and `false`. JsonRoundTrip.ParseWrittenLiteral reads them back |
| JsonWriting.ValueText | Source/JsonSerializer/JsonWriter.swift:24-41 | defines the text of a value, chosen by its tag. JsonWriter.SerializeRecursive appends it; JsonRoundTrip.ParseWrittenValue reads it back as the normalized tree |
| JsonWriting.DictionaryText | Source/JsonSerializer/JsonWriter.swift:59-73 | defines a dictionary's text, its members in key order within braces. JsonWriterProperties.DictionaryWritten and JsonRoundTrip.ParseWrittenDictionary state its shape and that it reads back |
| JsonWriting.ArrayText | Source/JsonSerializer/JsonWriter.swift:75-87 | defines an array's text, its elements in order within brackets. JsonWriterProperties.ArrayWritten and JsonRoundTrip.ParseWrittenArray state its shape and that it reads back |
| JsonWriting.TopLevelText | Source/JsonSerializer/JsonWriter.swift:18-22 | defines `serialize(supportedType:)`'s text: nothing for a top-level null, otherwise the value's text. JsonWriterProperties.NullWritten and JsonRoundTrip.WrittenTextParses state it |
| JsonWriterProperties.JoinedSnoc | Source/JsonSerializer/JsonWriter.swift:61-67 | one more text adds a comma and the text, except first |
| JsonWriterProperties.ElementsJoined | Source/JsonSerializer/JsonWriter.swift:75-87 | the elements are comma-joined, with no leading or trailing comma |
| JsonWriterProperties.MembersJoined | Source/JsonSerializer/JsonWriter.swift:59-73 | the members are comma-joined, with no leading or trailing comma |
| JsonWriterProperties.ArrayWritten | Source/JsonSerializer/JsonWriter.swift:75-87 | an array is `[` e1 `,` ... en `]` |
| JsonWriterProperties.DictionaryWritten | Source/JsonSerializer/JsonWriter.swift:59-73 | an object is `{` "k" `:` v `,` ... `}` over exactly its keys, each once |
| JsonWriterProperties.EmptyContainersWritten | Source/JsonSerializer/JsonWriter.swift:59-87 | empty containers give `[]` and `{}` |
| JsonWriterProperties.NullWritten | Source/JsonSerializer/JsonWriter.swift:18-22 | a top-level null writes nothing. A nested null writes `null` |
| JsonWriterProperties.ScalarsWritten | Source/JsonSerializer/JsonWriter.swift:28-29 | `.int(n)` and `.intOrDouble(n)` both give the decimal text of n. Bools give `true`/`false` |
| JsonRoundTrip.Normalize | Source/JsonSerializer/JsonParser.swift:365-367 | the parser's reading of a written tree: `int` becomes `intOrDouble`, other scalars stay |
| JsonRoundTrip.NatTextValue | Source/JsonSerializer/JsonWriter.swift:55-57 | the decimal text of n spells n |
| JsonRoundTrip.ParseWrittenInt | Source/JsonSerializer/JsonWriter.swift:55-57 | the written integer reads back as `.intOrDouble(n)` just past its text |
| JsonRoundTrip.ParseWrittenUnicodeEscape | Source/JsonSerializer/JsonWriter.swift:13-14 | a `\u00xx` escape reads back as its scalar |
| JsonRoundTrip.ParseWrittenScalar | Source/JsonSerializer/JsonWriter.swift:45-51 | every scalar's escape reads back as that scalar |
| JsonRoundTrip.ParseWrittenEscaped | Source/JsonSerializer/JsonWriter.swift:45-52 | an escaped string and its closing quote read back as the string |
| JsonRoundTrip.ParseWrittenString | Source/JsonSerializer/JsonWriter.swift:43-53 | the written string reads back as the string |
| JsonRoundTrip.ParseWrittenValue | Source/JsonSerializer/JsonWriter.swift:24-41 | a written value without doubles reads back as its normalized tree, just past its text |
| JsonRoundTrip.ParseWrittenArray | Source/JsonSerializer/JsonWriter.swift:75-87 | a written array reads back element by element |
| JsonRoundTrip.ParseWrittenDictionary | Source/JsonSerializer/JsonWriter.swift:59-73 | a written dictionary reads back with the same keys and values |
| JsonRoundTrip.WrittenTextParses | Source/JsonSerializer/JsonWriter.swift:18-41 | parsing the writer's output of a tree without doubles gives the tree back, with `int` as `intOrDouble`. A top-level null is written as nothing and read back from nothing |
| JsonReading.JsonObject | Source/JsonSerializer/JsonSerialization.swift:27-50 | (corrected) defines what `JSONObject(with:)` gives: the byte order mark dropped, then an object, else an array, else a value, else NSNull; empty or blank data throws "Unexpected end of file" from the object reader. It has no contract of its own; JsonReader.ReadJson computes it, and ByteOrderMarkSkipped and NothingThrows state what it gives |
| JsonReading.HasNext | Source/JsonSerializer/JsonSerialization.swift:104-106 | (corrected) defines `hasNext` as an index below the end of the buffer. JsonReaderFindings.HasNextAsWritten is the code's `<=`. TakeASCII's contract states the consequence: a byte is taken only when one is there |
| JsonReading.IsHexChr | Source/JsonSerializer/JsonSerialization.swift:244-248 | defines the hex bytes 0-9, A-F and a-f. JsonReaderProperties.CodeUnitRead proves a code unit is read iff four of them follow |
| JsonReading.ShortEscape | Source/JsonSerializer/JsonSerialization.swift:208-216 | defines the byte after a backslash for each of `" \ / b f n r t` and the character it stands for. JsonReaderProperties.ShortEscapes proves each reads back as that character |
| JsonReading.TakeASCII | Source/JsonSerializer/JsonSerialization.swift:85-91 | (corrected) a byte iff one is there and it is below 0x80, and then that byte |
| JsonReading.ConsumeWhitespace | Source/JsonSerializer/JsonSerialization.swift:115-121 | (corrected) never moves back. Every byte skipped is in {0x09, 0x0A, 0x0D, 0x20}, and it stops at the end or at the first other byte |
| JsonReading.ConsumeASCII | Source/JsonSerializer/JsonSerialization.swift:127-140 | (corrected) throws "Unexpected end of file" iff no ASCII byte is there. Gives the next index iff the byte is the one asked for |
| JsonReading.ConsumeStructure | Source/JsonSerializer/JsonSerialization.swift:123-125 | a found structural byte moves forward within the buffer |
| JsonReading.ConsumeASCIISequence | Source/JsonSerializer/JsonSerialization.swift:142-151 | a found sequence ends exactly its length on |
| JsonReading.HexValue | Source/JsonSerializer/JsonSerialization.swift:252 | each digit's value is below 16 |
| JsonReading.TakeHex | Source/JsonSerializer/JsonSerialization.swift:153-160 | (corrected) a digit iff the byte is hex, appended, with the index one on (corrected) |
| JsonReading.ParseCodeUnit | Source/JsonSerializer/JsonSerialization.swift:249-256 | (corrected) a code unit iff four hex bytes follow. It ends four on, and its value is their hexadecimal number, below 0x10000 |
| JsonReading.HexNumberBound | Source/JsonSerializer/JsonSerialization.swift:252 | k hex digits spell a number below 16^k |
| JsonReading.Combined | Source/JsonSerializer/JsonSerialization.swift:239-241 | `((hi-0xD800)<<10)+(lo-0xDC00)+0x10000` lies in 0x10000-0x10FFFF |
| JsonReading.ParseUnicodeSequence | Source/JsonSerializer/JsonSerialization.swift:223-242 | (corrected) a read escape ends at least four on |
| JsonReading.ParseEscapeSequence | Source/JsonSerializer/JsonSerialization.swift:201-221 | a read escape moves forward within the buffer |
| JsonReading.StringChunk | Source/JsonSerializer/JsonSerialization.swift:179-182 | (corrected) the chunk handed to the decoder has `current - chunk` bytes: it stops before the delimiter at `current` (corrected) |
| JsonReading.StringLoop | Source/JsonSerializer/JsonSerialization.swift:172-198 | (corrected) a read string moves forward within the buffer |
| JsonReading.ParseString | Source/JsonSerializer/JsonSerialization.swift:164-199 | (corrected) a read string moves forward within the buffer |
| JsonReading.NumberWindow | Source/JsonSerializer/JsonSerialization.swift:265-268 | at most 63 bytes are handed to the C scanners |
| JsonReading.ParseNumber | Source/JsonSerializer/JsonSerialization.swift:263-296 | a read number moves forward within the buffer |
| JsonReading.ParseValue | Source/JsonSerializer/JsonSerialization.swift:299-322 | a read value moves forward within the buffer |
| JsonReading.ParseObject | Source/JsonSerializer/JsonSerialization.swift:325-352 | a read object moves forward within the buffer |
| JsonReading.ObjectLoop | Source/JsonSerializer/JsonSerialization.swift:331-351 | a read object moves forward within the buffer |
| JsonReading.ParseObjectMember | Source/JsonSerializer/JsonSerialization.swift:354-372 | a read member moves forward within the buffer |
| JsonReading.ParseArray | Source/JsonSerializer/JsonSerialization.swift:375-401 | a read array moves forward within the buffer |
| JsonReading.ArrayLoop | Source/JsonSerializer/JsonSerialization.swift:381-400 | a read array moves forward within the buffer |
| JsonReading.WithoutByteOrderMark | Source/JsonSerializer/JsonSerialization.swift:29-35 | a leading EF BB BF is dropped, and anything else is kept whole |
| JsonReader.SkipWhitespace | Source/JsonSerializer/JsonSerialization.swift:115-121 | (corrected) the `while` loop computes `ConsumeWhitespace` |
| JsonReader.SkipStructure | Source/JsonSerializer/JsonSerialization.swift:123-125 | (corrected) computes `ConsumeStructure` |
| JsonReader.SkipASCIISequence | Source/JsonSerializer/JsonSerialization.swift:142-151 | (corrected) the `for` loop computes `ConsumeASCIISequence` |
| JsonReader.ReadString | Source/JsonSerializer/JsonSerialization.swift:164-199 | (corrected) the chunk/current loop computes `ParseString` |
| JsonReader.ReadValue | Source/JsonSerializer/JsonSerialization.swift:299-322 | (corrected) computes `ParseValue` |
| JsonReader.ReadObject | Source/JsonSerializer/JsonSerialization.swift:325-352 | (corrected) the `while true` loop computes `ParseObject` |
| JsonReader.ReadObjectMember | Source/JsonSerializer/JsonSerialization.swift:354-372 | (corrected) computes `ParseObjectMember` |
| JsonReader.ReadArray | Source/JsonSerializer/JsonSerialization.swift:375-401 | (corrected) the `while true` loop computes `ParseArray` |
| JsonReader.ReadJson | Source/JsonSerializer/JsonSerialization.swift:27-50 | (corrected) computes `JsonObject`: object, else array, else value, else NSNull |
| JsonReaderProperties.CommonPrefix | Source/JsonSerializer/JsonSerialization.swift:142-151 | the longest prefix of the sequence found at the index |
| JsonReaderProperties.SequenceConsumed | Source/JsonSerializer/JsonSerialization.swift:142-151 | `consumeASCIISequence` gives the index past the whole sequence iff it is all there. It throws "Unexpected end of file" when the buffer ends or a non-ASCII byte comes before the match is complete, and is nil at the first other mismatching byte |
| JsonReaderProperties.LiteralRead | Source/JsonSerializer/JsonSerialization.swift:303-310 | an ASCII literal is read iff its bytes are at the index |
| JsonReaderProperties.WhitespaceIdempotent | Source/JsonSerializer/JsonSerialization.swift:115-121 | skipping whitespace twice is skipping it once |
| JsonReaderProperties.CodeUnitRead | Source/JsonSerializer/JsonSerialization.swift:244-256 | (corrected) a code unit iff four bytes in 0-9, A-F, a-f follow, with value `4096*d0 + 256*d1 + 16*d2 + d3` |
| JsonReaderProperties.CombinedSplits | Source/JsonSerializer/JsonSerialization.swift:239-241 | the combined scalar gives back both surrogates (RFC 2781 section 2.2) |
| JsonReaderProperties.CombinedInjective | Source/JsonSerializer/JsonSerialization.swift:239-241 | different surrogate pairs give different scalars |
| JsonReaderProperties.LeadSurrogateNeedsTrail | Source/JsonSerializer/JsonSerialization.swift:229-241 | after a lead surrogate the escape succeeds iff `\u` and a trail surrogate follow, and gives the combined scalar ten bytes on. Otherwise it throws |
| JsonReaderProperties.ShortEscapes | Source/JsonSerializer/JsonSerialization.swift:201-221 | `" \ / b f n r t` give their characters one byte on. Any other byte but `u` gives nil |
| JsonReaderProperties.WrittenEscapeRead | Source/JsonSerializer/JsonSerialization.swift:201-242 | every escape the writer emits reads back as its scalar |
| JsonReaderProperties.ControlEscapeRead | Source/JsonSerializer/JsonSerialization.swift:223-242 | a `\u00xx` escape reads back as its scalar, six bytes on |
| JsonReaderProperties.PlainBytesSkipped | Source/JsonSerializer/JsonSerialization.swift:172-177 | bytes that are neither quote nor backslash are stepped over |
| JsonReaderProperties.PlainStringRead | Source/JsonSerializer/JsonSerialization.swift:164-199 | (corrected) a quote, plain bytes and a quote read as their decoding, or throw "corrupt". With no closing quote the string throws "Unexpected end of file during string parse" |
| JsonReaderProperties.InvalidEscapeThrows | Source/JsonSerializer/JsonSerialization.swift:181-193 | an escape that reads as nil throws "Invalid escape sequence" at its position |
| JsonReaderProperties.NumberRead | Source/JsonSerializer/JsonSerialization.swift:263-296 | an integer iff both scanners read the same positive length, a double iff only the double scanner reads further, nil otherwise |
| JsonReaderProperties.ObjectKeepsKeys | Source/JsonSerializer/JsonSerialization.swift:331-351 | a finished object keeps every key read before |
| JsonReaderProperties.MemberThenOtherDeclines | Source/JsonSerializer/JsonSerialization.swift:336-348 | after a member, anything but `}` or `,` makes the object nil rather than throw |
| JsonReaderProperties.MemberPiecesRequired | Source/JsonSerializer/JsonSerialization.swift:354-372 | a missing key, colon or value throws, naming its position |
| JsonReaderProperties.ArrayKeepsElements | Source/JsonSerializer/JsonSerialization.swift:381-400 | a finished array keeps the elements read before as a prefix |
| JsonReaderProperties.BadlyFormedArrayThrows | Source/JsonSerializer/JsonSerialization.swift:386-399 | no element, or anything but `]` or `,` after one, throws "Badly formed array" |
| JsonReaderProperties.ByteOrderMarkSkipped | Source/JsonSerializer/JsonSerialization.swift:30-31 | data behind a byte order mark reads as the data alone |
| JsonReaderProperties.NothingThrows | Source/JsonSerializer/JsonSerialization.swift:39-48 | (corrected) empty or all-whitespace data throws "Unexpected end of file" |
| JsonReaderExamples.EmptyContainersRead | Source/JsonSerializer/JsonSerialization.swift:325-401 | `{}` and `[]` read as an empty object and array |
| JsonReaderExamples.GarbageReadsAsNull | Source/JsonSerializer/JsonSerialization.swift:39-48 | `x` reads as NSNull |
| JsonReaderExamples.ArrayTrailingComma | Source/JsonSerializer/JsonSerialization.swift:381-395 | an element, a comma and `]` end the array with that element last |
| JsonReaderExamples.ObjectTrailingComma | Source/JsonSerializer/JsonSerialization.swift:331-345 | a member, a comma and `}` end the object with that member stored |
| JsonReaderExamples.LastMemberWins | Source/JsonSerializer/JsonSerialization.swift:337 | a repeated key takes the last value read for it |
| JsonReaderExamples.MalformedObjectIsNull | Source/JsonSerializer/JsonSerialization.swift:39-48 | an object that declines makes the whole input NSNull when no number is read either |
| JsonReaderFindings.TakeASCIIAsWritten | Source/JsonSerializer/JsonSerialization.swift:85-106 | as written, the end index reads the byte past the buffer |
| JsonReaderFindings.ConsumeWhitespaceAsWritten | Source/JsonSerializer/JsonSerialization.swift:115-121 | as written, skipping whitespace may end one past the buffer |
| JsonReaderFindings.WhitespaceAsWrittenReadsPastEnd | Source/JsonSerializer/JsonSerialization.swift:104-121 | as written, skipping agrees with the corrected reader unless only whitespace is left, and then goes past the end when the byte beyond is whitespace |
| JsonReaderFindings.TruncatedObjectClosed | Source/JsonSerializer/JsonSerialization.swift:104-106 | as written, `{` is closed by a `}` lying past the buffer. The corrected reader throws |
| JsonReaderFindings.TakeHexAsWritten | Source/JsonSerializer/JsonSerialization.swift:153-160 | as written, the digit is appended but the index is not moved |
| JsonReaderFindings.CodeUnitAsWrittenRepeats | Source/JsonSerializer/JsonSerialization.swift:249-256 | as written, the code unit is the first digit read four times, 0x1111 times its value, and the index stays |
| JsonReaderFindings.RepeatedDigit | Source/JsonSerializer/JsonSerialization.swift:252 | four copies of a digit spell 0x1111 times its value |
| JsonReaderFindings.CodeUnitAsWrittenMisreads | Source/JsonSerializer/JsonSerialization.swift:249-256 | `0041` gives 0 at index 0 as written, and 0x41 four on when corrected |
| JsonReaderFindings.StringChunkAsWritten | Source/JsonSerializer/JsonSerialization.swift:177-182 | as written, the chunk includes the quote or backslash |
| JsonReaderFindings.ChunkAsWrittenKeepsQuote | Source/JsonSerializer/JsonSerialization.swift:177-180 | for `"ab"` the chunk as written is `ab"`. The corrected reader reads `ab` |
| JsonReaderFindings.ScalarAsWritten | Source/JsonSerializer/JsonSerialization.swift:229-231 | `UnicodeScalar(codeUnit)` is nil exactly for a trail surrogate, where the source force-unwraps |
| JsonReaderFindings.LoneTrailRejected | Source/JsonSerializer/JsonSerialization.swift:229-231 | `\uDC00` traps as written. The corrected reader throws, naming the position |

## Left out

- Floating point. Doubles are opaque values that keep their exact decimal; IEEE rounding is not modelled. This covers three places:
  - the parser's final `pow`/`Double(Int)` composition (Source/JsonSerializer/JsonParser.swift:365-367) is composed exactly, integral iff the decimal is an integer;
  - `strtol`/`strtod` in the reader (Source/JsonSerializer/JsonSerialization.swift:263-296) become an abstract `Scanner` function that gives each scanner's distance and value over the at most 63-byte window;
  - `Double.description` in the writer is the function parameter `describe`, so a tree with doubles has no round-trip lemma.
- JsonParsing.ComposeNumber: does not model the trap of `let integer = Int(number)` (Source/JsonSerializer/JsonParser.swift:366). Swift stops the program there when the double is NaN or infinite, or when its magnitude is 2^63 or more. The model composes every number exactly and gives an integral one as an unbounded `intOrDouble`.
- JsonWriting.ValueText, JsonWriting.JsonWriter.Serialize and JsonWriting.JsonWriter.SerializeRecursive: require `WellTagged`, a tag that agrees with the payload. For every other tag the writer force-casts the payload (Source/JsonSerializer/JsonWriter.swift:26-37), which traps when they disagree. A `.null`-tagged node with a payload is also excluded, although `default: serializeNull()` (:38-39) writes `null` for it. Such a node is built only by giving `init(raw:type:)` a tag that disagrees with the payload (Source/Core/SupportedType.swift:32-35).
- Byte-to-scalar and byte-to-string conversion. The parser's input is already-decoded scalars, and `String(data:)` (JsonParser.swift:71) with `JsonError.load` is not modelled. The reader's `takeString` UTF-8 decoding is the function parameter `decode`.
- The bytes past the reader's buffer. The as-written `hasNext` reads one byte past the end; its value is the parameter `beyond` of the as-written members.
- Error texts and positions. The reader's `NSError` messages become constructors of `ReadError` carrying their `distanceFromStart` position. `JsonError.description` is not modelled. The parser's integer-width `UInt32` wrap in `number *= 16` cannot happen with four digits and is not modelled.
- Dictionary order. Swift's dictionary iteration order is unspecified:
  - `JsonWriter.SerializeDictionary` writes the keys in ascending order;
  - `allKeys` is a set;
  - when several values fail, `mapValues` only promises the error of one of them.
- Source/JsonSerializer/JsonSerializer.swift: a wrapper over Foundation's `JSONSerialization` and NSNumber classification.
- Source/Core/Serializer.swift, SupportedType+Equatable.swift (equality through `String(describing:)`), Polymorph.swift, Serializable.swift, Deserializable.swift and the Transformation/Convertibles registrations. Per-type (de)serialisation, `polymorphType` and the transformations are function parameters.
- `DeserializationError`: Source/Core/DeserializationError.swift declares only `wrongType(type:)`, `custom` and `unknown`, while ObjectMapper.swift and DeserializableData.swift throw `wrongType` with an expected kind. The model follows the throwing sites, `WrongType(expected, actual)`. `custom` and `unknown` are never thrown by the core and are not modelled.
- `ObjectMapper.serialize(_:)`, `encode`, `decode`, `ObjectEncoder` and `ObjectDecoder`: they drive the Codable protocols of user types, which are parameters here.
- The `fatalError` paths of the Codable containers (`superEncoder`, `superDecoder`, nested containers from unkeyed containers, keyed decoding `nestedContainer`) are not modelled.
- `canEncodeNewValue`, a stub that always returns true, is not modelled. The single-value encoder overwrites its node.
- The narrow-integer and `Float` encode and decode overloads (`Int8` to `UInt64`, `Float`), which trap on overflow, are not modelled. `Int` is unbounded.
- `codingPath` is kept on the encoding side only. The decoding containers never change theirs from `[]`, and the model's `DecodingError` carries neither a path nor a description.
- CodableContainers.KeyedDecodingContainer.AllKeys: coding keys are modelled by their `stringValue`, and `Key(stringValue:)` is taken as total, so the `compactMap` of Source/Core/ObjectMapper.swift:618 drops nothing.
- CodableContainers.KeyedEncodingContainer.NestedContainer: the source's precondition on the kind of an existing node is a `requires`.
- CodableContainers.KeyedEncodingContainer.NestedUnkeyedContainer: the same.
- Events/Event.swift, Preferences/BoolPreference.swift, Router/RequestEnhancer/RequestEnhancer.swift and Internal/Int+Functionals.swift are unrelated to the core. The performance tests and Package.swift are not part of this model.
- JsonReading.ConsumeStructure, ParseValue, ParseObject, ParseArray and the other reader functions state in their own contracts only that the index advances. What they read is stated by the lemmas of JsonReaderProperties and JsonReaderExamples.
- JsonReaderExamples.ArrayTrailingComma, ObjectTrailingComma and LastMemberWins are stated for any buffer whose pieces read as given, not for one concrete text.

## Findings

| source | as written | input that shows it | evidently intended | confidence | as-written member | corrected member |
|---|---|---|---|---|---|---|
| Source/JsonSerializer/JsonSerialization.swift:104-106 | `hasNext` is `input <= buffer.endIndex`, so `takeASCII` at the end index reads `buffer[endIndex]`, past the buffer (:90) | the one byte `{`, with `}` lying past the buffer, reads as a closed object | `input < buffer.endIndex`; the end of the buffer is "Unexpected end of file" | not executed | JsonReaderFindings.TruncatedObjectClosed | JsonReading.TakeASCII |
| Source/JsonSerializer/JsonSerialization.swift:153-160 | `takeMatching` returns the index it was given, so `parseCodeUnit` reads the first hex digit four times | the escape `\u0041` (`A`) gives code unit 0 and leaves the index at its first digit | return `index + 1`; four digits read in turn | not executed | JsonReaderFindings.CodeUnitAsWrittenMisreads | JsonReading.ParseCodeUnit |
| Source/JsonSerializer/JsonSerialization.swift:177-182 | `currentIndex` is moved past the quote or backslash before the chunk up to it is decoded, so the delimiter is part of the string | `"ab"` decodes the chunk `ab"` | decode the bytes before the delimiter | not executed | JsonReaderFindings.ChunkAsWrittenKeepsQuote | JsonReading.StringChunk |
| Source/JsonSerializer/JsonSerialization.swift:229-231 | a code unit that is not a lead surrogate is force-unwrapped as `UnicodeScalar(codeUnit)!`, which traps for a trail surrogate | `"\uDC00"` stops the program | throw, as for a lead surrogate without a trail | not executed | JsonReaderFindings.LoneTrailRejected | JsonReading.ParseUnicodeSequence |
