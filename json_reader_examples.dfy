/** What `jsonObject(with:)` of Source/JsonSerializer/JsonSerialization.swift
    makes of particular inputs: two whole inputs worked through to the
    Foundation object they give, and the object and array loops on any
    buffer whose pieces read as stated (trailing commas, repeated keys,
    truncated objects). */
module JsonReaderExamples {
  import opened Wrappers
  import opened SupportedTypes
  import opened JsonReading
  import JsonReaderProperties

  /** `{}` and `[]` read as an empty object and an empty array. */
  lemma {:induction false} EmptyContainersRead(decode: seq<Byte> -> Option<string>, scan: Scanner)
    ensures JsonObject([BeginObject, EndObject], decode, scan) == Success(JObject(map[]))
    ensures JsonObject([BeginArray, EndArray], decode, scan) == Success(JArray([]))
  {
    var o := Source([BeginObject, EndObject], decode, scan);
    assert ConsumeStructure(o, BeginObject, 0) == Success(Some(1));
    assert ConsumeStructure(o, EndObject, 1) == Success(Some(2));
    assert WithoutByteOrderMark(o.buffer) == o.buffer;
    assert ParseObject(o, 0) == Success(Some(Parsed(map[], 2)));
    var a := Source([BeginArray, EndArray], decode, scan);
    assert ConsumeStructure(a, BeginObject, 0) == Success(None);
    assert ConsumeStructure(a, BeginArray, 0) == Success(Some(1));
    assert ConsumeStructure(a, EndArray, 1) == Success(Some(2));
    assert WithoutByteOrderMark(a.buffer) == a.buffer;
    assert ParseObject(a, 0) == Success(None);
    assert ParseArray(a, 0) == Success(Some(Parsed([], 2)));
  }

  /** Input that is no JSON at all, `x`, reads as NSNull, provided the C
      scanners read no number from it. */
  lemma {:induction false} GarbageReadsAsNull(decode: seq<Byte> -> Option<string>, scan: Scanner)
    requires scan([0x78]).intDistance == 0 && scan([0x78]).doubleDistance == 0
    ensures JsonObject([0x78], decode, scan) == Success(JNull)
  {
    var src := Source([0x78], decode, scan);
    assert ConsumeStructure(src, BeginObject, 0) == Success(None);
    assert ConsumeStructure(src, BeginArray, 0) == Success(None);
    assert ParseString(src, 0) == Success(None);
    assert ConsumeASCIISequence(src, TrueText, 0) == Success(None);
    assert ConsumeASCIISequence(src, FalseText, 0) == Success(None);
    assert ConsumeASCIISequence(src, NullText, 0) == Success(None);
    assert NumberWindow(src, 0) == [0x78];
  }

  /** A comma before the closing bracket is accepted: an element, a comma
      and `]` end the array with that element last. */
  lemma {:induction false} ArrayTrailingComma(src: Source, index: nat, output: seq<Json>, v: Json, next: nat, after: nat, final: nat)
    requires index <= |src.buffer|
    requires ConsumeStructure(src, EndArray, index) == Success(None)
    requires ParseValue(src, index) == Success(Some(Parsed(v, next)))
    requires ConsumeStructure(src, EndArray, next) == Success(None)
    requires ConsumeStructure(src, ValueSeparator, next) == Success(Some(after))
    requires ConsumeStructure(src, EndArray, after) == Success(Some(final))
    ensures ArrayLoop(src, index, output) == Success(Some(Parsed(output + [v], final)))
  {
    assert ArrayLoop(src, index, output) == ArrayLoop(src, after, output + [v]);
  }

  /** A comma before the closing brace is accepted: a member, a comma and
      `}` end the object with that member stored. */
  lemma {:induction false} ObjectTrailingComma(src: Source, index: nat, output: map<string, Json>, key: string, v: Json, next: nat, after: nat, final: nat)
    requires index <= |src.buffer|
    requires ConsumeStructure(src, EndObject, index) == Success(None)
    requires ParseObjectMember(src, index) == Success(Parsed((key, v), next))
    requires ConsumeStructure(src, EndObject, next) == Success(None)
    requires ConsumeStructure(src, ValueSeparator, next) == Success(Some(after))
    requires ConsumeStructure(src, EndObject, after) == Success(Some(final))
    ensures ObjectLoop(src, index, output) == Success(Some(Parsed(output[key := v], final)))
  {
    assert ObjectLoop(src, index, output) == ObjectLoop(src, after, output[key := v]);
  }

  /** A key read again replaces the value stored for it: the last member
      of an object decides the value of its key, whatever was read before. */
  lemma {:induction false} LastMemberWins(src: Source, index: nat, output: map<string, Json>, key: string, v: Json, next: nat, final: nat)
    requires index <= |src.buffer|
    requires ConsumeStructure(src, EndObject, index) == Success(None)
    requires ParseObjectMember(src, index) == Success(Parsed((key, v), next))
    requires ConsumeStructure(src, EndObject, next) == Success(Some(final))
    ensures var r := ObjectLoop(src, index, output);
      r.Success? && r.value.Some? && r.value.value.value[key] == v
      && r.value.value.value.Keys == output.Keys + {key}
  {
    assert ObjectLoop(src, index, output) == Success(Some(Parsed(output[key := v], final)));
  }

  /** A truncated object reads as NSNull rather than throwing: after a
      member, a byte other than `}` or `,` makes the object, the array and
      the value readers all decline when the C scanners read no number. */
  lemma {:induction false} MalformedObjectIsNull(data: seq<Byte>, decode: seq<Byte> -> Option<string>, scan: Scanner)
    requires !(|data| >= 3 && data[..3] == JsonReaderProperties.ByteOrderMark)
    requires ParseObject(Source(data, decode, scan), 0) == Success(None)
    requires 0 < |data| && data[0] == BeginObject
    requires var w := NumberWindow(Source(data, decode, scan), 0); scan(w).intDistance == 0 && scan(w).doubleDistance == 0
    ensures JsonObject(data, decode, scan) == Success(JNull)
  {
    var src := Source(data, decode, scan);
    assert WithoutByteOrderMark(data) == data;
    assert ConsumeWhitespace(src, 0) == 0;
    assert ParseArray(src, 0) == Success(None);
    assert ParseString(src, 0) == Success(None);
    assert ConsumeASCIISequence(src, TrueText, 0) == Success(None);
    assert ConsumeASCIISequence(src, FalseText, 0) == Success(None);
    assert ConsumeASCIISequence(src, NullText, 0) == Success(None);
  }
}
