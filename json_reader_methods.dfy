/** The loops of `JSONReader` (Source/JsonSerializer/JsonSerialization.swift)
    as methods over its source: `consumeWhitespace`, `consumeASCIISequence`,
    `parseString`, `parseObject` and `parseArray`, and the methods that call
    them. Each is proved to compute what the function of the same name in
    JsonReading says. */
module JsonReader {
  import opened Wrappers
  import opened JsonReading

  /** `consumeWhitespace(_:)`: steps over whitespace bytes one at a time. */
  method SkipWhitespace(src: Source, i: nat) returns (index: nat)
    requires i <= |src.buffer|
    ensures index == ConsumeWhitespace(src, i)
  {
    index := i;
    while index < |src.buffer| && src.buffer[index] < 0x80 && IsWhitespace(src.buffer[index])
      invariant i <= index <= |src.buffer|
      invariant ConsumeWhitespace(src, index) == ConsumeWhitespace(src, i)
      decreases |src.buffer| - index
    {
      index := index + 1;
    }
  }

  /** `consumeStructure(_:input:)` */
  method SkipStructure(src: Source, ascii: Byte, i: nat) returns (r: Result<Option<nat>, ReadError>)
    requires i <= |src.buffer|
    ensures r == ConsumeStructure(src, ascii, i)
  {
    var begin := SkipWhitespace(src, i);
    var taken := ConsumeASCII(src, ascii, begin);
    if taken.Failure? {
      return Failure(taken.error);
    }
    if taken.value.None? {
      return Success(None);
    }
    var after := SkipWhitespace(src, taken.value.value);
    return Success(Some(after));
  }

  /** `consumeASCIISequence(_:input:)`: a `for` loop over the bytes of `s`
      that stops at the first one not found. */
  method SkipASCIISequence(src: Source, s: seq<Byte>, i: nat) returns (r: Result<Option<nat>, ReadError>)
    requires i <= |src.buffer|
    ensures r == ConsumeASCIISequence(src, s, i)
  {
    var index: nat := i;
    for k := 0 to |s|
      invariant index <= |src.buffer|
      invariant ConsumeASCIISequence(src, s[k..], index) == ConsumeASCIISequence(src, s, i)
    {
      assert s[k..][1..] == s[k + 1..];
      var next := ConsumeASCII(src, s[k], index);
      if next.Failure? {
        return Failure(next.error);
      }
      if next.value.None? {
        return Success(None);
      }
      index := next.value.value;
    }
    return Success(Some(index));
  }

  /** `parseString(_:)`: `current` walks over the bytes, `chunk` marks the
      first byte not yet decoded into `output`. */
  method ReadString(src: Source, i: nat) returns (r: Outcome<string>)
    requires i <= |src.buffer|
    ensures r == ParseString(src, i)
  {
    var start := SkipWhitespace(src, i);
    var quote := ConsumeASCII(src, QuotationMark, start);
    if quote.Failure? {
      return Failure(quote.error);
    }
    if quote.value.None? {
      return Success(None);
    }
    var begin := quote.value.value;
    var chunk: nat, current: nat, output := begin, begin, "";
    while current < |src.buffer|
      invariant chunk <= current <= |src.buffer|
      invariant StringLoop(src, chunk, current, output) == ParseString(src, i)
      decreases |src.buffer| - current
    {
      var ascii := TakeASCII(src, current);
      if ascii.None? {
        current := current + 1;
      } else if ascii.value == QuotationMark {
        var text := src.decode(StringChunk(src, chunk, current));
        if text.None? {
          return Failure(CorruptString);
        }
        return Success(Some(Parsed(output + text.value, current + 1)));
      } else if ascii.value == Escape {
        var text := src.decode(StringChunk(src, chunk, current));
        if text.None? {
          return Failure(CorruptString);
        }
        var escaped := ParseEscapeSequence(src, current + 1);
        if escaped.Failure? {
          return Failure(escaped.error);
        }
        if escaped.value.None? {
          return Failure(InvalidEscape(current + 1));
        }
        output := output + text.value + escaped.value.value.value;
        chunk, current := escaped.value.value.next, escaped.value.value.next;
      } else {
        current := current + 1;
      }
    }
    return Failure(UnexpectedEndOfString);
  }

  /** `parseValue(_:)` */
  method ReadValue(src: Source, i: nat) returns (r: Outcome<Json>)
    requires i <= |src.buffer|
    ensures r == ParseValue(src, i)
    decreases |src.buffer| - i, 2
  {
    var str := ReadString(src, i);
    if str.Failure? {
      return Failure(str.error);
    }
    if str.value.Some? {
      return Success(Some(Parsed(JString(str.value.value.value), str.value.value.next)));
    }
    var t := SkipASCIISequence(src, TrueText, i);
    if t.Failure? {
      return Failure(t.error);
    }
    if t.value.Some? {
      return Success(Some(Parsed(JBool(true), t.value.value)));
    }
    var f := SkipASCIISequence(src, FalseText, i);
    if f.Failure? {
      return Failure(f.error);
    }
    if f.value.Some? {
      return Success(Some(Parsed(JBool(false), f.value.value)));
    }
    var n := SkipASCIISequence(src, NullText, i);
    if n.Failure? {
      return Failure(n.error);
    }
    if n.value.Some? {
      return Success(Some(Parsed(JNull, n.value.value)));
    }
    var o := ReadObject(src, i);
    if o.Failure? {
      return Failure(o.error);
    }
    if o.value.Some? {
      return Success(Some(Parsed(JObject(o.value.value.value), o.value.value.next)));
    }
    var a := ReadArray(src, i);
    if a.Failure? {
      return Failure(a.error);
    }
    if a.value.Some? {
      return Success(Some(Parsed(JArray(a.value.value.value), a.value.value.next)));
    }
    return Success(ParseNumber(src, i));
  }

  /** `parseObject(_:)`: reads members until a closing brace. */
  method ReadObject(src: Source, i: nat) returns (r: Outcome<map<string, Json>>)
    requires i <= |src.buffer|
    ensures r == ParseObject(src, i)
    decreases |src.buffer| - i, 1
  {
    var open := SkipStructure(src, BeginObject, i);
    if open.Failure? {
      return Failure(open.error);
    }
    if open.value.None? {
      return Success(None);
    }
    var index := open.value.value;
    var output: map<string, Json> := map[];
    while true
      invariant i < index <= |src.buffer|
      invariant ObjectLoop(src, index, output) == ParseObject(src, i)
      decreases |src.buffer| - index
    {
      var close := SkipStructure(src, EndObject, index);
      if close.Failure? {
        return Failure(close.error);
      }
      if close.value.Some? {
        return Success(Some(Parsed(output, close.value.value)));
      }
      var member := ReadObjectMember(src, index);
      if member.Failure? {
        return Failure(member.error);
      }
      var Parsed((key, value), next) := member.value;
      output := output[key := value];
      var final := SkipStructure(src, EndObject, next);
      if final.Failure? {
        return Failure(final.error);
      }
      if final.value.Some? {
        return Success(Some(Parsed(output, final.value.value)));
      }
      var comma := SkipStructure(src, ValueSeparator, next);
      if comma.Failure? {
        return Failure(comma.error);
      }
      if comma.value.None? {
        return Success(None);
      }
      index := comma.value.value;
    }
  }

  /** `parseObjectMember(_:)` */
  method ReadObjectMember(src: Source, i: nat) returns (r: Result<Parsed<(string, Json)>, ReadError>)
    requires i <= |src.buffer|
    ensures r == ParseObjectMember(src, i)
    decreases |src.buffer| - i, 3
  {
    var name := ReadString(src, i);
    if name.Failure? {
      return Failure(name.error);
    }
    if name.value.None? {
      return Failure(MissingKey(i));
    }
    var Parsed(key, index) := name.value.value;
    var colon := SkipStructure(src, NameSeparator, index);
    if colon.Failure? {
      return Failure(colon.error);
    }
    if colon.value.None? {
      return Failure(InvalidSeparator(index));
    }
    var separatorIndex := colon.value.value;
    var value := ReadValue(src, separatorIndex);
    if value.Failure? {
      return Failure(value.error);
    }
    if value.value.None? {
      return Failure(InvalidValue(separatorIndex));
    }
    return Success(Parsed((key, value.value.value.value), value.value.value.next));
  }

  /** `parseArray(_:)`: reads elements until a closing bracket. */
  method ReadArray(src: Source, i: nat) returns (r: Outcome<seq<Json>>)
    requires i <= |src.buffer|
    ensures r == ParseArray(src, i)
    decreases |src.buffer| - i, 1
  {
    var open := SkipStructure(src, BeginArray, i);
    if open.Failure? {
      return Failure(open.error);
    }
    if open.value.None? {
      return Success(None);
    }
    var index := open.value.value;
    var output: seq<Json> := [];
    while true
      invariant i < index <= |src.buffer|
      invariant ArrayLoop(src, index, output) == ParseArray(src, i)
      decreases |src.buffer| - index
    {
      var close := SkipStructure(src, EndArray, index);
      if close.Failure? {
        return Failure(close.error);
      }
      if close.value.Some? {
        return Success(Some(Parsed(output, close.value.value)));
      }
      var element := ReadValue(src, index);
      if element.Failure? {
        return Failure(element.error);
      }
      if element.value.None? {
        return Failure(BadlyFormedArray(index));
      }
      var Parsed(value, next) := element.value.value;
      output := output + [value];
      var final := SkipStructure(src, EndArray, next);
      if final.Failure? {
        return Failure(final.error);
      }
      if final.value.Some? {
        return Success(Some(Parsed(output, final.value.value)));
      }
      var comma := SkipStructure(src, ValueSeparator, next);
      if comma.Failure? {
        return Failure(comma.error);
      }
      if comma.value.None? {
        return Failure(BadlyFormedArray(index));
      }
      index := comma.value.value;
    }
  }

  /** `jsonObject(with:)` */
  method ReadJson(data: seq<Byte>, decode: seq<Byte> -> Option<string>, scan: Scanner) returns (r: Result<Json, ReadError>)
    ensures r == JsonObject(data, decode, scan)
  {
    var src := Source(WithoutByteOrderMark(data), decode, scan);
    var o := ReadObject(src, 0);
    if o.Failure? {
      return Failure(o.error);
    }
    if o.value.Some? {
      return Success(JObject(o.value.value.value));
    }
    var a := ReadArray(src, 0);
    if a.Failure? {
      return Failure(a.error);
    }
    if a.value.Some? {
      return Success(JArray(a.value.value.value));
    }
    var v := ReadValue(src, 0);
    if v.Failure? {
      return Failure(v.error);
    }
    if v.value.Some? {
      return Success(v.value.value.value);
    }
    return Success(JNull);
  }
}
