/** `JsonParser` itself: the scalars it reads, its cursor and the mutually
    recursive parsing methods, each proved to compute what the specification
    functions of `JsonParsing` say at the position where it starts. */
module Parser {
  import opened Wrappers
  import opened SupportedTypes
  import opened JsonParsing

  /** A method's result paired with the position it leaves the cursor at. */
  function Outcome<T>(r: Result<T, JsonError>, pos: nat): Result<Parsed<T>, JsonError> {
    match r
    case Success(v) => Success(Parsed(v, pos))
    case Failure(e) => Failure(e)
  }

  class JsonParser {
    var data: seq<char>
    var index: nat
    var hasNext: bool

    function State(): Cursor
      reads this
    {
      Cursor(index, hasNext)
    }

    /** The empty scalar view with the cursor at its start, or a valid cursor
        over a non-empty input. */
    predicate Valid()
      reads this
    {
      if |data| == 0 then index == 0 && !hasNext else CursorValid(|data|, State())
    }

    /** The cursor as a position in [0, |data|]. */
    function Pos(): nat
      reads this
    {
      Position(|data|, State())
    }

    constructor ()
      ensures Valid() && data == [] && !hasNext
    {
      data := [];
      index := 0;
      hasNext := false;
    }

    /** `parse(data:)` on the decoded scalars. An empty input leaves the
        parser as it was. */
    method Parse(input: seq<char>) returns (r: Result<Value, JsonError>)
      requires Valid()
      modifies this
      ensures Valid()
      ensures r == ParseText(input)
      ensures |input| == 0 ==> unchanged(this)
      ensures |input| > 0 ==> data == input
    {
      if |input| == 0 {
        return Success(NullValue());
      }
      data := input;
      index := 0;
      hasNext := true;
      var v := ParseValue();
      if v.Failure? {
        return Failure(v.error);
      }
      ghost var start := Pos();
      while hasNext
        invariant Valid() && data == input
        invariant start <= Pos()
        invariant Trailing(data, Pos()) == Trailing(data, start)
        decreases |data| - Pos()
      {
        var character := Next();
        if !IsWhitespace(character) {
          var e := CreateError(OnlyWhitespacesAtEnd);
          return Failure(e);
        }
      }
      return Success(v.value);
    }

    method ParseValue() returns (r: Result<Value, JsonError>)
      requires Valid() && |data| > 0
      modifies this
      ensures Valid() && data == old(data)
      ensures Outcome(r, Pos()) == JsonParsing.ParseValue(data, old(Pos()))
      decreases |data| - Pos(), 0
    {
      while hasNext
        invariant Valid() && data == old(data)
        invariant old(Pos()) <= Pos()
        invariant JsonParsing.ParseValue(data, Pos()) == JsonParsing.ParseValue(data, old(Pos()))
        decreases |data| - Pos()
      {
        var character := Next();
        if IsWhitespace(character) {
          continue;
        }
        if character == '"' {
          var s := ParseString();
          if s.Failure? {
            return Failure(s.error);
          }
          return Success(StringValue(s.value));
        } else if character == '{' {
          r := ParseDictionary();
          return;
        } else if character == '[' {
          r := ParseArray();
          return;
        } else if character == 't' {
          r := ParseTrue();
          return;
        } else if character == 'f' {
          r := ParseFalse();
          return;
        } else if character == 'n' {
          r := ParseNull();
          return;
        } else {
          RepeatCharacter();
          r := ParseNumber();
          return;
        }
      }
      var e := CreateError(UnexpectedEOF);
      return Failure(e);
    }

    method ParseString() returns (r: Result<string, JsonError>)
      requires Valid() && |data| > 0
      modifies this
      ensures Valid() && data == old(data)
      ensures Outcome(r, Pos()) == JsonParsing.ParseString(data, old(Pos()), "", false)
    {
      var result := "";
      var escaped := false;
      while hasNext
        invariant Valid() && data == old(data)
        invariant old(Pos()) <= Pos()
        invariant JsonParsing.ParseString(data, Pos(), result, escaped) == JsonParsing.ParseString(data, old(Pos()), "", false)
        decreases |data| - Pos()
      {
        var character := Next();
        if escaped {
          escaped := false;
          if character == 'u' {
            var hex := ParseHexDigits();
            if hex.Failure? {
              return Failure(hex.error);
            }
            var number := hex.value;
            if IsScalarValue(number) {
              result := result + [number as char];
            } else {
              var e := CreateError(InvalidUnicodeCharacter(number));
              return Failure(e);
            }
          } else {
            match ShortEscape(character)
            case Some(d) =>
              result := result + [d];
            case None =>
              var e := CreateError(UnknownEscapedCharacter(character));
              return Failure(e);
          }
        } else if character == '"' {
          return Success(result);
        } else if character == '\\' {
          escaped := true;
        } else {
          result := result + [character];
        }
      }
      var e := CreateError(UnexpectedEOF);
      return Failure(e);
    }

    /** The four scalars after `\u`, read as hexadecimal digits. */
    method ParseHexDigits() returns (r: Result<nat, JsonError>)
      requires Valid() && |data| > 0
      modifies this
      ensures Valid() && data == old(data)
      ensures Outcome(r, Pos()) == ParseHex(data, old(Pos()), 0, 4)
    {
      var number: nat := 0;
      var k := 0;
      while k < 4
        invariant k <= 4
        invariant Valid() && data == old(data)
        invariant Pos() == old(Pos()) + k <= |data|
        invariant ParseHex(data, Pos(), number, 4 - k) == ParseHex(data, old(Pos()), 0, 4)
      {
        if hasNext {
          ghost var p := Pos();
          ghost var before := number;
          number := number * 16;
          var value := Next();
          number := number + HexValue(value);
          assert number == before * 16 + HexValue(data[p]);
          assert ParseHex(data, p, before, 4 - k) == ParseHex(data, Pos(), number, 4 - (k + 1));
        } else {
          var e := CreateError(UnexpectedEOF);
          return Failure(e);
        }
        k := k + 1;
      }
      return Success(number);
    }

    method ParseDictionary() returns (r: Result<Value, JsonError>)
      requires Valid() && |data| > 0
      modifies this
      ensures Valid() && data == old(data)
      ensures Outcome(r, Pos()) == JsonParsing.ParseDictionary(data, old(Pos()), DStart, map[], "")
      decreases |data| - Pos(), 1
    {
      var result: map<string, Value> := map[];
      var nextKey := "";
      var state := DStart;
      while hasNext
        invariant Valid() && data == old(data)
        invariant old(Pos()) <= Pos()
        invariant JsonParsing.ParseDictionary(data, Pos(), state, result, nextKey) == JsonParsing.ParseDictionary(data, old(Pos()), DStart, map[], "")
        decreases |data| - Pos()
      {
        var character := Next();
        if IsWhitespace(character) {
          continue;
        }
        if (state == DStart || state == DComma) && character == '"' {
          var key := ParseString();
          if key.Failure? {
            return Failure(key.error);
          }
          nextKey := key.value;
          state := DKey;
        } else if state == DKey && character == ':' {
          state := DColon;
        } else if state == DValue && character == ',' {
          state := DComma;
        } else if (state == DStart || state == DValue) && character == '}' {
          return Success(DictionaryValue(result));
        } else if state != DColon {
          var e := CreateError(UnexpectedCharacter(character, ['"', ':', ',', '}']));
          return Failure(e);
        } else {
          RepeatCharacter();
          var v := ParseValue();
          if v.Failure? {
            return Failure(v.error);
          }
          result := result[nextKey := v.value];
          state := DValue;
        }
      }
      var e := CreateError(UnexpectedEOF);
      return Failure(e);
    }

    method ParseArray() returns (r: Result<Value, JsonError>)
      requires Valid() && |data| > 0
      modifies this
      ensures Valid() && data == old(data)
      ensures Outcome(r, Pos()) == JsonParsing.ParseArray(data, old(Pos()), AStart, [])
      decreases |data| - Pos(), 1
    {
      var result: seq<Value> := [];
      var state := AStart;
      while hasNext
        invariant Valid() && data == old(data)
        invariant old(Pos()) <= Pos()
        invariant JsonParsing.ParseArray(data, Pos(), state, result) == JsonParsing.ParseArray(data, old(Pos()), AStart, [])
        decreases |data| - Pos()
      {
        var character := Next();
        if IsWhitespace(character) {
          continue;
        }
        if state == AValue && character == ',' {
          state := AComma;
        } else if (state == AStart || state == AValue) && character == ']' {
          return Success(ArrayValue(result));
        } else if state == AValue {
          var e := CreateError(UnexpectedCharacter(character, [',', ']']));
          return Failure(e);
        } else {
          RepeatCharacter();
          var v := ParseValue();
          if v.Failure? {
            return Failure(v.error);
          }
          result := result + [v.value];
          state := AValue;
        }
      }
      var e := CreateError(UnexpectedEOF);
      return Failure(e);
    }

    method ParseTrue() returns (r: Result<Value, JsonError>)
      requires Valid() && |data| > 0
      modifies this
      ensures Valid() && data == old(data)
      ensures Outcome(r, Pos()) == ParseLiteral(data, old(Pos()), "rue", BoolValue(true))
    {
      ghost var p := Pos();
      var e := EnsureExpectedCharacter('r');
      if e.Some? {
        return Failure(e.value);
      }
      e := EnsureExpectedCharacter('u');
      if e.Some? {
        return Failure(e.value);
      }
      e := EnsureExpectedCharacter('e');
      if e.Some? {
        return Failure(e.value);
      }
      return Success(BoolValue(true));
    }

    method ParseFalse() returns (r: Result<Value, JsonError>)
      requires Valid() && |data| > 0
      modifies this
      ensures Valid() && data == old(data)
      ensures Outcome(r, Pos()) == ParseLiteral(data, old(Pos()), "alse", BoolValue(false))
    {
      var e := EnsureExpectedCharacter('a');
      if e.Some? {
        return Failure(e.value);
      }
      e := EnsureExpectedCharacter('l');
      if e.Some? {
        return Failure(e.value);
      }
      e := EnsureExpectedCharacter('s');
      if e.Some? {
        return Failure(e.value);
      }
      e := EnsureExpectedCharacter('e');
      if e.Some? {
        return Failure(e.value);
      }
      return Success(BoolValue(false));
    }

    method ParseNull() returns (r: Result<Value, JsonError>)
      requires Valid() && |data| > 0
      modifies this
      ensures Valid() && data == old(data)
      ensures Outcome(r, Pos()) == ParseLiteral(data, old(Pos()), "ull", NullValue())
    {
      var e := EnsureExpectedCharacter('u');
      if e.Some? {
        return Failure(e.value);
      }
      e := EnsureExpectedCharacter('l');
      if e.Some? {
        return Failure(e.value);
      }
      e := EnsureExpectedCharacter('l');
      if e.Some? {
        return Failure(e.value);
      }
      return Success(NullValue());
    }

    /** Reads one scalar without looking at `hasNext`; `None` when it is
        `expected`. */
    method EnsureExpectedCharacter(expected: char) returns (e: Option<JsonError>)
      requires Valid() && |data| > 0
      modifies this
      ensures Valid() && data == old(data)
      ensures e == Expect(data, old(Pos()), expected)
      ensures Pos() == UncheckedNext(|data|, old(Pos()))
    {
      var character := Next();
      if character != expected {
        var error := CreateError(UnexpectedCharacter(character, [expected]));
        return Some(error);
      }
      return None;
    }

    method ParseNumber() returns (r: Result<Value, JsonError>)
      requires Valid() && |data| > 0
      modifies this
      ensures Valid() && data == old(data)
      ensures Outcome(r, Pos()) == JsonParsing.ParseNumber(data, old(Pos()))
    {
      var negative := false;
      var negativeExponent := false;
      var exponent: nat := 0;
      var mantissa: nat := 0;
      var subtractFromExponent: nat := 0;
      var state := NStart;
      while hasNext
        invariant Valid() && data == old(data)
        invariant old(Pos()) <= Pos()
        invariant NumberLoop(data, Pos(), NumberAcc(state, negative, negativeExponent, mantissa, subtractFromExponent, exponent))
               == NumberLoop(data, old(Pos()), NumberStart)
        decreases |data| - Pos()
      {
        var character := Next();
        if state == NStart && character == '-' && !negative {
          negative := true;
        } else if state == NStart && character == '0' {
          state := LeadingZero;
        } else if (state == NStart || state == IntPart) && IsDigit(character) {
          state := IntPart;
          mantissa := mantissa * 10 + DigitValue(character);
        } else if (state == LeadingZero || state == IntPart) && character == '.' {
          state := Dot;
        } else if (state == Dot || state == Fraction) && IsDigit(character) {
          state := Fraction;
          mantissa := mantissa * 10 + DigitValue(character);
          subtractFromExponent := subtractFromExponent + 1;
        } else if (state == LeadingZero || state == IntPart || state == Fraction) && IsE(character) {
          state := E;
        } else if state == E && (character == '-' || character == '+') {
          if character == '-' {
            negativeExponent := true;
          }
          state := ESign;
        } else if (state == E || state == ESign || state == Exponent) && IsDigit(character) {
          state := Exponent;
          exponent := exponent * 10 + DigitValue(character);
        } else {
          RepeatCharacter();
          break;
        }
      }
      var a := NumberAcc(state, negative, negativeExponent, mantissa, subtractFromExponent, exponent);
      assert NumberLoop(data, Pos(), a) == (a, Pos());
      if Unfinished(state) {
        var e := CreateError(InvalidNumber);
        return Failure(e);
      }
      return Success(ComposeNumber(a));
    }

    /** `next()`: the scalar at `index`, and the cursor one on, or `hasNext`
        off at the last scalar. */
    method Next() returns (character: char)
      requires Valid() && |data| > 0
      modifies this
      ensures Valid() && data == old(data)
      ensures character == data[old(index)]
      ensures State() == Advance(|data|, old(State()))
      ensures character == data[IndexOf(|data|, old(Pos()))]
      ensures Pos() == UncheckedNext(|data|, old(Pos()))
    {
      character := data[index];
      if index + 1 == |data| {
        hasNext := false;
      } else {
        index := index + 1;
      }
    }

    /** `repeatCharacter()`: the cursor one back, or `hasNext` on again. The
        source traps when stepping back from the first scalar, which no caller
        does right after a `next()`. */
    method RepeatCharacter()
      requires Valid() && |data| > 0 && Pos() > 0
      modifies this
      ensures Valid() && data == old(data)
      ensures State() == StepBack(old(State()))
      ensures Pos() == old(Pos()) - 1
    {
      if hasNext {
        index := index - 1;
      } else {
        hasNext := true;
      }
    }

    /** `createError(message:)`: the line is counted by walking the scalars
        before `index`, the column by subtracting one for each of them. */
    method CreateError(message: Message) returns (e: JsonError)
      requires Valid() && |data| > 0
      ensures e == ErrorAt(data, Pos(), message)
    {
      var character := data[index];
      var line := 1;
      var column: int := index;
      var k := 0;
      while k < index
        invariant k <= index
        invariant line == 1 + Newlines(data[..k])
        invariant column == index - k
      {
        assert data[..k + 1][..k] == data[..k];
        if data[k] == '\n' {
          line := line + 1;
        }
        column := column - 1;
        k := k + 1;
      }
      assert data[..k] == data[..index];
      return JsonError.Parse(index, line, column, character, message);
    }
  }
}
