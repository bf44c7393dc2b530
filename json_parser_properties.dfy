/** What the parser of Source/JsonSerializer/JsonParser.swift accepts and
    rejects, stated over the specification functions of `JsonParsing`. */
module JsonParserProperties {
  import opened Wrappers
  import opened SupportedTypes
  import opened JsonParsing

  // ------------------------------------------------------ placing text

  /** `t` occurs in `data` at position `p`. */
  predicate At(data: seq<char>, p: nat, t: seq<char>) {
    p + |t| <= |data| && forall i :: 0 <= i < |t| ==> data[p + i] == t[i]
  }

  lemma AtConcat(data: seq<char>, p: nat, a: seq<char>, b: seq<char>)
    ensures At(data, p, a + b) <==> At(data, p, a) && At(data, p + |a|, b)
  {
    if At(data, p, a + b) {
      forall i | 0 <= i < |a|
        ensures data[p + i] == a[i]
      {
        assert (a + b)[i] == a[i];
      }
      forall i | 0 <= i < |b|
        ensures data[p + |a| + i] == b[i]
      {
        assert (a + b)[|a| + i] == b[i];
      }
    }
    if At(data, p, a) && At(data, p + |a|, b) {
      forall i | 0 <= i < |a + b|
        ensures data[p + i] == (a + b)[i]
      {
        if i >= |a| {
          assert data[p + |a| + (i - |a|)] == b[i - |a|];
        }
      }
    }
  }

  lemma AtPrefix(data: seq<char>, p: nat, s: seq<char>, t: seq<char>)
    requires At(data, p, t) && s <= t
    ensures At(data, p, s)
  {
    forall i | 0 <= i < |s|
      ensures data[p + i] == s[i]
    {
      assert s[i] == t[i];
    }
  }

  // ------------------------------------------------ empty and blank input

  /** Only whitespace from `p` on: `parseValue()` runs out of input. */
  lemma {:induction false} BlankValue(data: seq<char>, p: nat)
    requires 0 < |data| && p <= |data|
    requires forall i :: p <= i < |data| ==> IsWhitespace(data[i])
    ensures ParseValue(data, p) == Fail(data, |data|, UnexpectedEOF)
    decreases |data| - p
  {
    if p < |data| {
      BlankValue(data, p + 1);
    }
  }

  /** Empty input is null; non-empty input that is all whitespace is an
      unexpected end of file, reported at the last scalar. */
  lemma BlankInput(data: seq<char>)
    requires forall i :: 0 <= i < |data| ==> IsWhitespace(data[i])
    ensures |data| == 0 ==> ParseText(data) == Success(NullValue())
    ensures |data| > 0 ==> ParseText(data) == Failure(ErrorAt(data, |data|, UnexpectedEOF))
  {
    if |data| > 0 {
      BlankValue(data, 0);
    }
  }

  /** After the top-level value only whitespace may follow; the first other
      scalar is reported as `onlyWhitespacesAtEnd`, after it has been read. */
  lemma {:induction false} TrailingBlank(data: seq<char>, p: nat)
    requires 0 < |data| && p <= |data|
    ensures Trailing(data, p).None? <==> forall i :: p <= i < |data| ==> IsWhitespace(data[i])
    ensures Trailing(data, p).Some? ==>
      exists i :: p <= i < |data| && !IsWhitespace(data[i]) &&
        (forall j :: p <= j < i ==> IsWhitespace(data[j])) &&
        Trailing(data, p) == Some(ErrorAt(data, i + 1, OnlyWhitespacesAtEnd))
    decreases |data| - p
  {
    if p < |data| {
      if IsWhitespace(data[p]) {
        TrailingBlank(data, p + 1);
        if Trailing(data, p).Some? {
          var i :| p + 1 <= i < |data| && !IsWhitespace(data[i]) &&
            (forall j :: p + 1 <= j < i ==> IsWhitespace(data[j])) &&
            Trailing(data, p + 1) == Some(ErrorAt(data, i + 1, OnlyWhitespacesAtEnd));
          assert p <= i < |data| && !IsWhitespace(data[i]);
        }
      } else {
        assert !IsWhitespace(data[p]);
      }
    }
  }

  /** A whole input parses exactly when its value parses and only whitespace
      follows it. */
  lemma ParseTextAccepts(data: seq<char>)
    requires 0 < |data|
    ensures ParseText(data).Success? <==>
      ParseValue(data, 0).Success? &&
      forall i :: ParseValue(data, 0).value.pos <= i < |data| ==> IsWhitespace(data[i])
    ensures ParseText(data).Success? ==> ParseText(data).value == ParseValue(data, 0).value.value
  {
    if ParseValue(data, 0).Success? {
      TrailingBlank(data, ParseValue(data, 0).value.pos);
    }
  }

  // ------------------------------------------------------------ strings

  /** The two-character escapes decode as in section 7 of RFC 8259: quote,
      backslash, solidus, backspace, form feed, line feed, carriage return
      and tab; every other scalar after a backslash but `u` is an unknown
      escape, reported after it has been read. */
  lemma ShortEscapes(data: seq<char>, p: nat, acc: string)
    requires 0 < |data| && p < |data| && data[p] != 'u'
    ensures ShortEscape(data[p]).Some? <==> data[p] in "\"\\/bfnrt"
    ensures ShortEscape(data[p]).Some? ==>
      ParseString(data, p, acc, true) == ParseString(data, p + 1, acc + [ShortEscape(data[p]).value], false)
    ensures ShortEscape(data[p]).None? ==>
      ParseString(data, p, acc, true) == Fail(data, p + 1, UnknownEscapedCharacter(data[p]))
    ensures data[p] == 'b' ==> ShortEscape(data[p]) == Some(8 as char)
    ensures data[p] == 'f' ==> ShortEscape(data[p]) == Some(12 as char)
    ensures data[p] == 'n' ==> ShortEscape(data[p]) == Some(10 as char)
    ensures data[p] == 'r' ==> ShortEscape(data[p]) == Some(13 as char)
    ensures data[p] == 't' ==> ShortEscape(data[p]) == Some(9 as char)
  {
  }

  /** `\u` takes exactly the next four scalars, whatever they are; a scalar
      that is not a hexadecimal digit counts as the digit 0. */
  lemma UnicodeEscapeTakesFour(data: seq<char>, p: nat, acc: string)
    requires 0 < |data| && p + 5 <= |data| && data[p] == 'u'
    ensures var n := ((HexValue(data[p + 1]) * 16 + HexValue(data[p + 2])) * 16 + HexValue(data[p + 3])) * 16 + HexValue(data[p + 4]);
      ParseString(data, p, acc, true) ==
        if IsScalarValue(n) then ParseString(data, p + 5, acc + [n as char], false)
        else Fail(data, p + 5, InvalidUnicodeCharacter(n))
  {
    assert ParseHex(data, p + 1, 0, 4) == ParseHex(data, p + 2, HexValue(data[p + 1]), 3);
  }

  /** The end of the input inside a string or inside the four scalars of a
      `\u` escape is an unexpected end of file. */
  lemma {:induction false} UnterminatedString(data: seq<char>, p: nat, acc: string, escaped: bool)
    requires 0 < |data| && p <= |data|
    requires forall i :: p <= i < |data| ==> data[i] != '"'
    ensures ParseString(data, p, acc, escaped).Failure?
    ensures ParseString(data, p, acc, escaped).error.message.UnexpectedEOF? ||
            ParseString(data, p, acc, escaped).error.message.UnknownEscapedCharacter? ||
            ParseString(data, p, acc, escaped).error.message.InvalidUnicodeCharacter?
    decreases |data| - p
  {
    if p < |data| {
      var c := data[p];
      if escaped {
        if c == 'u' {
          if ParseHex(data, p + 1, 0, 4).Success? {
            var h := ParseHex(data, p + 1, 0, 4).value;
            if IsScalarValue(h.value) {
              UnterminatedString(data, h.pos, acc + [h.value as char], false);
            }
          } else {
            HexEndOfInput(data, p + 1, 0, 4);
          }
        } else if ShortEscape(c).Some? {
          UnterminatedString(data, p + 1, acc + [ShortEscape(c).value], false);
        }
      } else if c == '\\' {
        UnterminatedString(data, p + 1, acc, true);
      } else {
        UnterminatedString(data, p + 1, acc + [c], false);
      }
    }
  }

  /** Fewer than `k` scalars left: the `\u` loop hits the end of the input. */
  lemma {:induction false} HexEndOfInput(data: seq<char>, p: nat, number: nat, k: nat)
    requires 0 < |data| && p <= |data|
    requires ParseHex(data, p, number, k).Failure?
    ensures ParseHex(data, p, number, k) == Fail(data, |data|, UnexpectedEOF)
    decreases k
  {
    if k > 0 && p < |data| {
      HexEndOfInput(data, p + 1, number * 16 + HexValue(data[p]), k - 1);
    }
  }

  // -------------------------------------------------- dictionaries, arrays

  /** The dictionary state machine: a key only at the start or after a
      comma, a colon only after a key, a comma only after a value, and the
      closing brace only at the start or after a value. Anything else is
      reported as an unexpected character after it has been read. */
  lemma DictionaryAllows(data: seq<char>, p: nat, state: DictionaryState, acc: map<string, Value>, key: string)
    requires 0 < |data| && p < |data| && !IsWhitespace(data[p])
    requires var c := data[p];
      (state == DKey && c != ':') || (state == DValue && c != ',' && c != '}') ||
      (state == DComma && c != '"') || (state == DStart && c != '"' && c != '}')
    ensures ParseDictionary(data, p, state, acc, key) == Fail(data, p + 1, UnexpectedCharacter(data[p], ['"', ':', ',', '}']))
  {
  }

  /** A comma directly before the closing brace is rejected. */
  lemma DictionaryTrailingComma(data: seq<char>, p: nat, acc: map<string, Value>, key: string)
    requires 0 < |data| && p < |data| && data[p] == '}'
    ensures ParseDictionary(data, p, DComma, acc, key) == Fail(data, p + 1, UnexpectedCharacter('}', ['"', ':', ',', '}']))
  {
  }

  /** After an array element only a comma or the closing bracket. */
  lemma ArrayAfterElement(data: seq<char>, p: nat, acc: seq<Value>)
    requires 0 < |data| && p < |data| && !IsWhitespace(data[p]) && data[p] != ',' && data[p] != ']'
    ensures ParseArray(data, p, AValue, acc) == Fail(data, p + 1, UnexpectedCharacter(data[p], [',', ']']))
  {
  }

  /** A closing bracket after a comma is read as the start of a number, and
      fails as an invalid number. */
  lemma ArrayTrailingComma(data: seq<char>, p: nat, acc: seq<Value>)
    requires 0 < |data| && p < |data| && data[p] == ']'
    ensures ParseArray(data, p, AComma, acc) == Fail(data, p, InvalidNumber)
  {
    assert NumberLoop(data, p, NumberStart) == (NumberStart, p);
  }

  // ------------------------------------------------------------ numbers

  predicate AllDigits(s: seq<char>) {
    forall i :: 0 <= i < |s| ==> IsDigit(s[i])
  }

  /** The number a run of decimal digits spells. */
  function DigitsValue(s: seq<char>): nat
    requires AllDigits(s)
  {
    if |s| == 0 then 0 else DigitsValue(s[..|s| - 1]) * 10 + DigitValue(s[|s| - 1])
  }

  /** Nothing at `q` can continue an integer. */
  predicate Stops(data: seq<char>, q: nat) {
    q >= |data| || !(IsDigit(data[q]) || data[q] == '.' || IsE(data[q]))
  }

  function IntegerAcc(negative: bool, mantissa: nat): NumberAcc {
    NumberAcc(IntPart, negative, false, mantissa, 0, 0)
  }

  lemma LoopStep(data: seq<char>, p: nat, a: NumberAcc, b: NumberAcc)
    requires p < |data| && NumberStep(a, data[p]) == Some(b)
    ensures NumberLoop(data, p, a) == NumberLoop(data, p + 1, b)
  {
  }

  lemma LoopStop(data: seq<char>, p: nat, a: NumberAcc)
    requires p <= |data| && (p == |data| || NumberStep(a, data[p]).None?)
    ensures NumberLoop(data, p, a) == (a, p)
  {
  }

  /** A digit in the integer part shifts the mantissa one decimal place. */
  lemma IntegerDigit(negative: bool, m: nat, c: char)
    requires IsDigit(c)
    ensures NumberStep(IntegerAcc(negative, m), c) == Some(IntegerAcc(negative, m * 10 + DigitValue(c)))
  {
  }

  /** With no fraction and no exponent the value is the signed mantissa. */
  lemma ComposeInteger(a: NumberAcc)
    requires a.fractionDigits == 0 && a.exponent == 0
    ensures ComposeNumber(a) == IntOrDoubleValue(if a.negative then -(a.mantissa as int) else a.mantissa as int)
  {
    assert Pow10(0) == 1;
  }

  /** The integer part accumulates its digits in decimal. */
  lemma {:induction false} DigitRun(data: seq<char>, p: nat, ds: seq<char>, negative: bool, i: nat)
    requires At(data, p, ds) && AllDigits(ds) && 1 <= i <= |ds|
    ensures NumberLoop(data, p + 1, IntegerAcc(negative, DigitsValue(ds[..1])))
         == NumberLoop(data, p + i, IntegerAcc(negative, DigitsValue(ds[..i])))
    decreases i
  {
    if i > 1 {
      DigitRun(data, p, ds, negative, i - 1);
      var m := DigitsValue(ds[..i - 1]);
      var c := ds[i - 1];
      assert ds[..i][..i - 1] == ds[..i - 1];
      assert DigitsValue(ds[..i]) == m * 10 + DigitValue(c);
      assert data[p + (i - 1)] == c;
      IntegerDigit(negative, m, c);
      LoopStep(data, p + (i - 1), IntegerAcc(negative, m), IntegerAcc(negative, m * 10 + DigitValue(c)));
    }
  }

  /** The accumulators after the digits of an integer literal, starting from
      the sign. */
  lemma DigitsAcc(data: seq<char>, s: nat, negative: bool, ds: seq<char>) returns (a: NumberAcc)
    requires AllDigits(ds) && |ds| > 0 && (ds[0] == '0' ==> |ds| == 1)
    requires At(data, s, ds) && Stops(data, s + |ds|)
    ensures a.negative == negative && !Unfinished(a.state)
    ensures a.mantissa == DigitsValue(ds) && a.fractionDigits == 0 && a.exponent == 0
    ensures NumberLoop(data, s, NumberStart.(negative := negative)) == (a, s + |ds|)
  {
    var start := NumberStart.(negative := negative);
    var d := ds[0];
    assert data[s] == d by {
      assert data[s + 0] == ds[0];
    }
    if d == '0' {
      assert DigitsValue(ds) == 0 by {
        assert ds[..0] == [];
      }
      a := start.(state := LeadingZero);
      LoopStep(data, s, start, a);
      LoopStop(data, s + 1, a);
    } else {
      assert DigitsValue(ds[..1]) == DigitValue(d) by {
        assert ds[..1][..0] == [];
      }
      LoopStep(data, s, start, IntegerAcc(negative, DigitValue(d)));
      DigitRun(data, s, ds, negative, |ds|);
      assert ds[..|ds|] == ds;
      a := IntegerAcc(negative, DigitsValue(ds));
      LoopStop(data, s + |ds|, a);
    }
  }

  /** A finished number loop is the parsed number. */
  lemma FinishedNumber(data: seq<char>, p: nat, a: NumberAcc, q: nat)
    requires 0 < |data| && p <= |data|
    requires NumberLoop(data, p, NumberStart) == (a, q) && !Unfinished(a.state)
    ensures ParseNumber(data, p) == Success(Parsed(ComposeNumber(a), q))
  {
  }

  /** An optional minus and a run of digits with no leading zero, followed by
      anything that cannot continue a number, is `intOrDouble` of its decimal
      value. */
  lemma IntegerLiteral(data: seq<char>, p: nat, negative: bool, ds: seq<char>)
    requires 0 < |data| && AllDigits(ds) && |ds| > 0 && (ds[0] == '0' ==> |ds| == 1)
    requires negative ==> p < |data| && data[p] == '-'
    requires At(data, p + (if negative then 1 else 0), ds)
    requires Stops(data, p + (if negative then 1 else 0) + |ds|)
    ensures ParseNumber(data, p) ==
      Success(Parsed(IntOrDoubleValue(if negative then -(DigitsValue(ds) as int) else DigitsValue(ds) as int),
                     p + (if negative then 1 else 0) + |ds|))
  {
    var s := p + (if negative then 1 else 0);
    var start := NumberStart.(negative := negative);
    if negative {
      LoopStep(data, p, NumberStart, start);
    } else {
      assert start == NumberStart;
    }
    var a := DigitsAcc(data, s, negative, ds);
    FinishedNumber(data, p, a, s + |ds|);
    ComposeInteger(a);
  }

  /** Anything but a minus or a digit where a value is expected is an
      invalid number, reported at that scalar. */
  lemma NotANumber(data: seq<char>, p: nat)
    requires 0 < |data| && p < |data| && data[p] != '-' && !IsDigit(data[p])
    ensures ParseNumber(data, p) == Fail(data, p, InvalidNumber)
  {
    assert NumberLoop(data, p, NumberStart) == (NumberStart, p);
  }

  // ---------------------------------------------------------- examples

  /** `next()` past the end reads the last scalar again, so `nul` at the very
      end of the input is accepted as null, while `tru` and `fals` are not. */
  lemma LiteralAtEnd()
    ensures ParseText("nul") == Success(NullValue())
    ensures ParseText("tru").Failure? && ParseText("fals").Failure?
    ensures ParseText("[nul]").Failure?
  {
    assert ParseLiteral("nul", 3, "", NullValue()) == Success(Parsed(NullValue(), 3));
    assert ParseLiteral("nul", 1, "ull", NullValue()) == ParseLiteral("nul", 3, "l", NullValue());
    assert ParseLiteral("tru", 1, "rue", BoolValue(true)) == ParseLiteral("tru", 3, "e", BoolValue(true));
    assert ParseLiteral("fals", 1, "alse", BoolValue(false)) == ParseLiteral("fals", 4, "e", BoolValue(false));
    assert ParseLiteral("[nul]", 2, "ull", NullValue()) == ParseLiteral("[nul]", 4, "l", NullValue());
  }

  /** A non-hexadecimal scalar inside `\u` counts as 0: `\u00g1` is U+0001. */
  lemma NonHexDigitCountsZero()
    ensures ParseText("\"\\u00g1\"") == Success(StringValue([1 as char]))
  {
    var data := "\"\\u00g1\"";
    assert ParseHex(data, 3, 0, 4) == Success(Parsed(1, 7));
    assert ParseString(data, 7, [1 as char], false) == Success(Parsed([1 as char], 8));
    assert "" + [1 as char] == [1 as char];
    assert ParseString(data, 2, "", true) == ParseString(data, 7, [1 as char], false);
    assert ParseString(data, 1, "", false) == ParseString(data, 2, "", true);
  }

  /** A lone surrogate is not a scalar value. */
  lemma LoneSurrogateRejected()
    ensures ParseText("\"\\ud800\"") == Failure(ErrorAt("\"\\ud800\"", 7, InvalidUnicodeCharacter(0xD800)))
  {
    var data := "\"\\ud800\"";
    assert ParseHex(data, 3, 0, 4) == Success(Parsed(0xD800, 7));
    assert ParseString(data, 1, "", false) == ParseString(data, 2, "", true);
  }

  /** Empty containers are accepted. */
  lemma EmptyContainers()
    ensures ParseText("[]") == Success(ArrayValue([]))
    ensures ParseText("{}") == Success(DictionaryValue(map[]))
  {
  }

  /** `[1,]` is rejected: the closing bracket is read as a number. */
  lemma ArrayTrailingCommaExample()
    ensures ParseText("[1,]") == Failure(ErrorAt("[1,]", 3, InvalidNumber))
  {
    assert At("[1,]", 1, "1");
    IntegerLiteral("[1,]", 1, false, "1");
    ArrayTrailingComma("[1,]", 3, [IntOrDoubleValue(1)]);
  }

  /** `{"a":1,}` is rejected at the closing brace. */
  lemma DictionaryTrailingCommaExample()
    ensures ParseText("{\"a\":1,}") == Failure(ErrorAt("{\"a\":1,}", 8, UnexpectedCharacter('}', ['"', ':', ',', '}'])))
  {
    var d := "{\"a\":1,}";
    var e := ErrorAt(d, 8, UnexpectedCharacter('}', ['"', ':', ',', '}']));
    AfterFirstColon();
    assert ParseDictionary(d, 4, DKey, map[], "a") == Failure(e);
    assert ParseString(d, 3, "a", false) == Success(Parsed("a", 4));
    assert "" + ['a'] == "a";
    assert ParseString(d, 2, "", false) == Success(Parsed("a", 4));
    assert ParseDictionary(d, 1, DStart, map[], "") == Failure(e);
  }

  /** The rest of `{"a":1,}` after its colon. */
  lemma AfterFirstColon()
    ensures ParseDictionary("{\"a\":1,}", 5, DColon, map[], "a") ==
      Failure(ErrorAt("{\"a\":1,}", 8, UnexpectedCharacter('}', ['"', ':', ',', '}'])))
  {
    var d := "{\"a\":1,}";
    var one := map["a" := IntOrDoubleValue(1)];
    DictionaryTrailingComma(d, 7, one, "a");
    assert At(d, 5, "1");
    IntegerLiteral(d, 5, false, "1");
  }

  /** A fraction and an exponent that leave an integral value give
      `intOrDouble`. */
  lemma IntegralDecimalExample()
    ensures ParseText("1.5e1") == Success(IntOrDoubleValue(15))
  {
    var d := "1.5e1";
    var a := NumberAcc(Exponent, false, false, 15, 1, 1);
    assert NumberLoop(d, 5, a) == (a, 5);
    assert NumberLoop(d, 4, a.(state := E, exponent := 0)) == (a, 5);
    assert NumberLoop(d, 3, a.(state := Fraction, exponent := 0)) == (a, 5);
    assert NumberLoop(d, 2, NumberAcc(Dot, false, false, 1, 0, 0)) == (a, 5);
    assert NumberLoop(d, 1, IntegerAcc(false, 1)) == (a, 5);
    assert NumberLoop(d, 0, NumberStart) == (a, 5);
    assert ComposeNumber(a) == IntOrDoubleValue(15);
  }

  /** A value that is not integral is a double, kept as its exact decimal. */
  lemma FractionalDecimalExample()
    ensures ParseText("-2.50") == Success(DoubleValue(Finite(-250, -2)))
  {
    var d := "-2.50";
    var b := NumberAcc(Fraction, true, false, 250, 2, 0);
    assert NumberLoop(d, 5, b) == (b, 5);
    assert NumberLoop(d, 4, b.(mantissa := 25, fractionDigits := 1)) == (b, 5);
    assert NumberLoop(d, 3, NumberAcc(Dot, true, false, 2, 0, 0)) == (b, 5);
    assert NumberLoop(d, 2, IntegerAcc(true, 2)) == (b, 5);
    assert NumberLoop(d, 1, NumberStart.(negative := true)) == (b, 5);
    assert NumberLoop(d, 0, NumberStart) == (b, 5);
    assert Pow10(2) == 100;
    assert ComposeNumber(b) == DoubleValue(Finite(-250, -2));
  }

  /** A leading zero ends the number, so `0` parses and `01` does not. */
  lemma LeadingZeroExamples()
    ensures ParseText("0") == Success(IntOrDoubleValue(0))
    ensures ParseText("01") == Failure(ErrorAt("01", 2, OnlyWhitespacesAtEnd))
  {
    assert At("0", 0, "0");
    IntegerLiteral("0", 0, false, "0");
    var z := NumberStart.(state := LeadingZero);
    assert NumberLoop("01", 1, z) == (z, 1);
    assert NumberLoop("01", 0, NumberStart) == (z, 1);
  }
}
