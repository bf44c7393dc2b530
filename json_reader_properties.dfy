/** What the byte-level reader of Source/JsonSerializer/JsonSerialization.swift
    promises: how literals, whitespace, hexadecimal code units, surrogate
    pairs, escapes, strings, objects and arrays are read, and which inputs
    make it throw or decline. */
module JsonReaderProperties {
  import opened Wrappers
  import opened SupportedTypes
  import opened JsonReading
  import JsonEscaping

  // ------------------------------------------------------------- literals

  /** How many leading bytes of `s` stand at `i`. */
  function CommonPrefix(src: Source, s: seq<Byte>, i: nat): (m: nat)
    requires i <= |src.buffer|
    ensures m <= |s| && i + m <= |src.buffer|
    ensures forall k :: 0 <= k < m ==> src.buffer[i + k] == s[k]
    ensures m < |s| ==> i + m == |src.buffer| || src.buffer[i + m] != s[m]
    decreases |s|
  {
    if |s| == 0 || i == |src.buffer| || src.buffer[i] != s[0] then 0
    else 1 + CommonPrefix(src, s[1..], i + 1)
  }

  /** A sequence of ASCII bytes is consumed whole when it stands at `i`,
      declined at the first byte that differs from it, and throws when the
      input ends, or holds a non-ASCII byte, before it does. */
  lemma {:induction false} SequenceConsumed(src: Source, s: seq<Byte>, i: nat)
    requires i <= |src.buffer|
    requires forall k :: 0 <= k < |s| ==> s[k] < 0x80
    ensures var m := CommonPrefix(src, s, i);
      ConsumeASCIISequence(src, s, i) ==
        if m == |s| then Success(Some(i + |s|))
        else if i + m == |src.buffer| || src.buffer[i + m] >= 0x80 then Failure(UnexpectedEndOfFile)
        else Success(None)
    decreases |s|
  {
    if |s| > 0 && i < |src.buffer| && src.buffer[i] == s[0] {
      SequenceConsumed(src, s[1..], i + 1);
    }
  }

  /** A sequence of ASCII bytes (`true`, `false`, `null`, `\u`) is read
      exactly when its bytes stand at `i`. */
  lemma {:induction false} LiteralRead(src: Source, s: seq<Byte>, i: nat)
    requires i <= |src.buffer|
    requires forall k :: 0 <= k < |s| ==> s[k] < 0x80
    ensures ConsumeASCIISequence(src, s, i).Success? && ConsumeASCIISequence(src, s, i).value.Some?
      <==> i + |s| <= |src.buffer| && src.buffer[i..i + |s|] == s
  {
    SequenceConsumed(src, s, i);
    var m := CommonPrefix(src, s, i);
    if i + |s| <= |src.buffer| {
      var slice := src.buffer[i..i + |s|];
      if m < |s| {
        assert slice[m] == src.buffer[i + m];
      } else {
        assert forall k :: 0 <= k < |s| ==> slice[k] == s[k];
      }
    }
  }

  // ----------------------------------------------------------- whitespace

  /** Skipping whitespace twice skips no more than once. */
  lemma {:induction false} WhitespaceIdempotent(src: Source, i: nat)
    requires i <= |src.buffer|
    ensures ConsumeWhitespace(src, ConsumeWhitespace(src, i)) == ConsumeWhitespace(src, i)
  {
    var j := ConsumeWhitespace(src, i);
    if j < |src.buffer| {
      assert !IsWhitespace(src.buffer[j]);
    }
  }

  // ---------------------------------------------------------- code units

  /** `parseCodeUnit` reads exactly four hexadecimal digits and the number
      they spell, most significant first. */
  lemma {:induction false} CodeUnitRead(src: Source, i: nat)
    ensures ParseCodeUnit(src, i).Some? <==>
      i + 4 <= |src.buffer| && forall k :: i <= k < i + 4 ==> IsHexChr(src.buffer[k])
    ensures ParseCodeUnit(src, i).Some? ==>
      ParseCodeUnit(src, i).value.value == 4096 * HexValue(src.buffer[i]) + 256 * HexValue(src.buffer[i + 1])
        + 16 * HexValue(src.buffer[i + 2]) + HexValue(src.buffer[i + 3])
  {
    if ParseCodeUnit(src, i).Some? {
      var b := src.buffer;
      var d4, d3, d2, d1 := b[i..i + 4], b[i..i + 3], b[i..i + 2], b[i..i + 1];
      assert d4[..3] == d3 && d3[..2] == d2 && d2[..1] == d1 && d1[..0] == [];
      assert HexNumber(d1) == HexValue(b[i]);
      assert HexNumber(d2) == 16 * HexNumber(d1) + HexValue(b[i + 1]);
      assert HexNumber(d3) == 16 * HexNumber(d2) + HexValue(b[i + 2]);
      assert HexNumber(d4) == 16 * HexNumber(d3) + HexValue(b[i + 3]);
    }
  }

  // ------------------------------------------------------------ surrogates

  /** The surrogate pair of a combined scalar is recovered from it: the
      high ten bits give the lead and the low ten bits the trail. */
  lemma {:induction false} CombinedSplits(hi: nat, lo: nat)
    requires IsLeadSurrogate(hi) && IsTrailSurrogate(lo)
    ensures (Combined(hi, lo) - 0x10000) / 1024 + 0xD800 == hi
    ensures (Combined(hi, lo) - 0x10000) % 1024 + 0xDC00 == lo
  {
    var c := Combined(hi, lo) - 0x10000;
    assert c == (hi - 0xD800) * 1024 + (lo - 0xDC00);
    assert 0 <= lo - 0xDC00 < 1024;
  }

  /** Two surrogate pairs give the same scalar only if they are the same. */
  lemma {:induction false} CombinedInjective(hi: nat, lo: nat, hi': nat, lo': nat)
    requires IsLeadSurrogate(hi) && IsTrailSurrogate(lo)
    requires IsLeadSurrogate(hi') && IsTrailSurrogate(lo')
    requires Combined(hi, lo) == Combined(hi', lo')
    ensures hi == hi' && lo == lo'
  {
    CombinedSplits(hi, lo);
    CombinedSplits(hi', lo');
  }

  /** After a lead surrogate at `i`, the escape is read exactly when `\u`
      and four digits spelling a trail surrogate follow, and then stands for
      the combined scalar; anything else throws. */
  lemma {:induction false} LeadSurrogateNeedsTrail(src: Source, i: nat)
    requires i <= |src.buffer|
    requires ParseCodeUnit(src, i).Some? && IsLeadSurrogate(ParseCodeUnit(src, i).value.value)
    ensures var r := ParseUnicodeSequence(src, i);
      var trail := ParseCodeUnit(src, i + 6);
      (r.Success? <==>
        i + 6 <= |src.buffer| && src.buffer[i + 4] == 0x5C && src.buffer[i + 5] == 0x75
        && trail.Some? && IsTrailSurrogate(trail.value.value))
      && (r.Success? ==>
        r == Success(Some(Parsed([Combined(ParseCodeUnit(src, i).value.value, trail.value.value) as char], i + 10))))
  {
    var j := i + 4;
    UnicodeEscapeAt(src, j);
  }

  /** `\u` is read at `j` exactly when its two bytes stand there. */
  lemma {:induction false} UnicodeEscapeAt(src: Source, j: nat)
    requires j <= |src.buffer|
    ensures var u := ConsumeASCIISequence(src, UnicodeEscapeText, j);
      (u.Success? && u.value.Some? <==> j + 2 <= |src.buffer| && src.buffer[j] == 0x5C && src.buffer[j + 1] == 0x75)
      && (u.Success? && u.value.Some? ==> u.value.value == j + 2)
  {
    LiteralRead(src, UnicodeEscapeText, j);
    if j + 2 <= |src.buffer| {
      var slice := src.buffer[j..j + 2];
      assert slice[0] == src.buffer[j] && slice[1] == src.buffer[j + 1];
      assert slice == UnicodeEscapeText <==> src.buffer[j] == 0x5C && src.buffer[j + 1] == 0x75;
    }
  }

  // --------------------------------------------------------------- escapes

  /** The eight two-character escapes: `\"`, `\\`, `\/`, `\b`, `\f`, `\n`,
      `\r`, `\t`; any other escape byte but `u` has none. */
  lemma {:induction false} ShortEscapes(src: Source, i: nat)
    requires i < |src.buffer| && src.buffer[i] < 0x80
    ensures var b := src.buffer[i];
      var c: char := if b == 0x62 then 8 as char else if b == 0x66 then 12 as char
        else if b == 0x6E then 10 as char else if b == 0x72 then 13 as char
        else if b == 0x74 then 9 as char else b as char;
      ParseEscapeSequence(src, i) ==
        if b in {0x22, 0x5C, 0x2F, 0x62, 0x66, 0x6E, 0x72, 0x74} then Success(Some(Parsed([c], i + 1)))
        else if b == 0x75 then ParseUnicodeSequence(src, i + 1)
        else Success(None)
  {
  }

  /** The bytes of an ASCII text. */
  function Bytes(t: string): (bs: seq<Byte>)
    requires forall k :: 0 <= k < |t| ==> t[k] as int < 0x80
    ensures |bs| == |t| && forall k :: 0 <= k < |t| ==> bs[k] == t[k] as int
  {
    if |t| == 0 then [] else [t[0] as int as Byte] + Bytes(t[1..])
  }

  /** Every escape the writer emits (JsonWriter.swift's table) is read back
      by `parseEscapeSequence` as the scalar it was written for. */
  lemma {:induction false} WrittenEscapeRead(src: Source, c: char, i: nat)
    requires JsonEscaping.EscapeRule(c) != [c]
    requires var e := JsonEscaping.EscapeRule(c);
      (forall k :: 0 <= k < |e| ==> e[k] as int < 0x80) &&
      0 < i && i - 1 + |e| <= |src.buffer| && src.buffer[i - 1..i - 1 + |e|] == Bytes(e)
    ensures ParseEscapeSequence(src, i) == Success(Some(Parsed([c], i - 1 + |JsonEscaping.EscapeRule(c)|)))
  {
    var e := JsonEscaping.EscapeRule(c);
    var start := i - 1;
    BytesAt(src, e, start);
    if |e| == 6 {
      ControlEscapeRead(src, c, i);
    } else {
      ShortEscapeRead(src, c, i);
    }
  }

  /** A two-character escape of the writer reads back as its scalar. */
  lemma {:induction false} ShortEscapeRead(src: Source, c: char, i: nat)
    requires var e := JsonEscaping.EscapeRule(c);
      e != [c] && |e| != 6 && i < |src.buffer| && src.buffer[i] == e[1] as int
    ensures ParseEscapeSequence(src, i) == Success(Some(Parsed([c], i + 1)))
  {
    var b := src.buffer[i];
    assert b < 0x80 && TakeASCII(src, i) == Some(b);
    assert ShortEscape(b) == Some(c);
  }

  /** The bytes of `t` stand at `start`, one by one. */
  lemma {:induction false} BytesAt(src: Source, t: string, start: nat)
    requires forall k :: 0 <= k < |t| ==> t[k] as int < 0x80
    requires start + |t| <= |src.buffer| && src.buffer[start..start + |t|] == Bytes(t)
    ensures forall k :: 0 <= k < |t| ==> src.buffer[start + k] == t[k] as int
  {
    forall k | 0 <= k < |t| ensures src.buffer[start + k] == t[k] as int {
      assert src.buffer[start..start + |t|][k] == src.buffer[start + k];
    }
  }

  /** A `\u00xx` escape of the writer reads back as its scalar. */
  lemma {:induction false} ControlEscapeRead(src: Source, c: char, i: nat)
    requires var v := c as int; v < 0x20 || 0x7F <= v <= 0xA0
    requires var e := JsonEscaping.EscapeRule(c);
      |e| == 6 && 0 < i && i + 5 <= |src.buffer| &&
      forall k :: 0 <= k < |e| ==> src.buffer[i - 1 + k] == e[k] as int
    ensures ParseEscapeSequence(src, i) == Success(Some(Parsed([c], i + 5)))
  {
    var v := c as int;
    var j := i + 1;
    ControlEscapeBytes(src, c, i);
    CodeUnitRead(src, j);
    HexDigitRead(v / 16);
    HexDigitRead(v % 16);
    UnitEscapeRead(src, i, v);
  }

  /** The bytes of the writer's `\u00xx` escape of `c`, one by one. */
  lemma {:induction false} ControlEscapeBytes(src: Source, c: char, i: nat)
    requires var v := c as int; v < 0x20 || 0x7F <= v <= 0xA0
    requires var e := JsonEscaping.EscapeRule(c);
      |e| == 6 && 0 < i && i + 5 <= |src.buffer| &&
      forall k :: 0 <= k < |e| ==> src.buffer[i - 1 + k] == e[k] as int
    ensures src.buffer[i] == 0x75 && src.buffer[i + 1] == 0x30 && src.buffer[i + 2] == 0x30
    ensures src.buffer[i + 3] == JsonEscaping.HexDigit(c as int / 16) as int
    ensures src.buffer[i + 4] == JsonEscaping.HexDigit(c as int % 16) as int
  {
    var e := JsonEscaping.EscapeRule(c);
    assert e == ['\\', 'u', '0', '0', JsonEscaping.HexDigit(c as int / 16), JsonEscaping.HexDigit(c as int % 16)];
    assert src.buffer[i - 1 + 1] == e[1] as int;
    assert src.buffer[i - 1 + 2] == e[2] as int;
    assert src.buffer[i - 1 + 3] == e[3] as int;
    assert src.buffer[i - 1 + 4] == e[4] as int;
    assert src.buffer[i - 1 + 5] == e[5] as int;
  }

  /** The reader's value of a digit the writer wrote is that digit. */
  lemma {:induction false} HexDigitRead(d: nat)
    requires d < 16
    ensures JsonEscaping.HexDigit(d) as int < 0x80
    ensures IsHexChr(JsonEscaping.HexDigit(d) as int) && HexValue(JsonEscaping.HexDigit(d) as int) == d
  {
  }

  /** `\u` and four digits spelling a scalar below the surrogates read as
      that scalar. */
  lemma {:induction false} UnitEscapeRead(src: Source, i: nat, v: nat)
    requires i + 5 <= |src.buffer| && src.buffer[i] == 0x75 && v < 0xD800
    requires ParseCodeUnit(src, i + 1) == Some(Parsed(v, i + 5))
    ensures ParseEscapeSequence(src, i) == Success(Some(Parsed([v as char], i + 5)))
  {
    assert TakeASCII(src, i) == Some(0x75);
    assert ShortEscape(0x75).None?;
    assert !IsTrailSurrogate(v) && !IsLeadSurrogate(v);
  }

  // --------------------------------------------------------------- strings

  /** Neither a quotation mark nor a backslash. */
  predicate Plain(b: Byte) {
    b != QuotationMark && b != Escape
  }

  /** The string loop passes over plain bytes without reading them. */
  lemma {:induction false} PlainBytesSkipped(src: Source, chunk: nat, current: nat, end: nat, output: string)
    requires chunk <= current <= end <= |src.buffer|
    requires forall k :: current <= k < end ==> Plain(src.buffer[k])
    ensures StringLoop(src, chunk, current, output) == StringLoop(src, chunk, end, output)
    decreases end - current
  {
    if current < end {
      PlainBytesSkipped(src, chunk, current + 1, end, output);
    }
  }

  /** A quotation mark, plain bytes and a quotation mark read as the plain
      bytes decoded, unless they do not decode; plain bytes up to the end of
      the input throw. */
  lemma {:induction false} PlainStringRead(src: Source, i: nat, end: nat)
    requires i < end <= |src.buffer| && src.buffer[i] == QuotationMark
    requires forall k :: i < k < end ==> Plain(src.buffer[k])
    ensures end < |src.buffer| && src.buffer[end] == QuotationMark ==>
      ParseString(src, i) ==
        match src.decode(src.buffer[i + 1..end])
        case None => Failure(CorruptString)
        case Some(text) => Success(Some(Parsed(text, end + 1)))
    ensures end == |src.buffer| ==> ParseString(src, i) == Failure(UnexpectedEndOfString)
  {
    assert ConsumeWhitespace(src, i) == i;
    var begin := i + 1;
    assert ParseString(src, i) == StringLoop(src, begin, begin, "");
    PlainBytesSkipped(src, begin, begin, end, "");
    if end < |src.buffer| && src.buffer[end] == QuotationMark {
      assert StringChunk(src, begin, end) == src.buffer[i + 1..end];
      match src.decode(src.buffer[i + 1..end])
      case None =>
      case Some(text) => assert "" + text == text;
    }
  }

  /** A backslash followed by an ASCII byte that begins no escape throws,
      naming the position of that byte. */
  lemma {:induction false} InvalidEscapeThrows(src: Source, chunk: nat, current: nat, output: string)
    requires chunk <= current && current + 1 < |src.buffer|
    requires src.buffer[current] == Escape
    requires var b := src.buffer[current + 1];
      b < 0x80 && b !in {0x22, 0x5C, 0x2F, 0x62, 0x66, 0x6E, 0x72, 0x74, 0x75}
    requires src.decode(src.buffer[chunk..current]).Some?
    ensures StringLoop(src, chunk, current, output) == Failure(InvalidEscape(current + 1))
  {
    ShortEscapes(src, current + 1);
  }

  // --------------------------------------------------------------- numbers

  /** A number is read from at most 63 bytes: as an integer when `strtol`
      consumed as many bytes as `strtod`, as a double when `strtod` consumed
      more or `strtol` nothing. */
  lemma {:induction false} NumberRead(src: Source, i: nat)
    requires i <= |src.buffer|
    ensures var s := src.scan(NumberWindow(src, i));
      var r := ParseNumber(src, i);
      (r.Some? ==> r.value.next <= i + 63)
      && (r.Some? && r.value.value.JInt? <==> s.intDistance == s.doubleDistance > 0)
      && (r.Some? && r.value.value.JDouble? <==> s.doubleDistance > 0 && s.intDistance != s.doubleDistance)
  {
    var w := NumberWindow(src, i);
    assert src.scan(w).intDistance <= |w| && src.scan(w).doubleDistance <= |w|;
  }

  // --------------------------------------------------------------- objects

  /** The object loop keeps every key it has read. */
  lemma {:induction false} ObjectKeepsKeys(src: Source, index: nat, output: map<string, Json>)
    requires index <= |src.buffer|
    requires ObjectLoop(src, index, output).Success? && ObjectLoop(src, index, output).value.Some?
    ensures output.Keys <= ObjectLoop(src, index, output).value.value.value.Keys
    decreases |src.buffer| - index
  {
    if ConsumeStructure(src, EndObject, index).value.None? {
      var Parsed((key, value), next) := ParseObjectMember(src, index).value;
      var collected := output[key := value];
      if ConsumeStructure(src, EndObject, next).value.None? {
        var after := ConsumeStructure(src, ValueSeparator, next).value.value;
        ObjectKeepsKeys(src, after, collected);
      }
    }
  }

  /** After a member, a byte other than `}` or `,` makes the object loop
      decline rather than throw. */
  lemma {:induction false} MemberThenOtherDeclines(src: Source, index: nat, output: map<string, Json>)
    requires index <= |src.buffer|
    requires ConsumeStructure(src, EndObject, index) == Success(None)
    requires ParseObjectMember(src, index).Success?
    requires var j := ConsumeWhitespace(src, ParseObjectMember(src, index).value.next);
      j < |src.buffer| && src.buffer[j] < 0x80 && src.buffer[j] != EndObject && src.buffer[j] != ValueSeparator
    ensures ObjectLoop(src, index, output) == Success(None)
  {
  }

  /** A member without a key, a colon or a value throws, naming where the
      missing piece was expected. */
  lemma {:induction false} MemberPiecesRequired(src: Source, i: nat)
    requires i <= |src.buffer|
    ensures ParseString(src, i) == Success(None) ==> ParseObjectMember(src, i) == Failure(MissingKey(i))
    ensures ParseString(src, i).Success? && ParseString(src, i).value.Some? ==>
      var j := ParseString(src, i).value.value.next;
      (ConsumeStructure(src, NameSeparator, j) == Success(None) ==>
        ParseObjectMember(src, i) == Failure(InvalidSeparator(j)))
      && (ConsumeStructure(src, NameSeparator, j).Success? && ConsumeStructure(src, NameSeparator, j).value.Some? ==>
        var s := ConsumeStructure(src, NameSeparator, j).value.value;
        ParseValue(src, s) == Success(None) ==> ParseObjectMember(src, i) == Failure(InvalidValue(s)))
  {
  }

  // ---------------------------------------------------------------- arrays

  /** The array loop keeps the elements it has read, in order, as a prefix. */
  lemma {:induction false} ArrayKeepsElements(src: Source, index: nat, output: seq<Json>)
    requires index <= |src.buffer|
    requires ArrayLoop(src, index, output).Success? && ArrayLoop(src, index, output).value.Some?
    ensures output <= ArrayLoop(src, index, output).value.value.value
    decreases |src.buffer| - index
  {
    if ConsumeStructure(src, EndArray, index).value.None? {
      var Parsed(value, next) := ParseValue(src, index).value.value;
      var collected := output + [value];
      if ConsumeStructure(src, EndArray, next).value.None? {
        var after := ConsumeStructure(src, ValueSeparator, next).value.value;
        ArrayKeepsElements(src, after, collected);
        assert output <= collected;
      }
    }
  }

  /** In an array, an element that is not a value, or a byte other than `]`
      or `,` after an element, throws "Badly formed array" at the element. */
  lemma {:induction false} BadlyFormedArrayThrows(src: Source, index: nat, output: seq<Json>)
    requires index <= |src.buffer|
    requires ConsumeStructure(src, EndArray, index) == Success(None)
    ensures ParseValue(src, index) == Success(None) ==> ArrayLoop(src, index, output) == Failure(BadlyFormedArray(index))
    ensures ParseValue(src, index).Success? && ParseValue(src, index).value.Some? ==>
      var j := ConsumeWhitespace(src, ParseValue(src, index).value.value.next);
      j < |src.buffer| && src.buffer[j] < 0x80 && src.buffer[j] != EndArray && src.buffer[j] != ValueSeparator ==>
      ArrayLoop(src, index, output) == Failure(BadlyFormedArray(index))
  {
  }

  // ------------------------------------------------------------- top level

  const ByteOrderMark: seq<Byte> := [0xEF, 0xBB, 0xBF]

  /** A leading byte-order mark is skipped: the data reads as it would
      without it. */
  lemma {:induction false} ByteOrderMarkSkipped(data: seq<Byte>, decode: seq<Byte> -> Option<string>, scan: Scanner)
    requires !(|data| >= 3 && data[..3] == ByteOrderMark)
    ensures JsonObject(ByteOrderMark + data, decode, scan) == JsonObject(data, decode, scan)
  {
    var marked := ByteOrderMark + data;
    assert marked[..3] == ByteOrderMark;
    assert marked[3..] == data;
    assert WithoutByteOrderMark(marked) == data;
  }

  /** Empty data, or data of whitespace alone, throws "Unexpected end of
      file". */
  lemma {:induction false} NothingThrows(data: seq<Byte>, decode: seq<Byte> -> Option<string>, scan: Scanner)
    requires forall k :: 0 <= k < |data| ==> IsWhitespace(data[k])
    ensures JsonObject(data, decode, scan) == Failure(UnexpectedEndOfFile)
  {
    var src := Source(WithoutByteOrderMark(data), decode, scan);
    assert src.buffer == data;
    assert ConsumeWhitespace(src, 0) == |data|;
  }
}
