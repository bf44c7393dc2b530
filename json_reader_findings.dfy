/** Four places where Source/JsonSerializer/JsonSerialization.swift does not
    do what it evidently means to: each is modelled as written, next to a
    lemma that names an input showing the difference from the corrected
    definition in JsonReading, which the rest of the model uses. */
module JsonReaderFindings {
  import opened Wrappers
  import opened JsonReading
  import JsonReaderProperties

  // ------------------------------------- `hasNext` admits the end index

  /** `hasNext` as written: `input <= buffer.endIndex`, so the end index
      itself counts as having a next byte. */
  predicate HasNextAsWritten(src: Source, i: nat) {
    i <= |src.buffer|
  }

  /** `takeASCII` as written. At the end index it reads the byte that lies
      just past the buffer in memory, here `beyond`: nothing in the byte
      order mark or the buffer decides its value. */
  function TakeASCIIAsWritten(src: Source, beyond: Byte, i: nat): (r: Option<Byte>)
    ensures i == |src.buffer| ==> r == if beyond < 0x80 then Some(beyond) else None
    ensures i != |src.buffer| ==> r == TakeASCII(src, i)
  {
    if !HasNextAsWritten(src, i) then None
    else
      var b := if i < |src.buffer| then src.buffer[i] else beyond;
      if b < 0x80 then Some(b) else None
  }

  /** `consumeWhitespace` over `takeASCII` as written. */
  function ConsumeWhitespaceAsWritten(src: Source, beyond: Byte, i: nat): (r: nat)
    requires i <= |src.buffer| + 1
    ensures i <= r <= |src.buffer| + 1
    decreases |src.buffer| + 1 - i
  {
    match TakeASCIIAsWritten(src, beyond, i)
    case Some(b) => if IsWhitespace(b) then ConsumeWhitespaceAsWritten(src, beyond, i + 1) else i
    case None => i
  }

  /** `consumeASCII` over `takeASCII` as written. */
  function ConsumeASCIIAsWritten(src: Source, beyond: Byte, ascii: Byte, i: nat): Result<Option<nat>, ReadError> {
    match TakeASCIIAsWritten(src, beyond, i)
    case None => Failure(UnexpectedEndOfFile)
    case Some(b) => if b == ascii then Success(Some(i + 1)) else Success(None)
  }

  /** As written, skipping whitespace agrees with the corrected reader
      unless only whitespace is left, and then it goes on into the byte past
      the buffer, and past the end of the buffer when that byte is
      whitespace too. */
  lemma {:induction false} WhitespaceAsWrittenReadsPastEnd(src: Source, beyond: Byte, i: nat)
    requires i <= |src.buffer|
    ensures ConsumeWhitespace(src, i) < |src.buffer| ==>
      ConsumeWhitespaceAsWritten(src, beyond, i) == ConsumeWhitespace(src, i)
    ensures ConsumeWhitespace(src, i) == |src.buffer| ==>
      ConsumeWhitespaceAsWritten(src, beyond, i) == if IsWhitespace(beyond) then |src.buffer| + 1 else |src.buffer|
    decreases |src.buffer| - i
  {
    if i < |src.buffer| && IsWhitespace(src.buffer[i]) {
      WhitespaceAsWrittenReadsPastEnd(src, beyond, i + 1);
    } else if i == |src.buffer| && IsWhitespace(beyond) {
      assert ConsumeWhitespaceAsWritten(src, beyond, i + 1) == i + 1;
    }
  }

  /** The one byte `{` is read as written as an opening brace followed by a
      closing one whenever the byte past the buffer is `}`; the corrected
      reader throws "Unexpected end of file" there. */
  lemma {:induction false} TruncatedObjectClosed(decode: seq<Byte> -> Option<string>, scan: Scanner)
    ensures var src := Source([BeginObject], decode, scan);
      ConsumeASCIIAsWritten(src, EndObject, EndObject, ConsumeWhitespaceAsWritten(src, EndObject, 1)) == Success(Some(2))
      && ConsumeStructure(src, EndObject, 1) == Failure(UnexpectedEndOfFile)
  {
    var src := Source([BeginObject], decode, scan);
    WhitespaceAsWrittenReadsPastEnd(src, EndObject, 1);
  }

  // ------------------------------------- `takeMatching` does not advance

  /** `takeMatching(isHexChr)` as written: it appends the digit but returns
      the index it was given. */
  function TakeHexAsWritten(src: Source, digits: seq<Byte>, i: nat): (r: Option<(seq<Byte>, nat)>)
    ensures r.Some? <==> TakeHex(src, digits, i).Some?
    ensures r.Some? ==> r.value == (digits + [src.buffer[i]], i)
  {
    match TakeASCII(src, i)
    case Some(b) => if IsHexChr(b) then Some((digits + [b], i)) else None
    case None => None
  }

  /** `parseCodeUnit` over `takeMatching` as written. */
  function ParseCodeUnitAsWritten(src: Source, i: nat): Option<Parsed<nat>> {
    match TakeHexAsWritten(src, [], i)
    case None => None
    case Some((d1, i1)) =>
      match TakeHexAsWritten(src, d1, i1)
      case None => None
      case Some((d2, i2)) =>
        match TakeHexAsWritten(src, d2, i2)
        case None => None
        case Some((d3, i3)) =>
          match TakeHexAsWritten(src, d3, i3)
          case None => None
          case Some((d4, i4)) =>
            assert forall k :: 0 <= k < |d4| ==> IsHexChr(d4[k]);
            Some(Parsed(HexNumber(d4), i4))
  }

  /** As written, the code unit is the first digit read four times, and the
      index does not move past it. */
  lemma {:induction false} CodeUnitAsWrittenRepeats(src: Source, i: nat)
    ensures ParseCodeUnitAsWritten(src, i).Some? <==> i < |src.buffer| && IsHexChr(src.buffer[i])
    ensures ParseCodeUnitAsWritten(src, i).Some? ==>
      ParseCodeUnitAsWritten(src, i).value == Parsed(0x1111 * HexValue(src.buffer[i]), i)
  {
    if i < |src.buffer| && IsHexChr(src.buffer[i]) {
      var b := src.buffer[i];
      var d1, d2, d3, d4 := [b], [b, b], [b, b, b], [b, b, b, b];
      assert [] + [b] == d1 && d1 + [b] == d2 && d2 + [b] == d3 && d3 + [b] == d4;
      assert TakeHexAsWritten(src, [], i) == Some((d1, i));
      assert TakeHexAsWritten(src, d1, i) == Some((d2, i));
      assert TakeHexAsWritten(src, d2, i) == Some((d3, i));
      assert TakeHexAsWritten(src, d3, i) == Some((d4, i));
      RepeatedDigit(b);
    }
  }

  /** Four copies of one digit spell 0x1111 times its value. */
  lemma {:induction false} RepeatedDigit(b: Byte)
    requires IsHexChr(b)
    ensures HexNumber([b, b, b, b]) == 0x1111 * HexValue(b)
  {
    var d1, d2, d3, d4 := [b], [b, b], [b, b, b], [b, b, b, b];
    assert d4[..3] == d3 && d3[..2] == d2 && d2[..1] == d1 && d1[..0] == [];
    assert HexNumber(d1) == HexValue(b);
    assert HexNumber(d2) == 16 * HexNumber(d1) + HexValue(b);
    assert HexNumber(d3) == 16 * HexNumber(d2) + HexValue(b);
  }

  /** For the digits `0041` of `A`, as written the code unit is 0 and
      the index stays at `0`; the corrected reader gives 0x41 (`A`) four
      bytes on. */
  lemma {:induction false} CodeUnitAsWrittenMisreads(decode: seq<Byte> -> Option<string>, scan: Scanner)
    ensures var src := Source([0x30, 0x30, 0x34, 0x31], decode, scan);
      ParseCodeUnitAsWritten(src, 0) == Some(Parsed(0, 0))
      && ParseCodeUnit(src, 0) == Some(Parsed(0x41, 4))
  {
    var src := Source([0x30, 0x30, 0x34, 0x31], decode, scan);
    CodeUnitAsWrittenRepeats(src, 0);
    JsonReaderProperties.CodeUnitRead(src, 0);
  }

  // ---------------------------- the string chunk includes its delimiter

  /** The chunk `parseString` decodes as written: `currentIndex` has already
      been moved past the quotation mark or backslash when the chunk is
      taken up to it. */
  function StringChunkAsWritten(src: Source, chunk: nat, current: nat): (bytes: seq<Byte>)
    requires chunk <= current < |src.buffer|
    ensures bytes == StringChunk(src, chunk, current) + [src.buffer[current]]
  {
    src.buffer[chunk..current + 1]
  }

  /** For `"ab"`, as written the chunk decoded is `ab"`, quotation mark
      included; the corrected reader decodes `ab` and reads the string
      `ab`. */
  lemma {:induction false} ChunkAsWrittenKeepsQuote(decode: seq<Byte> -> Option<string>, scan: Scanner)
    requires decode([0x61, 0x62]) == Some("ab")
    ensures var src := Source([0x22, 0x61, 0x62, 0x22], decode, scan);
      StringChunkAsWritten(src, 1, 3) == [0x61, 0x62, 0x22]
      && StringChunk(src, 1, 3) == [0x61, 0x62]
      && ParseString(src, 0) == Success(Some(Parsed("ab", 4)))
  {
    var src := Source([0x22, 0x61, 0x62, 0x22], decode, scan);
    assert src.buffer[1..3] == [0x61, 0x62];
    JsonReaderProperties.PlainStringRead(src, 0, 3);
  }

  // ------------------------------ a lone trail surrogate traps the reader

  /** `UnicodeScalar(codeUnit)` on a code unit that is not a lead
      surrogate: nil for a trail surrogate, which the source force-unwraps,
      stopping the program. */
  function ScalarAsWritten(unit: nat): (r: Option<char>)
    requires unit < 0x10000 && !IsLeadSurrogate(unit)
    ensures r.None? <==> IsTrailSurrogate(unit)
    ensures r.Some? ==> r.value as int == unit
  {
    if IsTrailSurrogate(unit) then None else Some(unit as char)
  }

  /** `\uDC00` is a trail surrogate with no lead before it: as written the
      scalar is nil and the forced unwrap traps; the corrected reader throws
      an error naming the position of its digits. */
  lemma {:induction false} LoneTrailRejected(decode: seq<Byte> -> Option<string>, scan: Scanner)
    ensures var src := Source([0x44, 0x43, 0x30, 0x30], decode, scan);
      ParseCodeUnit(src, 0) == Some(Parsed(0xDC00, 4))
      && ScalarAsWritten(0xDC00).None?
      && ParseUnicodeSequence(src, 0) == Failure(NoHighSurrogate(0))
  {
    var src := Source([0x44, 0x43, 0x30, 0x30], decode, scan);
    JsonReaderProperties.CodeUnitRead(src, 0);
  }
}
