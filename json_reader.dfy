/** The byte-level JSON reader adapted from swift-corelibs-foundation
    (Source/JsonSerializer/JsonSerialization.swift): pure functions that take
    an index into the buffer and return the index after what they read.

    A reader function either throws (`Failure`), declines (`Success(None)`,
    Swift's `nil`) or reads something and says where it stopped
    (`Success(Some(Parsed(value, next)))`). Indices never leave [0, n] for a
    buffer of n bytes.

    The definitions here are the reader as evidently intended. Where the
    source differs, a member named `...AsWritten` models the code as it
    stands, next to a lemma that shows the difference. */
module JsonReading {
  import opened Wrappers
  import opened SupportedTypes

  type Byte = b: int | 0 <= b < 256

  // ------------------------------------------------------------- the source

  /** What `strtol` and `strtod` report for the bytes of a number: how many
      bytes each consumed and the value each read. */
  datatype Scan = Scan(intDistance: nat, intValue: int, doubleDistance: nat, doubleValue: Float64)

  /** The two C scanners on a window of bytes; neither consumes more bytes
      than it is given. */
  type Scanner = f: seq<Byte> -> Scan | forall w :: f(w).intDistance <= |w| && f(w).doubleDistance <= |w|
    witness (w: seq<Byte>) => Scan(0, 0, 0, Finite(0, 0))

  /** `UnicodeSource`: the bytes after the byte-order mark, with the two
      conversions the reader borrows from Foundation and C. `decode` is
      `String(data:encoding: .utf8)` on a chunk (None when the bytes are not
      UTF-8); `scan` is `strtol` and `strtod`. */
  datatype Source = Source(buffer: seq<Byte>, decode: seq<Byte> -> Option<string>, scan: Scanner)

  /** What the Foundation objects the reader builds stand for. */
  datatype Json =
    | JNull
    | JBool(truth: bool)
    | JString(text: string)
    | JInt(integer: int)
    | JDouble(number: Float64)
    | JArray(items: seq<Json>)
    | JObject(members: map<string, Json>)

  /** The errors the reader throws, by their `NSDebugDescription`. */
  datatype ReadError =
    | UnexpectedEndOfFile             // "Unexpected end of file during JSON parse."
    | UnexpectedEndOfString           // "Unexpected end of file during string parse."
    | CorruptString                   // "Unable to convert data to a string ..."
    | InvalidEscape(position: nat)    // "Invalid escape sequence at position"
    | EarlyEndOfEscape                // "Early end of unicode escape sequence ..."
    | NoLowSurrogate(position: nat)   // "... (no low-surrogate code point) ..."
    | NoHighSurrogate(position: nat)  // a trail surrogate with no lead before it
    | MissingKey(position: nat)       // "Missing object key at location"
    | InvalidSeparator(position: nat) // "Invalid separator at location"
    | InvalidValue(position: nat)     // "Invalid value at location"
    | BadlyFormedArray(position: nat) // "Badly formed array at location"

  /** A value read and the index after it. */
  datatype Parsed<T> = Parsed(value: T, next: nat)

  /** What a reader function that may throw or decline returns. */
  type Outcome<T> = Result<Option<Parsed<T>>, ReadError>

  /** `o` read something, and stopped after `i` and within the buffer. */
  predicate Advances<T>(o: Outcome<T>, i: nat, n: nat) {
    o.Success? && o.value.Some? ==> i < o.value.value.next <= n
  }

  // -------------------------------------------------------------- constants

  const BeginArray: Byte := 0x5B
  const EndArray: Byte := 0x5D
  const BeginObject: Byte := 0x7B
  const EndObject: Byte := 0x7D
  const NameSeparator: Byte := 0x3A
  const ValueSeparator: Byte := 0x2C
  const QuotationMark: Byte := 0x22
  const Escape: Byte := 0x5C

  /** The literals `consumeASCIISequence` is given, byte by byte. */
  const TrueText: seq<Byte> := [0x74, 0x72, 0x75, 0x65]
  const FalseText: seq<Byte> := [0x66, 0x61, 0x6C, 0x73, 0x65]
  const NullText: seq<Byte> := [0x6E, 0x75, 0x6C, 0x6C]
  const UnicodeEscapeText: seq<Byte> := [0x5C, 0x75]

  /** `whitespaceASCII`: tab, line feed, carriage return and space. */
  predicate IsWhitespace(b: Byte) {
    b == 0x09 || b == 0x0A || b == 0x0D || b == 0x20
  }

  // ------------------------------------------------------------ one byte

  /** `hasNext(_:)`: an index inside the buffer. */
  predicate HasNext(src: Source, i: nat) {
    i < |src.buffer|
  }

  /** `takeASCII(_:)`: the byte at `i` if there is one and it is ASCII. */
  function TakeASCII(src: Source, i: nat): (r: Option<Byte>)
    ensures r.Some? <==> i < |src.buffer| && src.buffer[i] < 0x80
    ensures r.Some? ==> r.value == src.buffer[i]
  {
    if !HasNext(src, i) then None
    else if src.buffer[i] < 0x80 then Some(src.buffer[i])
    else None
  }

  /** `consumeWhitespace(_:)`: the first index at or after `i` that does
      not hold a whitespace byte. */
  function ConsumeWhitespace(src: Source, i: nat): (r: nat)
    requires i <= |src.buffer|
    ensures i <= r <= |src.buffer|
    ensures forall j :: i <= j < r ==> IsWhitespace(src.buffer[j])
    ensures r == |src.buffer| || !IsWhitespace(src.buffer[r])
    decreases |src.buffer| - i
  {
    match TakeASCII(src, i)
    case Some(b) => if IsWhitespace(b) then ConsumeWhitespace(src, i + 1) else i
    case None => i
  }

  /** `consumeASCII(_:)`: past `ascii` if it stands at `i`; throws when no
      ASCII byte stands there. */
  function ConsumeASCII(src: Source, ascii: Byte, i: nat): (r: Result<Option<nat>, ReadError>)
    ensures r.Failure? <==> TakeASCII(src, i).None?
    ensures r.Failure? ==> r.error == UnexpectedEndOfFile
    ensures r == Success(Some(i + 1)) <==> i < |src.buffer| && src.buffer[i] == ascii && ascii < 0x80
    ensures r.Success? && r.value.Some? ==> r.value.value == i + 1
  {
    match TakeASCII(src, i)
    case None => Failure(UnexpectedEndOfFile)
    case Some(b) => if b == ascii then Success(Some(i + 1)) else Success(None)
  }

  /** `consumeStructure(_:input:)`: whitespace, `ascii`, whitespace. What it
      reads follows from the contracts of ConsumeWhitespace and ConsumeASCII. */
  function ConsumeStructure(src: Source, ascii: Byte, i: nat): (r: Result<Option<nat>, ReadError>)
    requires i <= |src.buffer|
    ensures r.Success? && r.value.Some? ==> i < r.value.value <= |src.buffer|
  {
    match ConsumeASCII(src, ascii, ConsumeWhitespace(src, i))
    case Failure(e) => Failure(e)
    case Success(None) => Success(None)
    case Success(Some(j)) => Success(Some(ConsumeWhitespace(src, j)))
  }

  /** `consumeASCIISequence(_:input:)`: past `s` if it stands at `i`. */
  function ConsumeASCIISequence(src: Source, s: seq<Byte>, i: nat): (r: Result<Option<nat>, ReadError>)
    requires i <= |src.buffer|
    ensures r.Success? && r.value.Some? ==> r.value.value == i + |s| <= |src.buffer|
    decreases |s|
  {
    if |s| == 0 then Success(Some(i))
    else
      match ConsumeASCII(src, s[0], i)
      case Failure(e) => Failure(e)
      case Success(None) => Success(None)
      case Success(Some(j)) => ConsumeASCIISequence(src, s[1..], j)
  }

  // ---------------------------------------------------------- hex digits

  /** `isHexChr(_:)` */
  predicate IsHexChr(b: Byte) {
    (b >= 0x30 && b <= 0x39) || (b >= 0x41 && b <= 0x46) || (b >= 0x61 && b <= 0x66)
  }

  /** The value of a hexadecimal digit, as `Int(_:radix: 16)` reads it. */
  function HexValue(b: Byte): (d: nat)
    requires IsHexChr(b)
    ensures d < 16
  {
    if b <= 0x39 then b - 0x30 else if b <= 0x46 then b - 0x41 + 10 else b - 0x61 + 10
  }

  /** `Int(String(digits), radix: 16)` on hexadecimal digits. */
  function HexNumber(digits: seq<Byte>): (v: nat)
    requires forall j :: 0 <= j < |digits| ==> IsHexChr(digits[j])
  {
    if |digits| == 0 then 0 else 16 * HexNumber(digits[..|digits| - 1]) + HexValue(digits[|digits| - 1])
  }

  /** `takeMatching(isHexChr)`: one more hexadecimal digit taken at `i`. */
  function TakeHex(src: Source, digits: seq<Byte>, i: nat): (r: Option<(seq<Byte>, nat)>)
    ensures r.Some? <==> i < |src.buffer| && IsHexChr(src.buffer[i])
    ensures r.Some? ==> r.value == (digits + [src.buffer[i]], i + 1)
  {
    match TakeASCII(src, i)
    case Some(b) => if IsHexChr(b) then Some((digits + [b], i + 1)) else None
    case None => None
  }

  /** `parseCodeUnit(_:)`: four hexadecimal digits and the code unit they
      spell. */
  function ParseCodeUnit(src: Source, i: nat): (r: Option<Parsed<nat>>)
    ensures r.Some? <==> i + 4 <= |src.buffer| && forall k :: i <= k < i + 4 ==> IsHexChr(src.buffer[k])
    ensures r.Some? ==> r.value.next == i + 4 && r.value.value == HexNumber(src.buffer[i..i + 4]) < 0x10000
  {
    match TakeHex(src, [], i)
    case None => None
    case Some((d1, i1)) =>
      match TakeHex(src, d1, i1)
      case None => None
      case Some((d2, i2)) =>
        match TakeHex(src, d2, i2)
        case None => None
        case Some((d3, i3)) =>
          match TakeHex(src, d3, i3)
          case None => None
          case Some((d4, i4)) =>
            assert d4 == src.buffer[i..i + 4];
            HexNumberBound(d4);
            assert Power16(4) == 0x10000;
            Some(Parsed(HexNumber(d4), i4))
  }

  /** Four hexadecimal digits spell a number below 0x10000. */
  lemma {:induction false} HexNumberBound(digits: seq<Byte>)
    requires forall j :: 0 <= j < |digits| ==> IsHexChr(digits[j])
    ensures HexNumber(digits) < Power16(|digits|)
  {
    if |digits| > 0 {
      HexNumberBound(digits[..|digits| - 1]);
    }
  }

  function Power16(n: nat): nat {
    if n == 0 then 1 else 16 * Power16(n - 1)
  }

  // ------------------------------------------------------------ escapes

  /** `UTF16.isLeadSurrogate(_:)` */
  predicate IsLeadSurrogate(u: nat) {
    0xD800 <= u <= 0xDBFF
  }

  /** `UTF16.isTrailSurrogate(_:)` */
  predicate IsTrailSurrogate(u: nat) {
    0xDC00 <= u <= 0xDFFF
  }

  /** The scalar a surrogate pair stands for. */
  function Combined(hi: nat, lo: nat): (c: nat)
    requires IsLeadSurrogate(hi) && IsTrailSurrogate(lo)
    ensures 0x10000 <= c <= 0x10FFFF
  {
    (hi - 0xD800) * 1024 + (lo - 0xDC00) + 0x10000
  }

  /** The scalar a two-character escape stands for. */
  function ShortEscape(b: Byte): Option<char> {
    if b == 0x22 then Some('"')
    else if b == 0x5C then Some('\\')
    else if b == 0x2F then Some('/')
    else if b == 0x62 then Some(8 as char)
    else if b == 0x66 then Some(12 as char)
    else if b == 0x6E then Some(10 as char)
    else if b == 0x72 then Some(13 as char)
    else if b == 0x74 then Some(9 as char)
    else None
  }

  /** `parseUnicodeSequence(_:)`: the four digits after `\u` at `i`, and
      for a lead surrogate a second `\u` escape with the trail surrogate. */
  function ParseUnicodeSequence(src: Source, i: nat): (r: Outcome<string>)
    requires i <= |src.buffer|
    ensures r.Success? && r.value.Some? ==> i + 4 <= r.value.value.next <= |src.buffer|
  {
    match ParseCodeUnit(src, i)
    case None => Success(None)
    case Some(Parsed(unit, j)) =>
      if IsTrailSurrogate(unit) then Failure(NoHighSurrogate(i))
      else if !IsLeadSurrogate(unit) then Success(Some(Parsed([unit as char], j)))
      else
        match ConsumeASCIISequence(src, UnicodeEscapeText, j)
        case Failure(e) => Failure(e)
        case Success(None) => Failure(NoLowSurrogate(i))
        case Success(Some(k)) =>
          match ParseCodeUnit(src, k)
          case None => Failure(NoLowSurrogate(i))
          case Some(Parsed(trail, m)) =>
            if !IsTrailSurrogate(trail) then Failure(NoLowSurrogate(i))
            else Success(Some(Parsed([Combined(unit, trail) as char], m)))
  }

  /** `parseEscapeSequence(_:)`: what follows a backslash at `i - 1`. */
  function ParseEscapeSequence(src: Source, i: nat): (r: Outcome<string>)
    requires i <= |src.buffer|
    ensures Advances(r, i, |src.buffer|)
  {
    match TakeASCII(src, i)
    case None => Failure(EarlyEndOfEscape)
    case Some(b) =>
      match ShortEscape(b)
      case Some(c) => Success(Some(Parsed([c], i + 1)))
      case None => if b == 0x75 then ParseUnicodeSequence(src, i + 1) else Success(None)
  }

  // ------------------------------------------------------------- strings

  /** The bytes of the string between `chunk` and the delimiter at
      `current`. */
  function StringChunk(src: Source, chunk: nat, current: nat): (bytes: seq<Byte>)
    requires chunk <= current < |src.buffer|
    ensures |bytes| == current - chunk
  {
    src.buffer[chunk..current]
  }

  /** The loop of `parseString(_:)`: the bytes from `chunk` to `current`
      are not yet decoded and `output` holds the string so far. What it
      reads: JsonReaderProperties.PlainBytesSkipped, InvalidEscapeThrows. */
  function StringLoop(src: Source, chunk: nat, current: nat, output: string): (r: Outcome<string>)
    requires chunk <= current <= |src.buffer|
    ensures Advances(r, current, |src.buffer|)
    decreases |src.buffer| - current
  {
    if !HasNext(src, current) then Failure(UnexpectedEndOfString)
    else
      match TakeASCII(src, current)
      case None => StringLoop(src, chunk, current + 1, output)
      case Some(b) =>
        if b == QuotationMark then
          match src.decode(StringChunk(src, chunk, current))
          case None => Failure(CorruptString)
          case Some(text) => Success(Some(Parsed(output + text, current + 1)))
        else if b == Escape then
          match src.decode(StringChunk(src, chunk, current))
          case None => Failure(CorruptString)
          case Some(text) =>
            match ParseEscapeSequence(src, current + 1)
            case Failure(e) => Failure(e)
            case Success(None) => Failure(InvalidEscape(current + 1))
            case Success(Some(Parsed(escaped, next))) => StringLoop(src, next, next, output + text + escaped)
        else StringLoop(src, chunk, current + 1, output)
  }

  /** `parseString(_:)`: whitespace, a quotation mark, then the loop. What it
      reads: JsonReaderProperties.PlainStringRead, WrittenEscapeRead. */
  function ParseString(src: Source, i: nat): (r: Outcome<string>)
    requires i <= |src.buffer|
    ensures Advances(r, i, |src.buffer|)
  {
    match ConsumeASCII(src, QuotationMark, ConsumeWhitespace(src, i))
    case Failure(e) => Failure(e)
    case Success(None) => Success(None)
    case Success(Some(begin)) => StringLoop(src, begin, begin, "")
  }

  // ------------------------------------------------------------- numbers

  /** The bytes `parseTypedNumber` copies for the C scanners: at most 63,
      the buffer being 64 bytes with a terminating zero. */
  function NumberWindow(src: Source, i: nat): (w: seq<Byte>)
    requires i <= |src.buffer|
    ensures |w| <= 63 && i + |w| <= |src.buffer|
  {
    var count := |src.buffer| - i;
    src.buffer[i..i + (if count < 63 then count else 63)]
  }

  /** `parseNumber(_:)`: the integer when `strtol` consumed as much as
      `strtod`, otherwise the double when `strtod` consumed anything. What it
      reads: JsonReaderProperties.NumberRead. */
  function ParseNumber(src: Source, i: nat): (r: Option<Parsed<Json>>)
    requires i <= |src.buffer|
    ensures r.Some? ==> i < r.value.next <= |src.buffer|
  {
    var s := src.scan(NumberWindow(src, i));
    if s.intDistance == 0 && s.doubleDistance == 0 then None
    else if s.intDistance == s.doubleDistance then Some(Parsed(JInt(s.intValue), i + s.intDistance))
    else if s.doubleDistance == 0 then None
    else Some(Parsed(JDouble(s.doubleValue), i + s.doubleDistance))
  }

  // -------------------------------------------------------------- values

  /** `parseValue(_:)`: a string, `true`, `false`, `null`, an object, an
      array or a number, tried in that order. What it reads:
      JsonReaderProperties.LiteralRead, NumberRead, and
      JsonReaderExamples.GarbageReadsAsNull. */
  function ParseValue(src: Source, i: nat): (r: Outcome<Json>)
    requires i <= |src.buffer|
    ensures Advances(r, i, |src.buffer|)
    decreases |src.buffer| - i, 2
  {
    match ParseString(src, i)
    case Failure(e) => Failure(e)
    case Success(Some(Parsed(s, j))) => Success(Some(Parsed(JString(s), j)))
    case Success(None) =>
      match ConsumeASCIISequence(src, TrueText, i)
      case Failure(e) => Failure(e)
      case Success(Some(j)) => Success(Some(Parsed(JBool(true), j)))
      case Success(None) =>
        match ConsumeASCIISequence(src, FalseText, i)
        case Failure(e) => Failure(e)
        case Success(Some(j)) => Success(Some(Parsed(JBool(false), j)))
        case Success(None) =>
          match ConsumeASCIISequence(src, NullText, i)
          case Failure(e) => Failure(e)
          case Success(Some(j)) => Success(Some(Parsed(JNull, j)))
          case Success(None) =>
            match ParseObject(src, i)
            case Failure(e) => Failure(e)
            case Success(Some(Parsed(o, j))) => Success(Some(Parsed(JObject(o), j)))
            case Success(None) =>
              match ParseArray(src, i)
              case Failure(e) => Failure(e)
              case Success(Some(Parsed(a, j))) => Success(Some(Parsed(JArray(a), j)))
              case Success(None) => Success(ParseNumber(src, i))
  }

  // ------------------------------------------------------------- objects

  /** `parseObject(_:)`: an opening brace, then the loop. What it reads:
      JsonReaderExamples.EmptyContainersRead, LastMemberWins. */
  function ParseObject(src: Source, i: nat): (r: Outcome<map<string, Json>>)
    requires i <= |src.buffer|
    ensures Advances(r, i, |src.buffer|)
    decreases |src.buffer| - i, 1
  {
    match ConsumeStructure(src, BeginObject, i)
    case Failure(e) => Failure(e)
    case Success(None) => Success(None)
    case Success(Some(begin)) => ObjectLoop(src, begin, map[])
  }

  /** The loop of `parseObject(_:)` at `index`, having read `output`. What it
      reads: JsonReaderProperties.ObjectKeepsKeys, MemberThenOtherDeclines. */
  function ObjectLoop(src: Source, index: nat, output: map<string, Json>): (r: Outcome<map<string, Json>>)
    requires index <= |src.buffer|
    ensures Advances(r, index, |src.buffer|)
    decreases |src.buffer| - index, 4
  {
    match ConsumeStructure(src, EndObject, index)
    case Failure(e) => Failure(e)
    case Success(Some(final)) => Success(Some(Parsed(output, final)))
    case Success(None) =>
      match ParseObjectMember(src, index)
      case Failure(e) => Failure(e)
      case Success(Parsed((key, value), next)) =>
        var collected := output[key := value];
        match ConsumeStructure(src, EndObject, next)
        case Failure(e) => Failure(e)
        case Success(Some(final)) => Success(Some(Parsed(collected, final)))
        case Success(None) =>
          match ConsumeStructure(src, ValueSeparator, next)
          case Failure(e) => Failure(e)
          case Success(Some(after)) => ObjectLoop(src, after, collected)
          case Success(None) => Success(None)
  }

  /** `parseObjectMember(_:)`: a key, a colon and a value; each missing
      piece throws, so the Swift optional it returns is never nil. What it
      reads: JsonReaderProperties.MemberPiecesRequired. */
  function ParseObjectMember(src: Source, i: nat): (r: Result<Parsed<(string, Json)>, ReadError>)
    requires i <= |src.buffer|
    ensures r.Success? ==> i < r.value.next <= |src.buffer|
    decreases |src.buffer| - i, 3
  {
    match ParseString(src, i)
    case Failure(e) => Failure(e)
    case Success(None) => Failure(MissingKey(i))
    case Success(Some(Parsed(name, j))) =>
      match ConsumeStructure(src, NameSeparator, j)
      case Failure(e) => Failure(e)
      case Success(None) => Failure(InvalidSeparator(j))
      case Success(Some(s)) =>
        match ParseValue(src, s)
        case Failure(e) => Failure(e)
        case Success(None) => Failure(InvalidValue(s))
        case Success(Some(Parsed(value, final))) => Success(Parsed((name, value), final))
  }

  // -------------------------------------------------------------- arrays

  /** `parseArray(_:)`: an opening bracket, then the loop. What it reads:
      JsonReaderExamples.EmptyContainersRead, ArrayTrailingComma. */
  function ParseArray(src: Source, i: nat): (r: Outcome<seq<Json>>)
    requires i <= |src.buffer|
    ensures Advances(r, i, |src.buffer|)
    decreases |src.buffer| - i, 1
  {
    match ConsumeStructure(src, BeginArray, i)
    case Failure(e) => Failure(e)
    case Success(None) => Success(None)
    case Success(Some(begin)) => ArrayLoop(src, begin, [])
  }

  /** The loop of `parseArray(_:)` at `index`, having read `output`. What it
      reads: JsonReaderProperties.ArrayKeepsElements, BadlyFormedArrayThrows. */
  function ArrayLoop(src: Source, index: nat, output: seq<Json>): (r: Outcome<seq<Json>>)
    requires index <= |src.buffer|
    ensures Advances(r, index, |src.buffer|)
    decreases |src.buffer| - index, 3
  {
    match ConsumeStructure(src, EndArray, index)
    case Failure(e) => Failure(e)
    case Success(Some(final)) => Success(Some(Parsed(output, final)))
    case Success(None) =>
      match ParseValue(src, index)
      case Failure(e) => Failure(e)
      case Success(None) => Failure(BadlyFormedArray(index))
      case Success(Some(Parsed(value, next))) =>
        var collected := output + [value];
        match ConsumeStructure(src, EndArray, next)
        case Failure(e) => Failure(e)
        case Success(Some(final)) => Success(Some(Parsed(collected, final)))
        case Success(None) =>
          match ConsumeStructure(src, ValueSeparator, next)
          case Failure(e) => Failure(e)
          case Success(Some(after)) => ArrayLoop(src, after, collected)
          case Success(None) => Failure(BadlyFormedArray(index))
  }

  // ----------------------------------------------------------- top level

  /** The bytes of the data without a leading UTF-8 byte-order mark. */
  function WithoutByteOrderMark(data: seq<Byte>): (buffer: seq<Byte>)
    ensures |data| >= 3 && data[..3] == [0xEF, 0xBB, 0xBF] ==> buffer == data[3..]
    ensures !(|data| >= 3 && data[..3] == [0xEF, 0xBB, 0xBF]) ==> buffer == data
  {
    if |data| >= 3 && data[0] == 0xEF && data[1] == 0xBB && data[2] == 0xBF then data[3..] else data
  }

  /** `jsonObject(with:)`: an object, else an array, else any value, read
      from the start; NSNull when none of them reads anything. */
  function JsonObject(data: seq<Byte>, decode: seq<Byte> -> Option<string>, scan: Scanner): (r: Result<Json, ReadError>)
  {
    var src := Source(WithoutByteOrderMark(data), decode, scan);
    match ParseObject(src, 0)
    case Failure(e) => Failure(e)
    case Success(Some(Parsed(o, _))) => Success(JObject(o))
    case Success(None) =>
      match ParseArray(src, 0)
      case Failure(e) => Failure(e)
      case Success(Some(Parsed(a, _))) => Success(JArray(a))
      case Success(None) =>
        match ParseValue(src, 0)
        case Failure(e) => Failure(e)
        case Success(Some(Parsed(v, _))) => Success(v)
        case Success(None) => Success(JNull)
  }
}
