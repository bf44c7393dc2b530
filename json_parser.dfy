/** The hand-written JSON parser (Source/JsonSerializer/JsonParser.swift): a
    cursor over the input's Unicode scalars, driven by small state machines
    for strings, dictionaries, arrays and numbers.

    The cursor of the source is a pair `(index, hasNext)`. On a non-empty input
    of length n every reachable pair is one position `pos` in [0, n]: `pos` is
    `index` while `hasNext` holds and n once it is false. The specification
    functions below are written over that position; the class at the end keeps
    the source's own fields and is proved against them. */
module JsonParsing {
  import opened Wrappers
  import opened SupportedTypes

  // ---------------------------------------------------------------- errors

  /** `JsonError.Message` */
  datatype Message =
    | UnexpectedEOF
    | OnlyWhitespacesAtEnd
    | InvalidUnicodeCharacter(number: nat)
    | UnknownEscapedCharacter(escaped: char)
    | UnexpectedCharacter(found: char, allowed: seq<char>)
    | InvalidNumber

  /** `JsonError.parse`; `JsonError.load` belongs to the byte-to-scalar
      decoding, which is not part of this model. */
  datatype JsonError = Parse(index: nat, line: nat, column: int, character: char, message: Message)

  // ------------------------------------------------------ scalar classes

  /** Space, horizontal tab, line feed and carriage return. */
  predicate IsWhitespace(c: char) {
    c == ' ' || c == '\t' || c == '\n' || c == '\r'
  }

  predicate IsDigit(c: char) {
    '0' <= c <= '9'
  }

  predicate IsE(c: char) {
    c == 'e' || c == 'E'
  }

  function DigitValue(c: char): nat
    requires IsDigit(c)
  {
    c as int - '0' as int
  }

  // ----------------------------------------------------------------- cursor

  /** The source's cursor state. */
  datatype Cursor = Cursor(index: nat, hasNext: bool)

  /** The pairs `next()` and `repeatCharacter()` can reach on an input of
      length n. */
  predicate CursorValid(n: nat, c: Cursor) {
    n > 0 && c.index < n && (!c.hasNext ==> c.index == n - 1)
  }

  /** The cursor move of `next()`: one scalar on, or `hasNext` off at the last. */
  function Advance(n: nat, c: Cursor): Cursor {
    if c.index + 1 < n then Cursor(c.index + 1, c.hasNext) else Cursor(c.index, false)
  }

  /** The cursor move of `repeatCharacter()`: one scalar back, or `hasNext` on
      again after the last. Stepping back from index 0 traps in the source. */
  function StepBack(c: Cursor): Cursor
    requires c.hasNext ==> c.index > 0
  {
    if c.hasNext then Cursor(c.index - 1, true) else Cursor(c.index, true)
  }

  function Position(n: nat, c: Cursor): nat {
    if c.hasNext then c.index else n
  }

  /** The index a position reads: itself, or the last scalar at the end. */
  function IndexOf(n: nat, pos: nat): nat
    requires n > 0
  {
    if pos < n then pos else n - 1
  }

  /** `repeatCharacter()` right after `next()` restores the cursor, provided
      `next()` was called with `hasNext` set. */
  lemma RepeatUndoesNext(n: nat, c: Cursor)
    requires CursorValid(n, c) && c.hasNext
    ensures CursorValid(n, Advance(n, c))
    ensures StepBack(Advance(n, c)) == c
  {
  }

  /** With `hasNext` off, `next()` leaves the cursor where it is (and reads
      the last scalar again), so `repeatCharacter()` after it does not restore
      the cursor. */
  lemma NextAtEndStays(n: nat, c: Cursor)
    requires CursorValid(n, c) && !c.hasNext
    ensures Advance(n, c) == c
    ensures StepBack(Advance(n, c)) != c
  {
  }

  /** In positions, `next()` moves one on, stopping at n, and
      `repeatCharacter()` moves one back; the index read is `IndexOf`. */
  lemma CursorPositions(n: nat, c: Cursor)
    requires CursorValid(n, c)
    ensures CursorValid(n, Advance(n, c))
    ensures Position(n, Advance(n, c)) == if Position(n, c) < n then Position(n, c) + 1 else n
    ensures c.index == IndexOf(n, Position(n, c))
    ensures Position(n, c) > 0 ==> (c.hasNext ==> c.index > 0)
    ensures Position(n, c) > 0 ==> CursorValid(n, StepBack(c)) && Position(n, StepBack(c)) == Position(n, c) - 1
  {
  }

  /** A valid cursor is determined by its position. */
  lemma PositionDeterminesCursor(n: nat, c: Cursor, d: Cursor)
    requires CursorValid(n, c) && CursorValid(n, d)
    requires Position(n, c) == Position(n, d)
    ensures c == d
  {
  }

  /** The number of line feeds in `s`. */
  function Newlines(s: seq<char>): nat {
    if |s| == 0 then 0 else Newlines(s[..|s| - 1]) + (if s[|s| - 1] == '\n' then 1 else 0)
  }

  /** `createError`: the index read at `pos`, its line (one more than the
      line feeds before it) and the scalar there. The source computes the
      column as the distance to the index minus the number of scalars before
      it, which is always 0. */
  function ErrorAt(data: seq<char>, pos: nat, message: Message): (e: JsonError)
    requires 0 < |data| && pos <= |data|
  {
    var i := IndexOf(|data|, pos);
    Parse(i, 1 + Newlines(data[..i]), 0, data[i], message)
  }

  // ------------------------------------------------------- specification

  /** A parsed value and the position after it. */
  datatype Parsed<T> = Parsed(value: T, pos: nat)

  function Fail<T>(data: seq<char>, pos: nat, message: Message): Result<Parsed<T>, JsonError>
    requires 0 < |data| && pos <= |data|
  {
    Failure(ErrorAt(data, pos, message))
  }

  /** `parse(data:)` on decoded scalars: empty input is null; otherwise one
      value and nothing after it but whitespace. */
  function ParseText(data: seq<char>): Result<Value, JsonError> {
    if |data| == 0 then Success(NullValue())
    else
      match ParseValue(data, 0)
      case Failure(e) => Failure(e)
      case Success(r) =>
        match Trailing(data, r.pos)
        case Some(e) => Failure(e)
        case None => Success(r.value)
  }

  /** The loop after the top-level value: the first non-whitespace scalar is
      an error, reported after `next()` has read it. */
  function Trailing(data: seq<char>, p: nat): Option<JsonError>
    requires 0 < |data| && p <= |data|
    decreases |data| - p
  {
    if p == |data| then None
    else if IsWhitespace(data[p]) then Trailing(data, p + 1)
    else Some(ErrorAt(data, p + 1, OnlyWhitespacesAtEnd))
  }

  /** `parseValue()`: skip whitespace, dispatch on the first scalar; anything
      unrecognised is stepped back over and read as a number. */
  function ParseValue(data: seq<char>, p: nat): (r: Result<Parsed<Value>, JsonError>)
    requires 0 < |data| && p <= |data|
    ensures r.Success? ==> p < r.value.pos <= |data|
    decreases |data| - p, 0
  {
    if p == |data| then Fail(data, p, UnexpectedEOF)
    else
      var c := data[p];
      if IsWhitespace(c) then ParseValue(data, p + 1)
      else if c == '"' then
        match ParseString(data, p + 1, "", false)
        case Failure(e) => Failure(e)
        case Success(s) => Success(Parsed(StringValue(s.value), s.pos))
      else if c == '{' then ParseDictionary(data, p + 1, DStart, map[], "")
      else if c == '[' then ParseArray(data, p + 1, AStart, [])
      else if c == 't' then ParseLiteral(data, p + 1, "rue", BoolValue(true))
      else if c == 'f' then ParseLiteral(data, p + 1, "alse", BoolValue(false))
      else if c == 'n' then ParseLiteral(data, p + 1, "ull", NullValue())
      else ParseNumber(data, p)
  }

  /** The scalar a two-character escape stands for, if it is one. */
  function ShortEscape(c: char): Option<char> {
    if c == '"' then Some('"')
    else if c == '\\' then Some('\\')
    else if c == '/' then Some('/')
    else if c == 'b' then Some(8 as char)
    else if c == 'f' then Some(12 as char)
    else if c == 'n' then Some('\n')
    else if c == 'r' then Some('\r')
    else if c == 't' then Some('\t')
    else None
  }

  /** The value of a hexadecimal digit, and 0 for any other scalar, as in the
      source, which adds nothing for a scalar that is not a hex digit. */
  function HexValue(c: char): (d: nat)
    ensures d < 16
  {
    if IsDigit(c) then DigitValue(c)
    else if 'A' <= c <= 'F' then c as int - 'A' as int + 10
    else if 'a' <= c <= 'f' then c as int - 'a' as int + 10
    else 0
  }

  /** Whether a code point is a Unicode scalar value (`UnicodeScalar(_)`
      succeeds). */
  predicate IsScalarValue(n: nat) {
    n < 0xD800 || 0xE000 <= n < 0x11_0000
  }

  /** The `\u` loop: `k` more scalars, each shifting `number` by one
      hexadecimal place; a missing scalar is an unexpected end. */
  function ParseHex(data: seq<char>, p: nat, number: nat, k: nat): (r: Result<Parsed<nat>, JsonError>)
    requires 0 < |data| && p <= |data|
    ensures r.Success? ==> r.value.pos == p + k <= |data|
    decreases k
  {
    if k == 0 then Success(Parsed(number, p))
    else if p == |data| then Fail(data, p, UnexpectedEOF)
    else ParseHex(data, p + 1, number * 16 + HexValue(data[p]), k - 1)
  }

  /** `parseString()` from position `p`, having collected `acc`, with
      `escaped` set after a backslash. */
  function ParseString(data: seq<char>, p: nat, acc: string, escaped: bool): (r: Result<Parsed<string>, JsonError>)
    requires 0 < |data| && p <= |data|
    ensures r.Success? ==> p < r.value.pos <= |data|
    decreases |data| - p
  {
    if p == |data| then Fail(data, p, UnexpectedEOF)
    else
      var c := data[p];
      if escaped then
        if c == 'u' then
          match ParseHex(data, p + 1, 0, 4)
          case Failure(e) => Failure(e)
          case Success(h) =>
            if IsScalarValue(h.value) then ParseString(data, h.pos, acc + [h.value as char], false)
            else Fail(data, h.pos, InvalidUnicodeCharacter(h.value))
        else
          match ShortEscape(c)
          case Some(d) => ParseString(data, p + 1, acc + [d], false)
          case None => Fail(data, p + 1, UnknownEscapedCharacter(c))
      else if c == '"' then Success(Parsed(acc, p + 1))
      else if c == '\\' then ParseString(data, p + 1, acc, true)
      else ParseString(data, p + 1, acc + [c], false)
  }

  /** The position after a `next()` that does not look at `hasNext`: past
      the end it stays put and reads the last scalar again. */
  function UncheckedNext(n: nat, p: nat): (q: nat)
    requires p <= n
    ensures q <= n
  {
    if p < n then p + 1 else n
  }

  /** `ensureExpectedCharacter`: the scalar read at `p` must be `expected`;
      the error is reported after the read. */
  function Expect(data: seq<char>, p: nat, expected: char): Option<JsonError>
    requires 0 < |data| && p <= |data|
  {
    var c := data[IndexOf(|data|, p)];
    if c == expected then None
    else Some(ErrorAt(data, UncheckedNext(|data|, p), UnexpectedCharacter(c, [expected])))
  }

  /** `ensureExpectedCharacter` for each scalar of `rest`, then `v`. */
  function ParseLiteral(data: seq<char>, p: nat, rest: string, v: Value): (r: Result<Parsed<Value>, JsonError>)
    requires 0 < |data| && p <= |data|
    ensures r.Success? ==> p <= r.value.pos <= |data| && r.value.value == v
    decreases |rest|
  {
    if |rest| == 0 then Success(Parsed(v, p))
    else
      match Expect(data, p, rest[0])
      case Some(e) => Failure(e)
      case None => ParseLiteral(data, UncheckedNext(|data|, p), rest[1..], v)
  }

  /** `DictionaryState` */
  datatype DictionaryState = DStart | DKey | DColon | DValue | DComma

  /** `parseDictionary()` from position `p` in `state`, having collected
      `acc`, with `nextKey` the last key read. */
  function ParseDictionary(data: seq<char>, p: nat, state: DictionaryState, acc: map<string, Value>, nextKey: string): (r: Result<Parsed<Value>, JsonError>)
    requires 0 < |data| && p <= |data|
    ensures r.Success? ==> p < r.value.pos <= |data|
    decreases |data| - p, 1
  {
    if p == |data| then Fail(data, p, UnexpectedEOF)
    else
      var c := data[p];
      if IsWhitespace(c) then ParseDictionary(data, p + 1, state, acc, nextKey)
      else if (state == DStart || state == DComma) && c == '"' then
        match ParseString(data, p + 1, "", false)
        case Failure(e) => Failure(e)
        case Success(k) => ParseDictionary(data, k.pos, DKey, acc, k.value)
      else if state == DKey && c == ':' then ParseDictionary(data, p + 1, DColon, acc, nextKey)
      else if state == DValue && c == ',' then ParseDictionary(data, p + 1, DComma, acc, nextKey)
      else if (state == DStart || state == DValue) && c == '}' then Success(Parsed(DictionaryValue(acc), p + 1))
      else if state != DColon then Fail(data, p + 1, UnexpectedCharacter(c, ['"', ':', ',', '}']))
      else
        match ParseValue(data, p)
        case Failure(e) => Failure(e)
        case Success(v) => ParseDictionary(data, v.pos, DValue, acc[nextKey := v.value], nextKey)
  }

  /** `ArrayState` */
  datatype ArrayState = AStart | AValue | AComma

  /** `parseArray()` from position `p` in `state`, having collected `acc`. */
  function ParseArray(data: seq<char>, p: nat, state: ArrayState, acc: seq<Value>): (r: Result<Parsed<Value>, JsonError>)
    requires 0 < |data| && p <= |data|
    ensures r.Success? ==> p < r.value.pos <= |data|
    decreases |data| - p, 1
  {
    if p == |data| then Fail(data, p, UnexpectedEOF)
    else
      var c := data[p];
      if IsWhitespace(c) then ParseArray(data, p + 1, state, acc)
      else if state == AValue && c == ',' then ParseArray(data, p + 1, AComma, acc)
      else if (state == AStart || state == AValue) && c == ']' then Success(Parsed(ArrayValue(acc), p + 1))
      else if state == AValue then Fail(data, p + 1, UnexpectedCharacter(c, [',', ']']))
      else
        match ParseValue(data, p)
        case Failure(e) => Failure(e)
        case Success(v) => ParseArray(data, v.pos, AValue, acc + [v.value])
  }

  /** `NumberState` */
  datatype NumberState = NStart | LeadingZero | IntPart | Dot | Fraction | E | ESign | Exponent

  /** The accumulators of `parseNumber()`: the digits read so far as an
      integer mantissa, how many of them follow the dot, and the exponent's
      digits. */
  datatype NumberAcc = NumberAcc(
    state: NumberState, negative: bool, negativeExponent: bool,
    mantissa: nat, fractionDigits: nat, exponent: nat)

  const NumberStart := NumberAcc(NStart, false, false, 0, 0, 0)

  /** One turn of the number loop's `switch`; `None` is its `default`, where
      the scalar is stepped back over and the loop ends. */
  function NumberStep(a: NumberAcc, c: char): Option<NumberAcc> {
    match a.state
    case NStart =>
      if c == '-' && !a.negative then Some(a.(negative := true))
      else if c == '0' then Some(a.(state := LeadingZero))
      else if IsDigit(c) then Some(a.(state := IntPart, mantissa := a.mantissa * 10 + DigitValue(c)))
      else None
    case IntPart =>
      if IsDigit(c) then Some(a.(mantissa := a.mantissa * 10 + DigitValue(c)))
      else if c == '.' then Some(a.(state := Dot))
      else if IsE(c) then Some(a.(state := E))
      else None
    case LeadingZero =>
      if c == '.' then Some(a.(state := Dot))
      else if IsE(c) then Some(a.(state := E))
      else None
    case Dot =>
      if IsDigit(c) then Some(a.(state := Fraction, mantissa := a.mantissa * 10 + DigitValue(c), fractionDigits := a.fractionDigits + 1))
      else None
    case Fraction =>
      if IsDigit(c) then Some(a.(mantissa := a.mantissa * 10 + DigitValue(c), fractionDigits := a.fractionDigits + 1))
      else if IsE(c) then Some(a.(state := E))
      else None
    case E =>
      if c == '-' then Some(a.(negativeExponent := true, state := ESign))
      else if c == '+' then Some(a.(state := ESign))
      else if IsDigit(c) then Some(a.(state := Exponent, exponent := a.exponent * 10 + DigitValue(c)))
      else None
    case ESign =>
      if IsDigit(c) then Some(a.(state := Exponent, exponent := a.exponent * 10 + DigitValue(c)))
      else None
    case Exponent =>
      if IsDigit(c) then Some(a.(exponent := a.exponent * 10 + DigitValue(c)))
      else None
  }

  /** The number loop from `p`: the accumulators where it stops and the
      position after the last scalar it took. */
  function NumberLoop(data: seq<char>, p: nat, a: NumberAcc): (r: (NumberAcc, nat))
    requires p <= |data|
    ensures p <= r.1 <= |data|
    ensures r.1 == p ==> r.0 == a
    decreases |data| - p
  {
    if p == |data| then (a, p)
    else
      match NumberStep(a, data[p])
      case None => (a, p)
      case Some(b) => NumberLoop(data, p + 1, b)
  }

  /** The states in which the number loop may not stop. */
  predicate Unfinished(s: NumberState) {
    s == NStart || s == Dot || s == E || s == ESign
  }

  /** The value of a finished number, composed exactly: an integral value is
      `intOrDouble`, any other a decimal double. */
  function ComposeNumber(a: NumberAcc): Value {
    var m := if a.negative then -(a.mantissa as int) else a.mantissa as int;
    var e := (if a.negativeExponent then -(a.exponent as int) else a.exponent as int) - a.fractionDigits;
    if e >= 0 then IntOrDoubleValue(m * Pow10(e))
    else if m % Pow10(-e) == 0 then IntOrDoubleValue(m / Pow10(-e))
    else DoubleValue(Finite(m, e))
  }

  /** `parseNumber()` at `p`. */
  function ParseNumber(data: seq<char>, p: nat): (r: Result<Parsed<Value>, JsonError>)
    requires 0 < |data| && p <= |data|
    ensures r.Success? ==> p < r.value.pos <= |data|
  {
    var (a, q) := NumberLoop(data, p, NumberStart);
    if Unfinished(a.state) then Fail(data, q, InvalidNumber)
    else Success(Parsed(ComposeNumber(a), q))
  }
}
