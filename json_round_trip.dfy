/** The writer and the parser together (Source/JsonSerializer/JsonWriter.swift
    and Source/JsonSerializer/JsonParser.swift): parsing what the writer
    produced for a tree without doubles gives the tree back, except that an
    `int` is read back as `intOrDouble`. */
module JsonRoundTrip {
  import opened Wrappers
  import opened SupportedTypes
  import opened JsonEscaping
  import opened JsonWriting
  import opened JsonParsing
  import opened JsonParserProperties

  /** No double anywhere in the tree: the text of a double is
      `Double.description`, which is not part of this model. */
  predicate DoubleFree(v: Value)
    decreases v
  {
    && v.kind != Double
    && (v.raw.Elements? ==> forall i :: 0 <= i < |v.raw.items| ==> DoubleFree(v.raw.items[i]))
    && (v.raw.Entries? ==> forall k :: k in v.raw.entries ==> DoubleFree(v.raw.entries[k]))
  }

  /** The tree the parser builds from the writer's text of `v`: every `int`
      becomes `intOrDouble`, everything else stays as it is. */
  function Normalize(v: Value): (w: Value)
    requires WellTagged(v)
    ensures w.kind == (if v.kind == Int then IntOrDouble else v.kind)
    ensures v.kind !in {Int, Array, Dictionary} ==> w == v
    decreases v, 1
  {
    match v.kind
    case Int => IntOrDoubleValue(v.raw.number)
    case Array => ArrayValue(NormalizedItems(v, |v.raw.items|))
    case Dictionary => DictionaryValue(map k | k in v.raw.entries :: Normalize(v.raw.entries[k]))
    case _ => v
  }

  /** The first `n` elements of an array, normalized. */
  function NormalizedItems(parent: Value, n: nat): (items: seq<Value>)
    requires WellTagged(parent) && parent.raw.Elements? && n <= |parent.raw.items|
    ensures |items| == n
    ensures forall j :: 0 <= j < n ==> items[j] == Normalize(parent.raw.items[j])
    decreases parent, 0, n
  {
    if n == 0 then [] else NormalizedItems(parent, n - 1) + [Normalize(parent.raw.items[n - 1])]
  }

  /** The dictionary the parser has built after the members of the first
      `n` of `keys`. */
  function Collected(parent: Value, keys: seq<string>, n: nat): map<string, Value>
    requires WellTagged(parent) && parent.raw.Entries? && n <= |keys|
    requires forall j :: 0 <= j < |keys| ==> keys[j] in parent.raw.entries
  {
    if n == 0 then map[]
    else Collected(parent, keys, n - 1)[keys[n - 1] := Normalize(parent.raw.entries[keys[n - 1]])]
  }

  /** Collecting the members of the first `n` keys builds a dictionary with
      exactly those keys, each bound to its normalized value. */
  lemma {:induction false} CollectedEntries(parent: Value, keys: seq<string>, n: nat)
    requires WellTagged(parent) && parent.raw.Entries? && n <= |keys|
    requires forall j :: 0 <= j < |keys| ==> keys[j] in parent.raw.entries
    ensures forall k :: k in Collected(parent, keys, n) <==> k in keys[..n]
    ensures forall k :: k in Collected(parent, keys, n) ==>
      k in parent.raw.entries && Collected(parent, keys, n)[k] == Normalize(parent.raw.entries[k])
  {
    if n > 0 {
      CollectedEntries(parent, keys, n - 1);
      assert keys[..n] == keys[..n - 1] + [keys[n - 1]];
    }
  }

  // ---------------------------------------------------------------- text

  /** One scalar of text placed in the input. */
  lemma {:induction false} AtIndex(data: seq<char>, p: nat, t: seq<char>, i: nat)
    requires At(data, p, t) && i < |t|
    ensures p + i < |data| && data[p + i] == t[i]
  {
  }

  /** The scalars the text of a value can start with. */
  predicate StartsValue(c: char) {
    c == '"' || c == '{' || c == '[' || c == 't' || c == 'f' || c == 'n' || c == '-' || IsDigit(c)
  }

  lemma {:induction false} ValueTextStarts(v: Value, describe: Float64 -> string)
    requires WellTagged(v) && DoubleFree(v)
    ensures |ValueText(v, describe)| > 0 && StartsValue(ValueText(v, describe)[0])
  {
    if v.kind == Int || v.kind == IntOrDouble {
      var n := v.raw.number;
      var m := if n < 0 then -n else n;
      NatTextDigits(m);
      assert |NatText(m)| > 0;
    }
  }

  /** The number the decimal text of `n` spells is `n`. */
  lemma {:induction false} NatTextValue(n: nat)
    ensures AllDigits(NatText(n)) && DigitsValue(NatText(n)) == n
    decreases n
  {
    NatTextDigits(n);
    if n >= 10 {
      NatTextValue(n / 10);
      var t := NatText(n / 10);
      assert (t + [DigitChar(n % 10)])[..|t|] == t;
    }
  }

  /** The writer's decimal text of an integer is read back as that integer. */
  lemma {:induction false} ParseWrittenInt(data: seq<char>, p: nat, n: int)
    requires 0 < |data| && At(data, p, IntText(n)) && Stops(data, p + |IntText(n)|)
    ensures ParseNumber(data, p) == Success(Parsed(IntOrDoubleValue(n), p + |IntText(n)|))
  {
    var m := if n < 0 then -n else n;
    NatTextValue(m);
    NatTextDigits(m);
    if n < 0 {
      AtConcat(data, p, "-", NatText(m));
      AtIndex(data, p, "-", 0);
    }
    IntegerLiteral(data, p, n < 0, NatText(m));
  }

  /** Escaping a non-empty text escapes its front, then its last scalar. */
  lemma {:induction false} EscapedLast(s: string, front: string, c: char)
    requires |s| > 0 && front == s[..|s| - 1] && c == s[|s| - 1]
    ensures Escaped(s) == Escaped(front) + EscapeRule(c)
  {
  }

  /** Concatenation of texts is associative. */
  lemma {:induction false} ConcatAssociative(x: string, y: string, z: string)
    ensures (x + y) + z == x + (y + z)
  {
  }

  /** Escaping a concatenation escapes each part. */
  lemma {:induction false} EscapedConcat(a: string, b: string)
    ensures Escaped(a + b) == Escaped(a) + Escaped(b)
    decreases |b|
  {
    if |b| == 0 {
      assert a + b == a;
    } else {
      var ab := a + b;
      var front := b[..|b| - 1];
      var c := b[|b| - 1];
      EscapedConcat(a, front);
      assert ab[..|ab| - 1] == a + front;
      EscapedLast(ab, a + front, c);
      EscapedLast(b, front, c);
      ConcatAssociative(Escaped(a), Escaped(front), EscapeRule(c));
    }
  }

  /** Escaping works scalar by scalar from the front as well. */
  lemma {:induction false} EscapedFront(s: string)
    requires |s| > 0
    ensures Escaped(s) == EscapeRule(s[0]) + Escaped(s[1..])
  {
    var head := [s[0]];
    EscapedConcat(head, s[1..]);
    assert head + s[1..] == s;
    assert head[..0] == [];
  }

  /** The parser reads a hexadecimal digit of the writer back as its value. */
  lemma {:induction false} HexDigitValue(d: nat)
    requires d < 16
    ensures HexValue(HexDigit(d)) == d
  {
  }

  /** The `\u00xx` escape of a scalar below U+00A1 is read back as it. */
  lemma {:induction false} ParseWrittenUnicodeEscape(data: seq<char>, q: nat, acc: string, c: char)
    requires c as int < 0xA1
    requires At(data, q, ['\\', 'u', '0', '0', HexDigit(c as int / 16), HexDigit(c as int % 16)])
    ensures ParseString(data, q, acc, false) == ParseString(data, q + 6, acc + [c], false)
  {
    var hi := c as int / 16;
    var lo := c as int % 16;
    var t := ['\\', 'u', '0', '0', HexDigit(hi), HexDigit(lo)];
    AtIndex(data, q, t, 0);
    AtIndex(data, q, t, 1);
    AtIndex(data, q, t, 2);
    AtIndex(data, q, t, 3);
    AtIndex(data, q, t, 4);
    AtIndex(data, q, t, 5);
    HexDigitValue(hi);
    HexDigitValue(lo);
    var cv: nat := c as int;
    assert ParseHex(data, q + 6, hi * 16 + lo, 0) == Success(Parsed(cv, q + 6));
    assert ParseHex(data, q + 5, hi, 1) == Success(Parsed(cv, q + 6));
    assert ParseHex(data, q + 2, 0, 4) == Success(Parsed(cv, q + 6));
  }

  /** The parser reads the escape of one scalar back as that scalar. */
  lemma {:induction false} ParseWrittenScalar(data: seq<char>, q: nat, acc: string, c: char)
    requires At(data, q, EscapeRule(c))
    ensures ParseString(data, q, acc, false) == ParseString(data, q + |EscapeRule(c)|, acc + [c], false)
  {
    var r := EscapeRule(c);
    AtIndex(data, q, r, 0);
    if |r| == 2 {
      AtIndex(data, q, r, 1);
    } else if |r| == 6 {
      ParseWrittenUnicodeEscape(data, q, acc, c);
    }
  }

  /** The pieces of text placed at `q`: the escape of the first scalar,
      then the rest. */
  lemma {:induction false} EscapedSplit(data: seq<char>, q: nat, s: string)
    requires |s| > 0 && At(data, q, Escaped(s) + "\"")
    ensures At(data, q, EscapeRule(s[0]))
    ensures At(data, q + |EscapeRule(s[0])|, Escaped(s[1..]) + "\"")
    ensures |Escaped(s)| == |EscapeRule(s[0])| + |Escaped(s[1..])|
  {
    EscapedFront(s);
    var r := EscapeRule(s[0]);
    var rest := Escaped(s[1..]) + "\"";
    assert Escaped(s) + "\"" == r + rest;
    AtConcat(data, q, r, rest);
  }

  /** The escaped text of `s` and a closing quote are read back as `s`. */
  lemma {:induction false} ParseWrittenEscaped(data: seq<char>, q: nat, acc: string, s: string)
    requires At(data, q, Escaped(s) + "\"")
    ensures ParseString(data, q, acc, false) == Success(Parsed(acc + s, q + |Escaped(s)| + 1))
    decreases |s|
  {
    if |s| == 0 {
      AtIndex(data, q, Escaped(s) + "\"", 0);
      assert acc + s == acc;
    } else {
      EscapedSplit(data, q, s);
      var c := s[0];
      ParseWrittenScalar(data, q, acc, c);
      ParseWrittenEscaped(data, q + |EscapeRule(c)|, acc + [c], s[1..]);
      assert acc + [c] + s[1..] == acc + s;
    }
  }

  /** The writer's text of a string is read back as that string. */
  lemma {:induction false} ParseWrittenString(data: seq<char>, p: nat, s: string)
    requires At(data, p, StringText(s))
    ensures ParseString(data, p + 1, "", false) == Success(Parsed(s, p + |StringText(s)|))
  {
    assert StringText(s) == "\"" + (Escaped(s) + "\"");
    AtConcat(data, p, "\"", Escaped(s) + "\"");
    ParseWrittenEscaped(data, p + 1, "", s);
    assert "" + s == s;
  }

  // ---------------------------------------------------------- placement

  /** What may follow a value inside the writer's text. */
  predicate Delimited(data: seq<char>, q: nat) {
    q >= |data| || data[q] == ',' || data[q] == ']' || data[q] == '}'
  }

  /** The writer's text of a value without doubles stands at `p`, followed
      by the end of the input or by what may follow a value. */
  ghost predicate ValuePlaced(data: seq<char>, p: nat, v: Value, describe: Float64 -> string) {
    && WellTagged(v) && DoubleFree(v) && p < |data|
    && At(data, p, ValueText(v, describe))
    && Delimited(data, p + |ValueText(v, describe)|)
  }

  /** The elements' text of an array without doubles stands at `s`,
      after its opening bracket and before its closing one. */
  ghost predicate ElementsPlaced(data: seq<char>, s: nat, v: Value, describe: Float64 -> string) {
    && WellTagged(v) && v.raw.Elements? && DoubleFree(v) && 0 < s
    && At(data, s, ElementsText(v, |v.raw.items|, describe))
    && s + |ElementsText(v, |v.raw.items|, describe)| < |data|
    && data[s + |ElementsText(v, |v.raw.items|, describe)|] == ']'
  }

  /** The members' text of a dictionary without doubles, in the order of
      `keys`, stands at `s`, after its opening brace and before its
      closing one. */
  ghost predicate MembersPlaced(data: seq<char>, s: nat, v: Value, keys: seq<string>, describe: Float64 -> string) {
    && WellTagged(v) && v.raw.Entries? && DoubleFree(v) && 0 < s
    && (forall j :: 0 <= j < |keys| ==> keys[j] in v.raw.entries)
    && At(data, s, MembersText(v, keys, |keys|, describe))
    && s + |MembersText(v, keys, |keys|, describe)| < |data|
    && data[s + |MembersText(v, keys, |keys|, describe)|] == '}'
  }

  /** An element after `k` others: a comma at `q` unless it is the first,
      then at `r` the first scalar of a value. */
  predicate ElementBegins(data: seq<char>, q: nat, k: nat, r: nat) {
    && q < |data| && r == q + |Separator(k)| && (k > 0 ==> data[q] == ',')
    && r < |data| && !IsWhitespace(data[r]) && data[r] != ']'
  }

  /** A member after `k` others: a comma at `q` unless it is the first, the
      key's string text, then at `c` a colon and the first scalar of a
      value. */
  predicate MemberBegins(data: seq<char>, q: nat, k: nat, r: nat, key: string, c: nat) {
    && q < |data| && (k > 0 ==> data[q] == ',') && r == q + |Separator(k)|
    && At(data, r, StringText(key))
    && c == r + |StringText(key)|
    && c + 1 < |data| && data[c] == ':' && !IsWhitespace(data[c + 1])
  }

  /** The element text of a shorter prefix of the array stands at the same
      place. */
  lemma {:induction false} ElementsAt(data: seq<char>, s: nat, v: Value, i: nat, n: nat, describe: Float64 -> string)
    requires WellTagged(v) && v.raw.Elements? && i <= n <= |v.raw.items|
    requires At(data, s, ElementsText(v, n, describe))
    ensures At(data, s, ElementsText(v, i, describe))
    decreases n
  {
    if i < n {
      var front := ElementsText(v, n - 1, describe) + Separator(n - 1);
      AtConcat(data, s, front, ValueText(v.raw.items[n - 1], describe));
      AtConcat(data, s, ElementsText(v, n - 1, describe), Separator(n - 1));
      ElementsAt(data, s, v, i, n - 1, describe);
    }
  }

  /** The text of the first `i` elements: the first `k = i - 1`, the
      separator, the value. */
  lemma {:induction false} ElementSplit(data: seq<char>, s: nat, v: Value, k: nat, i: nat, describe: Float64 -> string)
    requires WellTagged(v) && v.raw.Elements? && i == k + 1 && i <= |v.raw.items|
    requires At(data, s, ElementsText(v, i, describe))
    ensures var q := s + |ElementsText(v, k, describe)|;
      && At(data, q, Separator(k))
      && At(data, q + |Separator(k)|, ValueText(v.raw.items[k], describe))
      && |ElementsText(v, i, describe)| == |ElementsText(v, k, describe)| + |Separator(k)| + |ValueText(v.raw.items[k], describe)|
  {
    var front := ElementsText(v, k, describe) + Separator(k);
    assert ElementsText(v, i, describe) == front + ValueText(v.raw.items[k], describe);
    AtConcat(data, s, front, ValueText(v.raw.items[k], describe));
    AtConcat(data, s, ElementsText(v, k, describe), Separator(k));
  }

  /** After element `i - 1`: a comma, or the closing bracket after the
      last. */
  lemma {:induction false} ElementDelimited(data: seq<char>, s: nat, v: Value, i: nat, e: nat, describe: Float64 -> string)
    requires ElementsPlaced(data, s, v, describe) && 0 < i <= |v.raw.items|
    requires e == s + |ElementsText(v, i, describe)|
    ensures Delimited(data, e)
  {
    var n := |v.raw.items|;
    if i < n {
      ElementsAt(data, s, v, i + 1, n, describe);
      ElementSplit(data, s, v, i, i + 1, describe);
      assert Separator(i) == ",";
      AtIndex(data, e, Separator(i), 0);
    }
  }

  /** Where element `k` of an array stands, and what follows it. */
  lemma {:induction false} ElementSlot(data: seq<char>, s: nat, v: Value, k: nat, i: nat, describe: Float64 -> string) returns (q: nat, r: nat)
    requires ElementsPlaced(data, s, v, describe) && i == k + 1 && i <= |v.raw.items|
    ensures q == s + |ElementsText(v, k, describe)| && r == q + |Separator(k)|
    ensures q < |data| && (k > 0 ==> data[q] == ',')
    ensures At(data, r, ValueText(v.raw.items[k], describe))
    ensures r + |ValueText(v.raw.items[k], describe)| == s + |ElementsText(v, i, describe)|
  {
    ElementsAt(data, s, v, i, |v.raw.items|, describe);
    ElementSplit(data, s, v, k, i, describe);
    q := s + |ElementsText(v, k, describe)|;
    r := q + |Separator(k)|;
    if k > 0 {
      assert Separator(k) == ",";
      AtIndex(data, q, Separator(k), 0);
    }
  }

  /** An element's text after its separator, delimited: the first scalar
      of a value. */
  lemma {:induction false} ElementOpens(data: seq<char>, q: nat, k: nat, r: nat, v: Value, describe: Float64 -> string)
    requires WellTagged(v) && v.raw.Elements? && DoubleFree(v) && k < |v.raw.items|
    requires q < |data| && (k > 0 ==> data[q] == ',') && r == q + |Separator(k)|
    requires At(data, r, ValueText(v.raw.items[k], describe)) && Delimited(data, r + |ValueText(v.raw.items[k], describe)|)
    ensures ElementBegins(data, q, k, r) && ValuePlaced(data, r, v.raw.items[k], describe)
  {
    var item := v.raw.items[k];
    assert WellTagged(item) && DoubleFree(item);
    ValueTextStarts(item, describe);
    AtIndex(data, r, ValueText(item, describe), 0);
  }

  /** Element `i - 1` of an array in place. */
  lemma {:induction false} ElementFacts(data: seq<char>, s: nat, v: Value, k: nat, i: nat, describe: Float64 -> string) returns (q: nat, r: nat)
    requires ElementsPlaced(data, s, v, describe) && i == k + 1 && i <= |v.raw.items|
    ensures q == s + |ElementsText(v, k, describe)|
    ensures ElementBegins(data, q, k, r)
    ensures ValuePlaced(data, r, v.raw.items[k], describe)
    ensures r + |ValueText(v.raw.items[k], describe)| == s + |ElementsText(v, i, describe)|
    ensures q <= s + |ElementsText(v, i, describe)| <= |data|
  {
    q, r := ElementSlot(data, s, v, k, i, describe);
    ElementDelimited(data, s, v, i, r + |ValueText(v.raw.items[k], describe)|, describe);
    ElementOpens(data, q, k, r, v, describe);
  }

  /** The member text of a shorter prefix of the keys stands at the same
      place. */
  lemma {:induction false} MembersAt(data: seq<char>, s: nat, v: Value, keys: seq<string>, i: nat, n: nat, describe: Float64 -> string)
    requires WellTagged(v) && v.raw.Entries? && i <= n <= |keys|
    requires forall j :: 0 <= j < |keys| ==> keys[j] in v.raw.entries
    requires At(data, s, MembersText(v, keys, n, describe))
    ensures At(data, s, MembersText(v, keys, i, describe))
    decreases n
  {
    if i < n {
      var front := MembersText(v, keys, n - 1, describe) + Separator(n - 1);
      AtConcat(data, s, front, MemberText(v, keys[n - 1], describe));
      AtConcat(data, s, MembersText(v, keys, n - 1, describe), Separator(n - 1));
      MembersAt(data, s, v, keys, i, n - 1, describe);
    }
  }

  /** The text of the first `i` members: the first `k = i - 1`, the
      separator, the member. */
  lemma {:induction false} MemberSplit(data: seq<char>, s: nat, v: Value, keys: seq<string>, k: nat, i: nat, describe: Float64 -> string)
    requires WellTagged(v) && v.raw.Entries? && i == k + 1 && i <= |keys|
    requires forall j :: 0 <= j < |keys| ==> keys[j] in v.raw.entries
    requires At(data, s, MembersText(v, keys, i, describe))
    ensures var q := s + |MembersText(v, keys, k, describe)|;
      && At(data, q, Separator(k))
      && At(data, q + |Separator(k)|, MemberText(v, keys[k], describe))
      && |MembersText(v, keys, i, describe)| == |MembersText(v, keys, k, describe)| + |Separator(k)| + |MemberText(v, keys[k], describe)|
  {
    var front := MembersText(v, keys, k, describe) + Separator(k);
    assert MembersText(v, keys, i, describe) == front + MemberText(v, keys[k], describe);
    AtConcat(data, s, front, MemberText(v, keys[k], describe));
    AtConcat(data, s, MembersText(v, keys, k, describe), Separator(k));
  }

  /** One member's text: the key, the colon, the value. */
  lemma {:induction false} MemberPieces(data: seq<char>, r: nat, v: Value, key: string, describe: Float64 -> string)
    requires WellTagged(v) && v.raw.Entries? && key in v.raw.entries
    requires At(data, r, MemberText(v, key, describe))
    ensures var c := r + |StringText(key)|;
      && At(data, r, StringText(key)) && At(data, c, ":")
      && At(data, c + 1, ValueText(v.raw.entries[key], describe))
      && |MemberText(v, key, describe)| == |StringText(key)| + 1 + |ValueText(v.raw.entries[key], describe)|
  {
    AtConcat(data, r, StringText(key) + ":", ValueText(v.raw.entries[key], describe));
    AtConcat(data, r, StringText(key), ":");
  }

  /** After member `i - 1`: a comma, or the closing brace after the last. */
  lemma {:induction false} MemberDelimited(data: seq<char>, s: nat, v: Value, keys: seq<string>, i: nat, e: nat, describe: Float64 -> string)
    requires MembersPlaced(data, s, v, keys, describe) && 0 < i <= |keys|
    requires e == s + |MembersText(v, keys, i, describe)|
    ensures Delimited(data, e)
  {
    var n := |keys|;
    if i < n {
      MembersAt(data, s, v, keys, i + 1, n, describe);
      MemberSplit(data, s, v, keys, i, i + 1, describe);
      AtIndex(data, s + |MembersText(v, keys, i, describe)|, Separator(i), 0);
    }
  }

  /** Where member `k` of a dictionary stands, and what follows it. */
  lemma {:induction false} MemberSlot(data: seq<char>, s: nat, v: Value, keys: seq<string>, k: nat, i: nat, describe: Float64 -> string) returns (q: nat, r: nat)
    requires MembersPlaced(data, s, v, keys, describe) && i == k + 1 && i <= |keys|
    ensures q == s + |MembersText(v, keys, k, describe)| && r == q + |Separator(k)|
    ensures q < |data| && (k > 0 ==> data[q] == ',')
    ensures At(data, r, MemberText(v, keys[k], describe))
    ensures r + |MemberText(v, keys[k], describe)| == s + |MembersText(v, keys, i, describe)|
  {
    var n := |keys|;
    MembersAt(data, s, v, keys, i, n, describe);
    MemberSplit(data, s, v, keys, k, i, describe);
    q := s + |MembersText(v, keys, k, describe)|;
    r := q + |Separator(k)|;
    if k > 0 {
      AtIndex(data, q, Separator(k), 0);
    }
  }

  /** A member's text after its separator: the key, the colon and the
      first scalar of the value. */
  lemma {:induction false} MemberOpens(data: seq<char>, q: nat, k: nat, r: nat, v: Value, key: string, describe: Float64 -> string) returns (c: nat)
    requires WellTagged(v) && v.raw.Entries? && DoubleFree(v) && key in v.raw.entries
    requires q < |data| && (k > 0 ==> data[q] == ',') && r == q + |Separator(k)|
    requires At(data, r, MemberText(v, key, describe))
    ensures MemberBegins(data, q, k, r, key, c)
    ensures At(data, c + 1, ValueText(v.raw.entries[key], describe))
    ensures c + 1 + |ValueText(v.raw.entries[key], describe)| == r + |MemberText(v, key, describe)|
  {
    var value := v.raw.entries[key];
    MemberPieces(data, r, v, key, describe);
    c := r + |StringText(key)|;
    AtIndex(data, c, ":", 0);
    ValueTextStarts(value, describe);
    AtIndex(data, c + 1, ValueText(value, describe), 0);
  }

  /** The key and the colon of member `k` of a dictionary in place. */
  lemma {:induction false} MemberKey(data: seq<char>, s: nat, v: Value, keys: seq<string>, k: nat, i: nat, describe: Float64 -> string) returns (q: nat, r: nat, c: nat)
    requires MembersPlaced(data, s, v, keys, describe) && i == k + 1 && i <= |keys|
    ensures q == s + |MembersText(v, keys, k, describe)|
    ensures MemberBegins(data, q, k, r, keys[k], c)
    ensures At(data, c + 1, ValueText(v.raw.entries[keys[k]], describe))
    ensures c + 1 + |ValueText(v.raw.entries[keys[k]], describe)| == s + |MembersText(v, keys, i, describe)|
  {
    q, r := MemberSlot(data, s, v, keys, k, i, describe);
    c := MemberOpens(data, q, k, r, v, keys[k], describe);
  }

  /** Member `k` in place: its key, its colon and its value, delimited. */
  lemma {:induction false} MemberFacts(data: seq<char>, s: nat, v: Value, keys: seq<string>, k: nat, i: nat, describe: Float64 -> string) returns (q: nat, r: nat, c: nat)
    requires MembersPlaced(data, s, v, keys, describe) && i == k + 1 && i <= |keys|
    ensures q == s + |MembersText(v, keys, k, describe)|
    ensures MemberBegins(data, q, k, r, keys[k], c)
    ensures ValuePlaced(data, c + 1, v.raw.entries[keys[k]], describe)
    ensures c + 1 + |ValueText(v.raw.entries[keys[k]], describe)| == s + |MembersText(v, keys, i, describe)|
  {
    q, r, c := MemberKey(data, s, v, keys, k, i, describe);
    var value := v.raw.entries[keys[k]];
    var e := c + 1 + |ValueText(value, describe)|;
    MemberDelimited(data, s, v, keys, i, e, describe);
  }

  /** The brackets of an array's text and the elements between them. */
  lemma {:induction false} ArrayParts(data: seq<char>, p: nat, v: Value, describe: Float64 -> string)
    requires ValuePlaced(data, p, v, describe) && v.kind == Array
    ensures v.raw.Elements? && data[p] == '['
    ensures ElementsPlaced(data, p + 1, v, describe)
    ensures |ValueText(v, describe)| == |ElementsText(v, |v.raw.items|, describe)| + 2
  {
    var all := ElementsText(v, |v.raw.items|, describe);
    assert ValueText(v, describe) == ArrayText(v, describe) == "[" + all + "]";
    Braced(data, p, '[', all, ']');
  }

  /** The keys a dictionary's text is written in. */
  lemma {:induction false} DictionaryTextKeys(v: Value, describe: Float64 -> string) returns (keys: seq<string>)
    requires WellTagged(v) && v.kind == Dictionary
    ensures v.raw.Entries? && keys == SortedKeys(v.raw.entries.Keys)
    ensures forall j :: 0 <= j < |keys| ==> keys[j] in v.raw.entries
    ensures ValueText(v, describe) == "{" + MembersText(v, keys, |keys|, describe) + "}"
  {
    keys := SortedKeys(v.raw.entries.Keys);
    SortedKeysMembers(v.raw.entries.Keys);
    assert ValueText(v, describe) == DictionaryText(v, describe);
  }

  /** The braces of a dictionary's text and the members between them. */
  lemma {:induction false} DictionaryParts(data: seq<char>, p: nat, v: Value, describe: Float64 -> string) returns (keys: seq<string>)
    requires ValuePlaced(data, p, v, describe) && v.kind == Dictionary
    ensures v.raw.Entries? && data[p] == '{' && keys == SortedKeys(v.raw.entries.Keys)
    ensures MembersPlaced(data, p + 1, v, keys, describe)
    ensures |ValueText(v, describe)| == |MembersText(v, keys, |keys|, describe)| + 2
  {
    keys := DictionaryTextKeys(v, describe);
    var all := MembersText(v, keys, |keys|, describe);
    assert At(data, p, ['{'] + all + ['}']);
    Braced(data, p, '{', all, '}');
  }

  /** A text in brackets or braces: the opening scalar, the text after it,
      the closing scalar after that. */
  lemma {:induction false} Braced(data: seq<char>, p: nat, open: char, inner: string, close: char)
    requires At(data, p, [open] + inner + [close])
    ensures p + 1 + |inner| < |data| && data[p] == open && data[p + 1 + |inner|] == close
    ensures At(data, p + 1, inner)
  {
    AtConcat(data, p, [open] + inner, [close]);
    AtConcat(data, p, [open], inner);
    AtIndex(data, p, [open], 0);
    AtIndex(data, p + 1 + |inner|, [close], 0);
  }

  // ------------------------------------------------------------- values

  /** The writer's text of `true`, `false` or `null`, read back. */
  lemma {:induction false} ParseWrittenLiteral(data: seq<char>, p: nat, v: Value, describe: Float64 -> string)
    requires ValuePlaced(data, p, v, describe) && (v.kind == Bool || v.kind == Null)
    ensures ParseValue(data, p) == Success(Parsed(Normalize(v), p + |ValueText(v, describe)|))
  {
    var t := ValueText(v, describe);
    AtIndex(data, p, t, 0);
    AtIndex(data, p, t, 1);
    AtIndex(data, p, t, 2);
    AtIndex(data, p, t, 3);
    if v.kind == Bool && !v.raw.truth {
      AtIndex(data, p, t, 4);
    }
  }

  /** The writer's text of a number, read back. */
  lemma {:induction false} ParseWrittenNumber(data: seq<char>, p: nat, v: Value, describe: Float64 -> string)
    requires ValuePlaced(data, p, v, describe) && (v.kind == Int || v.kind == IntOrDouble)
    ensures ParseValue(data, p) == Success(Parsed(Normalize(v), p + |ValueText(v, describe)|))
  {
    var t := IntText(v.raw.number);
    ValueTextStarts(v, describe);
    AtIndex(data, p, t, 0);
    ParseWrittenInt(data, p, v.raw.number);
  }

  /** The writer's text of a value without doubles, followed by the end of
      the input or by what may follow a value, is read back as the
      normalized value. */
  lemma {:induction false} ParseWrittenValue(data: seq<char>, p: nat, v: Value, describe: Float64 -> string)
    requires ValuePlaced(data, p, v, describe)
    ensures ParseValue(data, p) == Success(Parsed(Normalize(v), p + |ValueText(v, describe)|))
    decreases v, 2
  {
    match v.kind
    case String =>
      AtIndex(data, p, StringText(v.raw.text), 0);
      ParseWrittenString(data, p, v.raw.text);
    case Int =>
      ParseWrittenNumber(data, p, v, describe);
    case IntOrDouble =>
      ParseWrittenNumber(data, p, v, describe);
    case Bool =>
      ParseWrittenLiteral(data, p, v, describe);
    case Null =>
      ParseWrittenLiteral(data, p, v, describe);
    case Array =>
      ParseWrittenArray(data, p, v, describe);
    case Dictionary =>
      ParseWrittenDictionary(data, p, v, describe);
  }

  // -------------------------------------------------------------- arrays

  /** The array loop's state after `n` elements. */
  function ArrayLoopState(n: nat): ArrayState {
    if n == 0 then AStart else AValue
  }

  /** One more element: the normalized items after it. */
  lemma {:induction false} ItemsStep(v: Value, k: nat, i: nat)
    requires WellTagged(v) && v.raw.Elements? && i == k + 1 && i <= |v.raw.items|
    ensures NormalizedItems(v, i) == NormalizedItems(v, k) + [Normalize(v.raw.items[k])]
  {
  }

  /** The array loop reads one more element: the comma before it unless it
      is the first, then its value. */
  lemma {:induction false} ArrayElementStep(data: seq<char>, q: nat, k: nat, r: nat, acc: seq<Value>, w: Value, e: nat)
    requires ElementBegins(data, q, k, r) && ParseValue(data, r) == Success(Parsed(w, e))
    ensures ParseArray(data, q, ArrayLoopState(k), acc) == ParseArray(data, e, AValue, acc + [w])
  {
    if k > 0 {
      assert ParseArray(data, q, AValue, acc) == ParseArray(data, r, AComma, acc);
    }
  }

  /** The array loop reads one element of the writer's text: the comma
      before it unless it is the first, then its value, normalized. */
  lemma {:induction false} ElementStep(data: seq<char>, q: nat, v: Value, k: nat, i: nat, r: nat, e: nat, describe: Float64 -> string)
    requires WellTagged(v) && v.raw.Elements? && i == k + 1 && i <= |v.raw.items|
    requires ElementBegins(data, q, k, r) && ValuePlaced(data, r, v.raw.items[k], describe)
    requires e == r + |ValueText(v.raw.items[k], describe)|
    ensures ParseArray(data, q, ArrayLoopState(k), NormalizedItems(v, k)) == ParseArray(data, e, ArrayLoopState(i), NormalizedItems(v, i))
    decreases v, 0, i, 0
  {
    var item := v.raw.items[k];
    ParseWrittenValue(data, r, item, describe);
    ArrayElementStep(data, q, k, r, NormalizedItems(v, k), Normalize(item), e);
    ItemsStep(v, k, i);
  }

  /** After the first `i` elements the array loop has collected them,
      normalized, and stands after their text. */
  lemma {:induction false} ParseWrittenElements(data: seq<char>, s: nat, v: Value, i: nat, describe: Float64 -> string)
    requires ElementsPlaced(data, s, v, describe) && i <= |v.raw.items|
    ensures s + |ElementsText(v, i, describe)| <= |data|
    ensures ParseArray(data, s, AStart, [])
         == ParseArray(data, s + |ElementsText(v, i, describe)|, ArrayLoopState(i), NormalizedItems(v, i))
    decreases v, 0, i
  {
    ElementsAt(data, s, v, i, |v.raw.items|, describe);
    if i > 0 {
      var k := i - 1;
      ParseWrittenElements(data, s, v, k, describe);
      var q, r := ElementFacts(data, s, v, k, i, describe);
      ElementStep(data, q, v, k, i, r, s + |ElementsText(v, i, describe)|, describe);
    }
  }

  /** An opening bracket starts the array loop. */
  lemma {:induction false} ArrayOpens(data: seq<char>, p: nat)
    requires p < |data| && data[p] == '['
    ensures ParseValue(data, p) == ParseArray(data, p + 1, AStart, [])
  {
  }

  /** A closing bracket after no element or after an element ends the
      array loop with what it has collected. */
  lemma {:induction false} ArrayCloses(data: seq<char>, e: nat, state: ArrayState, acc: seq<Value>)
    requires e < |data| && data[e] == ']' && state != AComma
    ensures ParseArray(data, e, state, acc) == Success(Parsed(ArrayValue(acc), e + 1))
  {
  }

  /** The writer's text of an array is read back as the normalized array. */
  lemma {:induction false} ParseWrittenArray(data: seq<char>, p: nat, v: Value, describe: Float64 -> string)
    requires ValuePlaced(data, p, v, describe) && v.kind == Array
    ensures ParseValue(data, p) == Success(Parsed(Normalize(v), p + |ValueText(v, describe)|))
    decreases v, 1
  {
    ArrayParts(data, p, v, describe);
    var n := |v.raw.items|;
    var e := p + 1 + |ElementsText(v, n, describe)|;
    ParseWrittenElements(data, p + 1, v, n, describe);
    ArrayOpens(data, p);
    ArrayCloses(data, e, ArrayLoopState(n), NormalizedItems(v, n));
  }

  // -------------------------------------------------------- dictionaries

  /** The dictionary loop's state after `n` members. */
  function LoopState(n: nat): DictionaryState {
    if n == 0 then DStart else DValue
  }

  /** The key the dictionary loop last read after `n` members. */
  function LastKey(keys: seq<string>, n: nat): string
    requires n <= |keys|
  {
    if n == 0 then "" else keys[n - 1]
  }

  /** The dictionary loop reads a member's separator, key and colon. */
  lemma {:induction false} MemberKeyStep(data: seq<char>, q: nat, k: nat, r: nat, key: string, c: nat, acc: map<string, Value>, nextKey: string)
    requires MemberBegins(data, q, k, r, key, c)
    ensures ParseDictionary(data, q, LoopState(k), acc, nextKey) == ParseDictionary(data, c + 1, DColon, acc, key)
  {
    if k > 0 {
      DictionaryComma(data, q, acc, nextKey);
    }
    DictionaryKey(data, r, key, c, if k == 0 then DStart else DComma, acc, nextKey);
    DictionaryColon(data, c, acc, key);
  }

  /** After a value, a comma makes the dictionary loop expect a key. */
  lemma {:induction false} DictionaryComma(data: seq<char>, q: nat, acc: map<string, Value>, nextKey: string)
    requires q < |data| && data[q] == ','
    ensures ParseDictionary(data, q, DValue, acc, nextKey) == ParseDictionary(data, q + 1, DComma, acc, nextKey)
  {
  }

  /** Where a key may stand, the writer's text of a key is read as the
      next key. */
  lemma {:induction false} DictionaryKey(data: seq<char>, r: nat, key: string, c: nat, state: DictionaryState, acc: map<string, Value>, nextKey: string)
    requires state == DStart || state == DComma
    requires At(data, r, StringText(key)) && c == r + |StringText(key)| && c < |data|
    ensures ParseDictionary(data, r, state, acc, nextKey) == ParseDictionary(data, c, DKey, acc, key)
  {
    AtIndex(data, r, StringText(key), 0);
    ParseWrittenString(data, r, key);
  }

  /** After a key, a colon makes the dictionary loop expect a value. */
  lemma {:induction false} DictionaryColon(data: seq<char>, c: nat, acc: map<string, Value>, key: string)
    requires c < |data| && data[c] == ':'
    ensures ParseDictionary(data, c, DKey, acc, key) == ParseDictionary(data, c + 1, DColon, acc, key)
  {
  }

  /** After the colon, the dictionary loop reads the member's value. */
  lemma {:induction false} MemberValueStep(data: seq<char>, c: nat, value: Value, acc: map<string, Value>, key: string, describe: Float64 -> string)
    requires ValuePlaced(data, c + 1, value, describe) && !IsWhitespace(data[c + 1])
    ensures ParseDictionary(data, c + 1, DColon, acc, key)
         == ParseDictionary(data, c + 1 + |ValueText(value, describe)|, DValue, acc[key := Normalize(value)], key)
    decreases value, 3
  {
    ParseWrittenValue(data, c + 1, value, describe);
  }

  /** The dictionary loop reads one member: the comma before it unless it
      is the first, the key, the colon and the value. */
  lemma {:induction false} MemberStep(data: seq<char>, q: nat, k: nat, r: nat, key: string, c: nat, value: Value,
                   acc: map<string, Value>, nextKey: string, describe: Float64 -> string)
    requires MemberBegins(data, q, k, r, key, c) && ValuePlaced(data, c + 1, value, describe)
    ensures ParseDictionary(data, q, LoopState(k), acc, nextKey)
         == ParseDictionary(data, c + 1 + |ValueText(value, describe)|, DValue, acc[key := Normalize(value)], key)
    decreases value, 4
  {
    MemberKeyStep(data, q, k, r, key, c, acc, nextKey);
    MemberValueStep(data, c, value, acc, key, describe);
  }

  /** One more member: the loop's state, last key and collection after it. */
  lemma {:induction false} CollectedStep(v: Value, keys: seq<string>, k: nat, i: nat)
    requires WellTagged(v) && v.raw.Entries? && i == k + 1 && i <= |keys|
    requires forall j :: 0 <= j < |keys| ==> keys[j] in v.raw.entries
    ensures Collected(v, keys, i) == Collected(v, keys, k)[keys[k] := Normalize(v.raw.entries[keys[k]])]
    ensures LastKey(keys, i) == keys[k] && LoopState(i) == DValue
  {
  }

  /** The dictionary loop reads member `k` of the writer's text. */
  lemma {:induction false} ParseWrittenMember(data: seq<char>, s: nat, v: Value, keys: seq<string>, k: nat, i: nat, describe: Float64 -> string)
    requires MembersPlaced(data, s, v, keys, describe) && i == k + 1 && i <= |keys|
    ensures s + |MembersText(v, keys, k, describe)| <= s + |MembersText(v, keys, i, describe)| <= |data|
    ensures ParseDictionary(data, s + |MembersText(v, keys, k, describe)|, LoopState(k), Collected(v, keys, k), LastKey(keys, k))
         == ParseDictionary(data, s + |MembersText(v, keys, i, describe)|, LoopState(i), Collected(v, keys, i), LastKey(keys, i))
    decreases v, 0, i, 0
  {
    var q, r, c := MemberFacts(data, s, v, keys, k, i, describe);
    MemberStep(data, q, k, r, keys[k], c, v.raw.entries[keys[k]], Collected(v, keys, k), LastKey(keys, k), describe);
    CollectedStep(v, keys, k, i);
  }

  /** After the first `i` members the dictionary loop has collected them,
      normalized, and stands after their text. */
  lemma {:induction false} ParseWrittenMembers(data: seq<char>, s: nat, v: Value, keys: seq<string>, i: nat, describe: Float64 -> string)
    requires MembersPlaced(data, s, v, keys, describe) && i <= |keys|
    ensures s + |MembersText(v, keys, i, describe)| <= |data|
    ensures ParseDictionary(data, s, DStart, map[], "")
         == ParseDictionary(data, s + |MembersText(v, keys, i, describe)|, LoopState(i), Collected(v, keys, i), LastKey(keys, i))
    decreases v, 0, i
  {
    MembersAt(data, s, v, keys, i, |keys|, describe);
    if i > 0 {
      var k := i - 1;
      ParseWrittenMembers(data, s, v, keys, k, describe);
      ParseWrittenMember(data, s, v, keys, k, i, describe);
    }
  }

  /** An opening brace starts the dictionary loop. */
  lemma {:induction false} DictionaryOpens(data: seq<char>, p: nat)
    requires p < |data| && data[p] == '{'
    ensures ParseValue(data, p) == ParseDictionary(data, p + 1, DStart, map[], "")
  {
  }

  /** A closing brace after no member or after a member's value ends the
      dictionary loop with what it has collected. */
  lemma {:induction false} DictionaryCloses(data: seq<char>, e: nat, n: nat, acc: map<string, Value>, key: string)
    requires e < |data| && data[e] == '}'
    ensures ParseDictionary(data, e, LoopState(n), acc, key) == Success(Parsed(DictionaryValue(acc), e + 1))
  {
  }

  /** Collecting the members of all the keys the writer wrote builds the
      normalized dictionary. */
  lemma {:induction false} CollectedAll(v: Value, keys: seq<string>)
    requires WellTagged(v) && v.kind == Dictionary && v.raw.Entries?
    requires forall k :: k in keys <==> k in v.raw.entries
    ensures Normalize(v) == DictionaryValue(Collected(v, keys, |keys|))
  {
    var n := |keys|;
    CollectedEntries(v, keys, n);
    assert keys[..n] == keys;
    assert Collected(v, keys, n) == map k | k in v.raw.entries :: Normalize(v.raw.entries[k]);
  }

  /** The members of a dictionary, collected in the order the writer
      writes its keys, make up the normalized dictionary. */
  lemma {:induction false} DictionaryCollected(v: Value, keys: seq<string>)
    requires WellTagged(v) && v.kind == Dictionary && v.raw.Entries?
    requires keys == SortedKeys(v.raw.entries.Keys)
    requires forall j :: 0 <= j < |keys| ==> keys[j] in v.raw.entries
    ensures Normalize(v) == DictionaryValue(Collected(v, keys, |keys|))
  {
    SortedKeysMembers(v.raw.entries.Keys);
    CollectedAll(v, keys);
  }

  /** Members in place between braces are read back as the dictionary of
      their normalized values. */
  lemma {:induction false} ParseWrittenMembersInBraces(data: seq<char>, p: nat, v: Value, keys: seq<string>, describe: Float64 -> string)
    requires p < |data| && data[p] == '{'
    requires MembersPlaced(data, p + 1, v, keys, describe)
    ensures ParseValue(data, p) == Success(Parsed(DictionaryValue(Collected(v, keys, |keys|)), p + 1 + |MembersText(v, keys, |keys|, describe)| + 1))
    decreases v, 1, 0
  {
    var n := |keys|;
    var e := p + 1 + |MembersText(v, keys, n, describe)|;
    ParseWrittenMembers(data, p + 1, v, keys, n, describe);
    DictionaryInBraces(data, p, e, n, Collected(v, keys, n), LastKey(keys, n));
  }

  /** A dictionary loop that runs from after the opening brace at `p` to
      the closing one at `e` reads the dictionary it has collected. */
  lemma {:induction false} DictionaryInBraces(data: seq<char>, p: nat, e: nat, n: nat, acc: map<string, Value>, key: string)
    requires p < e < |data| && data[p] == '{' && data[e] == '}'
    requires ParseDictionary(data, p + 1, DStart, map[], "") == ParseDictionary(data, e, LoopState(n), acc, key)
    ensures ParseValue(data, p) == Success(Parsed(DictionaryValue(acc), e + 1))
  {
    DictionaryOpens(data, p);
    DictionaryCloses(data, e, n, acc, key);
  }

  /** The writer's text of a dictionary is read back as the normalized
      dictionary. */
  lemma {:induction false} ParseWrittenDictionary(data: seq<char>, p: nat, v: Value, describe: Float64 -> string)
    requires ValuePlaced(data, p, v, describe) && v.kind == Dictionary
    ensures ParseValue(data, p) == Success(Parsed(Normalize(v), p + |ValueText(v, describe)|))
    decreases v, 1
  {
    var keys := DictionaryParts(data, p, v, describe);
    ParseWrittenMembersInBraces(data, p, v, keys, describe);
    DictionaryCollected(v, keys);
  }

  // ----------------------------------------------------------- top level

  /** What the writer writes for a tree without doubles, the parser reads
      back as the tree with every `int` turned into `intOrDouble`; a
      top-level null is written as nothing and read back from nothing. */
  lemma {:induction false} WrittenTextParses(v: Value, describe: Float64 -> string)
    requires WellTagged(v) && DoubleFree(v)
    ensures ParseText(TopLevelText(v, describe)) == Success(Normalize(v))
  {
    if v.kind != Null {
      var data := ValueText(v, describe);
      ValueTextStarts(v, describe);
      assert At(data, 0, data);
      ParseWrittenValue(data, 0, v, describe);
    }
  }
}
