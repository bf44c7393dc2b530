/** The JSON writer (Source/JsonSerializer/JsonWriter.swift): it appends the
    text of a value tree to `result`, escaping strings through a fixed table
    of the first 161 scalars. */
module JsonWriting {
  import opened Wrappers
  import opened SupportedTypes
  import opened JsonEscaping

  /** The escaped scalars of `s`, in order. */
  function Escaped(s: string): string
    decreases |s|
  {
    if |s| == 0 then "" else Escaped(s[..|s| - 1]) + EscapeRule(s[|s| - 1])
  }

  lemma EscapedAppend(prefix: string, s: string, i: nat)
    requires i < |s|
    ensures prefix + Escaped(s[..i + 1]) == prefix + Escaped(s[..i]) + EscapeRule(s[i])
  {
    assert s[..i + 1][..i] == s[..i];
  }

  lemma StringClosed(prefix: string, s: string)
    ensures prefix + "\"" + Escaped(s[..|s|]) + "\"" == prefix + StringText(s)
  {
    assert s[..|s|] == s;
  }

  /** `serialize(string:)` */
  function StringText(s: string): string {
    "\"" + Escaped(s) + "\""
  }

  /** A decimal digit. */
  function DigitChar(d: nat): (c: char)
    requires d < 10
    ensures '0' <= c <= '9' && c as int - '0' as int == d
  {
    ('0' as int + d) as char
  }

  /** The decimal digits of `n`, most significant first. */
  function NatText(n: nat): string
    decreases n
  {
    if n < 10 then [DigitChar(n)] else NatText(n / 10) + [DigitChar(n % 10)]
  }

  /** The decimal text is all digits, with no leading zero. */
  lemma {:induction false} NatTextDigits(n: nat)
    ensures forall i :: 0 <= i < |NatText(n)| ==> '0' <= NatText(n)[i] <= '9'
    ensures n > 0 ==> NatText(n)[0] != '0'
    ensures n == 0 ==> NatText(n) == "0"
    decreases n
  {
    if n >= 10 {
      NatTextDigits(n / 10);
    }
  }

  /** `Int.description` */
  function IntText(n: int): string {
    if n < 0 then "-" + NatText(-n) else NatText(n)
  }

  /** `serialize(double:)`: `describe` is `Double.description`. */
  function DoubleText(d: Float64, describe: Float64 -> string): string {
    if d.NaN? || d.Infinity? then "null" else describe(d)
  }

  /** `serialize(bool:)` */
  function BoolText(b: bool): string {
    if b then "true" else "false"
  }

  // Dictionary keys are written in ascending code-point order, one fixed
  // order among the many a Swift dictionary may iterate in.

  /** Lexicographic order on strings by code point. */
  predicate Below(a: string, b: string)
    decreases |a|
  {
    |b| > 0 && (|a| == 0 || a[0] < b[0] || (a[0] == b[0] && Below(a[1..], b[1..])))
  }

  lemma {:induction false} BelowIrreflexive(a: string)
    ensures !Below(a, a)
    decreases |a|
  {
    if |a| > 0 {
      BelowIrreflexive(a[1..]);
    }
  }

  lemma {:induction false} BelowTransitive(a: string, b: string, c: string)
    requires Below(a, b) && Below(b, c)
    ensures Below(a, c)
    decreases |a|
  {
    if |a| > 0 && a[0] == b[0] && b[0] == c[0] {
      BelowTransitive(a[1..], b[1..], c[1..]);
    }
  }

  lemma {:induction false} BelowTotal(a: string, b: string)
    requires a != b
    ensures Below(a, b) || Below(b, a)
    decreases |a|
  {
    if |a| > 0 && |b| > 0 && a[0] == b[0] {
      assert a == [a[0]] + a[1..];
      assert b == [b[0]] + b[1..];
      BelowTotal(a[1..], b[1..]);
    }
  }

  ghost predicate IsLeast(k: string, s: set<string>) {
    k in s && forall j :: j in s && j != k ==> Below(k, j)
  }

  lemma {:induction false} LeastExists(s: set<string>)
    requires s != {}
    ensures exists k :: IsLeast(k, s)
    decreases |s|
  {
    var x :| x in s;
    if s - {x} == {} {
      assert s == {x};
      assert IsLeast(x, s);
    } else {
      LeastExists(s - {x});
      var k :| IsLeast(k, s - {x});
      if Below(x, k) {
        forall j | j in s && j != x
          ensures Below(x, j)
        {
          if j != k {
            BelowTransitive(x, k, j);
          }
        }
        assert IsLeast(x, s);
      } else {
        BelowTotal(x, k);
        assert IsLeast(k, s);
      }
    }
  }

  lemma LeastUnique(k1: string, k2: string, s: set<string>)
    requires IsLeast(k1, s) && IsLeast(k2, s)
    ensures k1 == k2
  {
    if k1 != k2 {
      BelowTransitive(k1, k2, k1);
      BelowIrreflexive(k1);
    }
  }

  ghost function Least(s: set<string>): (k: string)
    requires s != {}
    ensures IsLeast(k, s)
  {
    LeastExists(s);
    var k :| IsLeast(k, s);
    k
  }

  ghost predicate StrictlySorted(keys: seq<string>) {
    forall i, j :: 0 <= i < j < |keys| ==> Below(keys[i], keys[j])
  }

  /** The keys of a dictionary in ascending order: the least, then the rest. */
  ghost function SortedKeys(s: set<string>): (keys: seq<string>)
    ensures |keys| == |s|
    decreases s
  {
    if s == {} then [] else var k := Least(s); [k] + SortedKeys(s - {k})
  }

  /** The ordered keys are exactly the set's. */
  lemma {:induction false} SortedKeysMembers(s: set<string>)
    ensures forall k :: k in SortedKeys(s) <==> k in s
    decreases s
  {
    if s != {} {
      SortedKeysMembers(s - {Least(s)});
    }
  }

  /** The ordered keys ascend strictly, so each occurs once. */
  lemma {:induction false} SortedKeysAscending(s: set<string>)
    ensures StrictlySorted(SortedKeys(s))
    ensures forall i, j :: 0 <= i < j < |SortedKeys(s)| ==> SortedKeys(s)[i] != SortedKeys(s)[j]
    decreases s
  {
    if s != {} {
      var k := Least(s);
      var rest := SortedKeys(s - {k});
      SortedKeysAscending(s - {k});
      SortedKeysMembers(s - {k});
      var keys := [k] + rest;
      assert SortedKeys(s) == keys;
      forall i, j | 0 <= i < j < |keys|
        ensures Below(keys[i], keys[j])
      {
        if i == 0 {
          assert keys[j] in s - {k};
        } else {
          assert keys[i] == rest[i - 1] && keys[j] == rest[j - 1];
        }
      }
      forall i, j | 0 <= i < j < |keys|
        ensures keys[i] != keys[j]
      {
        BelowIrreflexive(keys[i]);
      }
    }
  }

  /** An ordered key list is determined by its set. */
  lemma {:induction false} SortedKeysStep(s: set<string>)
    requires s != {}
    ensures SortedKeys(s) == [Least(s)] + SortedKeys(s - {Least(s)})
  {
  }

  /** The writer's text of a value, the tag deciding (the writer force-casts
      the payload, so the tag must agree with it). */
  ghost function ValueText(v: Value, describe: Float64 -> string): string
    requires WellTagged(v)
    decreases v, 2, 0
  {
    match v.kind
    case String => StringText(v.raw.text)
    case Int => IntText(v.raw.number)
    case IntOrDouble => IntText(v.raw.number)
    case Dictionary => DictionaryText(v, describe)
    case Array => ArrayText(v, describe)
    case Double => DoubleText(v.raw.float, describe)
    case Bool => BoolText(v.raw.truth)
    case Null => "null"
  }

  /** A dictionary: its members in key order, within braces. */
  ghost function DictionaryText(v: Value, describe: Float64 -> string): string
    requires WellTagged(v) && v.raw.Entries?
    decreases v, 1, 0
  {
    var keys := SortedKeys(v.raw.entries.Keys);
    SortedKeysMembers(v.raw.entries.Keys);
    "{" + MembersText(v, keys, |keys|, describe) + "}"
  }

  /** An array: its elements in order, within brackets. */
  ghost function ArrayText(v: Value, describe: Float64 -> string): string
    requires WellTagged(v) && v.raw.Elements?
    decreases v, 1, 0
  {
    "[" + ElementsText(v, |v.raw.items|, describe) + "]"
  }

  /** The comma before every element or member but the first. */
  function Separator(i: nat): string {
    if i == 0 then "" else ","
  }

  /** The first `n` elements of an array, comma-separated. */
  ghost function ElementsText(parent: Value, n: nat, describe: Float64 -> string): string
    requires WellTagged(parent) && parent.raw.Elements? && n <= |parent.raw.items|
    decreases parent, 0, n
  {
    if n == 0 then ""
    else ElementsText(parent, n - 1, describe) + Separator(n - 1) + ValueText(parent.raw.items[n - 1], describe)
  }

  /** The members of a dictionary for the first `n` of `keys`,
      comma-separated. */
  ghost function MembersText(parent: Value, keys: seq<string>, n: nat, describe: Float64 -> string): string
    requires WellTagged(parent) && parent.raw.Entries? && n <= |keys|
    requires forall j :: 0 <= j < |keys| ==> keys[j] in parent.raw.entries
    decreases parent, 0, n
  {
    if n == 0 then ""
    else MembersText(parent, keys, n - 1, describe) + Separator(n - 1) + MemberText(parent, keys[n - 1], describe)
  }

  /** One member: the key as a string, a colon, the value. */
  ghost function MemberText(parent: Value, key: string, describe: Float64 -> string): string
    requires WellTagged(parent) && parent.raw.Entries? && key in parent.raw.entries
    decreases parent, 0, 0
  {
    StringText(key) + ":" + ValueText(parent.raw.entries[key], describe)
  }

  // The writer appends piece by piece; these lemmas put the next member or
  // element of the text in exactly that shape.

  lemma ElementsStart(prefix: string, parent: Value, describe: Float64 -> string)
    requires WellTagged(parent) && parent.raw.Elements?
    ensures prefix + ElementsText(parent, 0, describe) == prefix
  {
  }

  lemma ElementsAppend(prefix: string, parent: Value, i: nat, describe: Float64 -> string)
    requires WellTagged(parent) && parent.raw.Elements? && i < |parent.raw.items|
    ensures i == 0 ==> (prefix + ElementsText(parent, 1, describe) ==
                        prefix + ElementsText(parent, 0, describe) + ValueText(parent.raw.items[0], describe))
    ensures i > 0 ==> (prefix + ElementsText(parent, i + 1, describe) ==
                       prefix + ElementsText(parent, i, describe) + "," + ValueText(parent.raw.items[i], describe))
  {
    assert ElementsText(parent, i + 1, describe) ==
           ElementsText(parent, i, describe) + Separator(i) + ValueText(parent.raw.items[i], describe);
  }

  lemma MembersStart(prefix: string, parent: Value, keys: seq<string>, describe: Float64 -> string)
    requires WellTagged(parent) && parent.raw.Entries?
    requires forall j :: 0 <= j < |keys| ==> keys[j] in parent.raw.entries
    ensures prefix + MembersText(parent, keys, 0, describe) == prefix
  {
  }

  lemma MembersAppend(prefix: string, parent: Value, keys: seq<string>, i: nat, describe: Float64 -> string)
    requires WellTagged(parent) && parent.raw.Entries? && i < |keys|
    requires forall j :: 0 <= j < |keys| ==> keys[j] in parent.raw.entries
    ensures i == 0 ==> (prefix + MembersText(parent, keys, 1, describe) ==
                        prefix + MembersText(parent, keys, 0, describe) + StringText(keys[0]) + ":" + ValueText(parent.raw.entries[keys[0]], describe))
    ensures i > 0 ==> (prefix + MembersText(parent, keys, i + 1, describe) ==
                       prefix + MembersText(parent, keys, i, describe) + "," + StringText(keys[i]) + ":" + ValueText(parent.raw.entries[keys[i]], describe))
  {
    var key := keys[i];
    assert MembersText(parent, keys, i + 1, describe) ==
           MembersText(parent, keys, i, describe) + Separator(i) + MemberText(parent, key, describe);
    Reassociated(prefix, MembersText(parent, keys, i, describe), Separator(i),
                 StringText(key), ValueText(parent.raw.entries[key], describe));
  }

  lemma Enclosed(prefix: string, open: string, body: string, close: string)
    ensures prefix + (open + body + close) == prefix + open + body + close
  {
  }

  lemma Reassociated(prefix: string, done: string, separator: string, key: string, value: string)
    ensures prefix + (done + separator + (key + ":" + value)) == prefix + done + separator + key + ":" + value
  {
  }

  /** `serialize(supportedType:)`: a top-level null writes nothing. */
  ghost function TopLevelText(v: Value, describe: Float64 -> string): string
    requires WellTagged(v)
  {
    if v.kind == Null then "" else ValueText(v, describe)
  }

  /** `JsonWriter`: `result` only ever grows. */
  class JsonWriter {
    var result: string
    const describe: Float64 -> string

    constructor (describe: Float64 -> string)
      ensures result == "" && this.describe == describe
    {
      result := "";
      this.describe := describe;
    }

    /** `serialize(supportedType:)` */
    method Serialize(v: Value)
      requires WellTagged(v)
      modifies this
      ensures result == old(result) + TopLevelText(v, describe)
      ensures v.kind == Null ==> result == old(result)
    {
      if v.kind == Null {
        return;
      }
      SerializeRecursive(v);
    }

    /** `serializeRecursive(supportedType:)` */
    method SerializeRecursive(v: Value)
      requires WellTagged(v)
      modifies this
      ensures result == old(result) + ValueText(v, describe)
      decreases v, 2
    {
      match v.kind
      case String => SerializeString(v.raw.text);
      case Int => SerializeInt(v.raw.number);
      case IntOrDouble => SerializeInt(v.raw.number);
      case Dictionary => SerializeDictionary(v, v.raw.entries);
      case Array => SerializeArray(v, v.raw.items);
      case Double => SerializeDouble(v.raw.float);
      case Bool => SerializeBool(v.raw.truth);
      case Null => SerializeNull();
    }

    /** `serialize(string:)`: quote, each scalar through the table, quote. */
    method SerializeString(s: string)
      modifies this
      ensures result == old(result) + StringText(s)
    {
      result := result + "\"";
      var i := 0;
      while i < |s|
        invariant 0 <= i <= |s|
        invariant result == old(result) + "\"" + Escaped(s[..i])
      {
        EscapedAppend(old(result) + "\"", s, i);
        var text := EscapeScalar(s[i]);
        result := result + text;
        i := i + 1;
      }
      StringClosed(old(result), s);
      result := result + "\"";
    }

    /** `serialize(int:)` */
    method SerializeInt(n: int)
      modifies this
      ensures result == old(result) + IntText(n)
    {
      result := result + IntText(n);
    }

    /** `serialize(dictionary:)`: members separated by commas, the first one
        without. */
    method SerializeDictionary(ghost parent: Value, entries: map<string, Value>)
      requires WellTagged(parent) && parent.raw == Entries(entries)
      modifies this
      ensures result == old(result) + DictionaryText(parent, describe)
      decreases parent, 1
    {
      result := result + "{";
      var first := true;
      var keys := SortKeys(entries.Keys);
      SortedKeysMembers(entries.Keys);
      MembersStart(old(result) + "{", parent, keys, describe);
      var i := 0;
      while i < |keys|
        invariant 0 <= i <= |keys|
        invariant first <==> i == 0
        invariant result == old(result) + "{" + MembersText(parent, keys, i, describe)
      {
        MembersAppend(old(result) + "{", parent, keys, i, describe);
        if first {
          first := false;
        } else {
          result := result + ",";
        }
        SerializeMember(parent, keys[i], entries[keys[i]]);
        i := i + 1;
      }
      Enclosed(old(result), "{", MembersText(parent, keys, |keys|, describe), "}");
      result := result + "}";
    }

    /** One member of `serialize(dictionary:)`: key, colon, value. */
    method SerializeMember(ghost parent: Value, key: string, value: Value)
      requires WellTagged(parent) && parent.raw.Entries? && key in parent.raw.entries
      requires parent.raw.entries[key] == value
      modifies this
      ensures result == old(result) + StringText(key) + ":" + ValueText(value, describe)
      decreases parent, 0
    {
      SerializeString(key);
      result := result + ":";
      SerializeRecursive(value);
    }

    /** `serialize(array:)`: elements separated by commas. */
    method SerializeArray(ghost parent: Value, items: seq<Value>)
      requires WellTagged(parent) && parent.raw == Elements(items)
      modifies this
      ensures result == old(result) + ArrayText(parent, describe)
      decreases parent, 1
    {
      result := result + "[";
      var first := true;
      ElementsStart(old(result) + "[", parent, describe);
      var i := 0;
      while i < |items|
        invariant 0 <= i <= |items|
        invariant first <==> i == 0
        invariant result == old(result) + "[" + ElementsText(parent, i, describe)
      {
        ElementsAppend(old(result) + "[", parent, i, describe);
        if first {
          first := false;
        } else {
          result := result + ",";
        }
        SerializeRecursive(items[i]);
        i := i + 1;
      }
      Enclosed(old(result), "[", ElementsText(parent, |items|, describe), "]");
      result := result + "]";
    }

    /** `serialize(double:)`: NaN and the infinities as `null`. */
    method SerializeDouble(d: Float64)
      modifies this
      ensures result == old(result) + DoubleText(d, describe)
    {
      if d.NaN? || d.Infinity? {
        SerializeNull();
      } else {
        result := result + describe(d);
      }
    }

    method SerializeBool(b: bool)
      modifies this
      ensures result == old(result) + BoolText(b)
    {
      result := result + (if b then "true" else "false");
    }

    method SerializeNull()
      modifies this
      ensures result == old(result) + "null"
    {
      result := result + "null";
    }
  }

  /** The least key of a non-empty set, by one pass over it. */
  method FindLeast(s: set<string>) returns (k: string)
    requires s != {}
    ensures k == Least(s)
  {
    var candidates := s;
    k :| k in candidates;
    candidates := candidates - {k};
    while candidates != {}
      invariant candidates <= s && k in s && k !in candidates
      invariant forall j :: j in s - candidates && j != k ==> Below(k, j)
      decreases candidates
    {
      var x :| x in candidates;
      if Below(x, k) {
        forall j | j in s - candidates && j != x
          ensures Below(x, j)
        {
          if j != k {
            BelowTransitive(x, k, j);
          }
        }
        k := x;
      } else {
        BelowTotal(x, k);
      }
      candidates := candidates - {x};
    }
    LeastUnique(k, Least(s), s);
  }

  /** The keys in ascending order, by repeated selection of the least. */
  method SortKeys(s: set<string>) returns (keys: seq<string>)
    ensures keys == SortedKeys(s)
  {
    keys := [];
    var remaining := s;
    while remaining != {}
      invariant keys + SortedKeys(remaining) == SortedKeys(s)
      decreases remaining
    {
      var least := FindLeast(remaining);
      SortedKeysStep(remaining);
      keys := keys + [least];
      remaining := remaining - {least};
    }
  }
}
