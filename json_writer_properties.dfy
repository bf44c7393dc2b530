/** What Source/JsonSerializer/JsonWriter.swift writes, stated against
    reference definitions: elements and members are joined by commas with
    none before the first or after the last, empty containers are `[]` and
    `{}`, and null is written as nothing at the top level and as `null`
    inside a container. */
module JsonWriterProperties {
  import opened SupportedTypes
  import opened JsonWriting

  /** Texts joined by commas: a comma between each two, none before the
      first and none after the last. */
  function Joined(texts: seq<string>): (r: string)
    decreases |texts|
  {
    if |texts| == 0 then ""
    else if |texts| == 1 then texts[0]
    else texts[0] + "," + Joined(texts[1..])
  }

  /** Joining one more text adds a comma and that text, unless it is the
      first. */
  lemma {:induction false} JoinedSnoc(texts: seq<string>, t: string)
    ensures Joined(texts + [t]) == if |texts| == 0 then t else Joined(texts) + "," + t
    decreases |texts|
  {
    if |texts| == 0 {
      assert texts + [t] == [t];
    } else if |texts| == 1 {
      assert (texts + [t])[1..] == [t];
    } else {
      var rest := texts[1..];
      JoinedSnoc(rest, t);
      assert (texts + [t])[1..] == rest + [t];
      assert texts[0] + "," + (Joined(rest) + "," + t) == (texts[0] + "," + Joined(rest)) + "," + t;
    }
  }

  /** The text of each of the first `n` elements of an array. */
  ghost function ElementTexts(parent: Value, n: nat, describe: Float64 -> string): (texts: seq<string>)
    requires WellTagged(parent) && parent.raw.Elements? && n <= |parent.raw.items|
    ensures |texts| == n
    ensures forall j :: 0 <= j < n ==> texts[j] == ValueText(parent.raw.items[j], describe)
  {
    seq(n, j requires 0 <= j < n => ValueText(parent.raw.items[j], describe))
  }

  /** The text of the members of the first `n` of `keys`. */
  ghost function MemberTexts(parent: Value, keys: seq<string>, n: nat, describe: Float64 -> string): (texts: seq<string>)
    requires WellTagged(parent) && parent.raw.Entries? && n <= |keys|
    requires forall j :: 0 <= j < |keys| ==> keys[j] in parent.raw.entries
    ensures |texts| == n
    ensures forall j :: 0 <= j < n ==> texts[j] == MemberText(parent, keys[j], describe)
  {
    seq(n, j requires 0 <= j < n => MemberText(parent, keys[j], describe))
  }

  /** The writer separates the elements of an array by commas, with none
      before the first and none after the last. */
  lemma {:induction false} ElementsJoined(parent: Value, n: nat, describe: Float64 -> string)
    requires WellTagged(parent) && parent.raw.Elements? && n <= |parent.raw.items|
    ensures ElementsText(parent, n, describe) == Joined(ElementTexts(parent, n, describe))
    decreases n
  {
    if n > 0 {
      var k := n - 1;
      ElementsJoined(parent, k, describe);
      var texts := ElementTexts(parent, k, describe);
      var last := ValueText(parent.raw.items[k], describe);
      ElementTextsSnoc(parent, n, describe);
      JoinedSnoc(texts, last);
    }
  }

  lemma {:induction false} ElementTextsSnoc(parent: Value, n: nat, describe: Float64 -> string)
    requires WellTagged(parent) && parent.raw.Elements? && 0 < n <= |parent.raw.items|
    ensures ElementTexts(parent, n, describe)
      == ElementTexts(parent, n - 1, describe) + [ValueText(parent.raw.items[n - 1], describe)]
  {
    var texts := ElementTexts(parent, n - 1, describe);
    var whole := ElementTexts(parent, n, describe);
    var last := ValueText(parent.raw.items[n - 1], describe);
    assert forall j :: 0 <= j < n ==> whole[j] == (texts + [last])[j];
  }

  /** The writer separates the members of a dictionary by commas, with
      none before the first and none after the last. */
  lemma {:induction false} MembersJoined(parent: Value, keys: seq<string>, n: nat, describe: Float64 -> string)
    requires WellTagged(parent) && parent.raw.Entries? && n <= |keys|
    requires forall j :: 0 <= j < |keys| ==> keys[j] in parent.raw.entries
    ensures MembersText(parent, keys, n, describe) == Joined(MemberTexts(parent, keys, n, describe))
    decreases n
  {
    if n > 0 {
      var k := n - 1;
      MembersJoined(parent, keys, k, describe);
      var texts := MemberTexts(parent, keys, k, describe);
      var last := MemberText(parent, keys[k], describe);
      MemberTextsSnoc(parent, keys, n, describe);
      JoinedSnoc(texts, last);
    }
  }

  lemma {:induction false} MemberTextsSnoc(parent: Value, keys: seq<string>, n: nat, describe: Float64 -> string)
    requires WellTagged(parent) && parent.raw.Entries? && 0 < n <= |keys|
    requires forall j :: 0 <= j < |keys| ==> keys[j] in parent.raw.entries
    ensures MemberTexts(parent, keys, n, describe)
      == MemberTexts(parent, keys, n - 1, describe) + [MemberText(parent, keys[n - 1], describe)]
  {
    var texts := MemberTexts(parent, keys, n - 1, describe);
    var whole := MemberTexts(parent, keys, n, describe);
    var last := MemberText(parent, keys[n - 1], describe);
    assert forall j :: 0 <= j < n ==> whole[j] == (texts + [last])[j];
  }

  /** An array is written as its elements joined by commas, in brackets. */
  lemma {:induction false} ArrayWritten(v: Value, describe: Float64 -> string)
    requires WellTagged(v) && v.kind == Array
    ensures v.raw.Elements?
    ensures ValueText(v, describe) == "[" + Joined(ElementTexts(v, |v.raw.items|, describe)) + "]"
  {
    ElementsJoined(v, |v.raw.items|, describe);
  }

  /** A dictionary is written as its members, in ascending key order, joined
      by commas, in braces. */
  lemma {:induction false} DictionaryWritten(v: Value, describe: Float64 -> string) returns (keys: seq<string>)
    requires WellTagged(v) && v.kind == Dictionary
    ensures v.raw.Entries? && keys == SortedKeys(v.raw.entries.Keys)
    ensures forall k :: k in keys <==> k in v.raw.entries
    ensures forall j :: 0 <= j < |keys| ==> keys[j] in v.raw.entries
    ensures ValueText(v, describe) == "{" + Joined(MemberTexts(v, keys, |keys|, describe)) + "}"
  {
    keys := SortedKeys(v.raw.entries.Keys);
    SortedKeysMembers(v.raw.entries.Keys);
    assert ValueText(v, describe) == DictionaryText(v, describe);
    MembersJoined(v, keys, |keys|, describe);
  }

  /** An empty array is written `[]` and an empty dictionary `{}`. */
  lemma {:induction false} EmptyContainersWritten(describe: Float64 -> string)
    ensures ValueText(ArrayValue([]), describe) == "[]"
    ensures ValueText(DictionaryValue(map[]), describe) == "{}"
    ensures TopLevelText(ArrayValue([]), describe) == "[]"
  {
    var d := DictionaryValue(map[]);
    assert d.raw.entries.Keys == {};
    assert SortedKeys(d.raw.entries.Keys) == [];
  }

  /** A top-level null writes nothing; a null inside a container is written
      `null`. */
  lemma {:induction false} NullWritten(describe: Float64 -> string)
    ensures TopLevelText(NullValue(), describe) == ""
    ensures ValueText(ArrayValue([NullValue()]), describe) == "[null]"
  {
    var v := ArrayValue([NullValue()]);
    assert ElementsText(v, 1, describe) == ElementsText(v, 0, describe) + Separator(0) + ValueText(NullValue(), describe);
  }

  /** `int` and `intOrDouble` are written alike, as decimal text; bools as
      `true` and `false`. */
  lemma {:induction false} ScalarsWritten(n: int, b: bool, describe: Float64 -> string)
    ensures ValueText(IntValue(n), describe) == ValueText(IntOrDoubleValue(n), describe) == IntText(n)
    ensures ValueText(BoolValue(b), describe) == if b then "true" else "false"
  {
  }
}
