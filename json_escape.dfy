/** The escape table of the JSON writer (Source/JsonSerializer/JsonWriter.swift):
    the text written for each of the first 161 scalars, proved entry by entry
    against the escaping rule. */
module JsonEscaping {

  /** A lower-case hexadecimal digit. */
  function HexDigit(d: nat): (c: char)
    requires d < 16
    ensures d < 10 ==> c as int == '0' as int + d
    ensures d >= 10 ==> c as int == 'a' as int + d - 10
  {
    if d < 10 then ('0' as int + d) as char else ('a' as int + d - 10) as char
  }

  /** How a scalar is written inside a string, as a rule: quote and backslash
      get a backslash, five controls their short escapes, the other controls
      and 0x7F-0xA0 a `\u00xx` escape, and everything else stands for itself. */
  function EscapeRule(c: char): string {
    if c == '"' then "\\\"" else if c == '\\' then "\\\\"
    else if c as int == 8 then "\\b" else if c as int == 9 then "\\t"
    else if c as int == 10 then "\\n" else if c as int == 12 then "\\f"
    else if c as int == 13 then "\\r"
    else if c as int < 0x20 || (0x7F <= c as int <= 0xA0) then ['\\', 'u', '0', '0', HexDigit(c as int / 16), HexDigit(c as int % 16)]
    else [c]
  }

  // `knownCharacters`, the writer's escape table for scalars 0 to 160,
  // written eight entries to a row; the rows are joined pairwise so that an
  // index into the table passes through few concatenations.
  const Row0: seq<string> := ["\\u0000", "\\u0001", "\\u0002", "\\u0003", "\\u0004", "\\u0005", "\\u0006", "\\u0007"]
  const Row1: seq<string> := ["\\b", "\\t", "\\n", "\\u000b", "\\f", "\\r", "\\u000e", "\\u000f"]
  const Row2: seq<string> := ["\\u0010", "\\u0011", "\\u0012", "\\u0013", "\\u0014", "\\u0015", "\\u0016", "\\u0017"]
  const Row3: seq<string> := ["\\u0018", "\\u0019", "\\u001a", "\\u001b", "\\u001c", "\\u001d", "\\u001e", "\\u001f"]
  const Row4: seq<string> := [" ", "!", "\\\"", "#", "$", "%", "&", "'"]
  const Row5: seq<string> := ["(", ")", "*", "+", ",", "-", ".", "/"]
  const Row6: seq<string> := ["0", "1", "2", "3", "4", "5", "6", "7"]
  const Row7: seq<string> := ["8", "9", ":", ";", "<", "=", ">", "?"]
  const Row8: seq<string> := ["@", "A", "B", "C", "D", "E", "F", "G"]
  const Row9: seq<string> := ["H", "I", "J", "K", "L", "M", "N", "O"]
  const Row10: seq<string> := ["P", "Q", "R", "S", "T", "U", "V", "W"]
  const Row11: seq<string> := ["X", "Y", "Z", "[", "\\\\", "]", "^", "_"]
  const Row12: seq<string> := ["`", "a", "b", "c", "d", "e", "f", "g"]
  const Row13: seq<string> := ["h", "i", "j", "k", "l", "m", "n", "o"]
  const Row14: seq<string> := ["p", "q", "r", "s", "t", "u", "v", "w"]
  const Row15: seq<string> := ["x", "y", "z", "{", "|", "}", "~", "\\u007f"]
  const Row16: seq<string> := ["\\u0080", "\\u0081", "\\u0082", "\\u0083", "\\u0084", "\\u0085", "\\u0086", "\\u0087"]
  const Row17: seq<string> := ["\\u0088", "\\u0089", "\\u008a", "\\u008b", "\\u008c", "\\u008d", "\\u008e", "\\u008f"]
  const Row18: seq<string> := ["\\u0090", "\\u0091", "\\u0092", "\\u0093", "\\u0094", "\\u0095", "\\u0096", "\\u0097"]
  const Row19: seq<string> := ["\\u0098", "\\u0099", "\\u009a", "\\u009b", "\\u009c", "\\u009d", "\\u009e", "\\u009f"]
  const Row20: seq<string> := ["\\u00a0"]
  const KnownCharacters: seq<string> :=
    ((((Row0 + Row1) + (Row2 + (Row3 + Row4))) + ((Row5 + Row6) + (Row7 + (Row8 + Row9)))) + (((Row10 + Row11) + (Row12 + (Row13 + Row14))) + ((Row15 + (Row16 + Row17)) + (Row18 + (Row19 + Row20)))))

  // Each row agrees with the rule, entry by entry.

  lemma Row0Rule(i: nat)
    requires 0 <= i < 8
    ensures KnownCharacters[i] == EscapeRule(i as char)
  {
    assert KnownCharacters[i] == Row0[i - 0];
    Row0Matches(i - 0);
  }

  lemma Row0Matches(j: nat)
    requires j < 8
    ensures Row0[j] == EscapeRule((0 + j) as char)
  {
    match j case 0 => case 1 => case 2 => case 3 => case 4 => case 5 => case 6 => case 7 =>
  }

  lemma Row1Rule(i: nat)
    requires 8 <= i < 16
    ensures KnownCharacters[i] == EscapeRule(i as char)
  {
    assert KnownCharacters[i] == Row1[i - 8];
    Row1Matches(i - 8);
  }

  lemma Row1Matches(j: nat)
    requires j < 8
    ensures Row1[j] == EscapeRule((8 + j) as char)
  {
    match j case 0 => case 1 => case 2 => case 3 => case 4 => case 5 => case 6 => case 7 =>
  }

  lemma Row2Rule(i: nat)
    requires 16 <= i < 24
    ensures KnownCharacters[i] == EscapeRule(i as char)
  {
    assert KnownCharacters[i] == Row2[i - 16];
    Row2Matches(i - 16);
  }

  lemma Row2Matches(j: nat)
    requires j < 8
    ensures Row2[j] == EscapeRule((16 + j) as char)
  {
    match j case 0 => case 1 => case 2 => case 3 => case 4 => case 5 => case 6 => case 7 =>
  }

  lemma Row3Rule(i: nat)
    requires 24 <= i < 32
    ensures KnownCharacters[i] == EscapeRule(i as char)
  {
    assert KnownCharacters[i] == Row3[i - 24];
    Row3Matches(i - 24);
  }

  lemma Row3Matches(j: nat)
    requires j < 8
    ensures Row3[j] == EscapeRule((24 + j) as char)
  {
    match j case 0 => case 1 => case 2 => case 3 => case 4 => case 5 => case 6 => case 7 =>
  }

  lemma Row4Rule(i: nat)
    requires 32 <= i < 40
    ensures KnownCharacters[i] == EscapeRule(i as char)
  {
    assert KnownCharacters[i] == Row4[i - 32];
    Row4Matches(i - 32);
  }

  lemma Row4Matches(j: nat)
    requires j < 8
    ensures Row4[j] == EscapeRule((32 + j) as char)
  {
    match j case 0 => case 1 => case 2 => case 3 => case 4 => case 5 => case 6 => case 7 =>
  }

  lemma Row5Rule(i: nat)
    requires 40 <= i < 48
    ensures KnownCharacters[i] == EscapeRule(i as char)
  {
    assert KnownCharacters[i] == Row5[i - 40];
    Row5Matches(i - 40);
  }

  lemma Row5Matches(j: nat)
    requires j < 8
    ensures Row5[j] == EscapeRule((40 + j) as char)
  {
    match j case 0 => case 1 => case 2 => case 3 => case 4 => case 5 => case 6 => case 7 =>
  }

  lemma Row6Rule(i: nat)
    requires 48 <= i < 56
    ensures KnownCharacters[i] == EscapeRule(i as char)
  {
    assert KnownCharacters[i] == Row6[i - 48];
    Row6Matches(i - 48);
  }

  lemma Row6Matches(j: nat)
    requires j < 8
    ensures Row6[j] == EscapeRule((48 + j) as char)
  {
    match j case 0 => case 1 => case 2 => case 3 => case 4 => case 5 => case 6 => case 7 =>
  }

  lemma Row7Rule(i: nat)
    requires 56 <= i < 64
    ensures KnownCharacters[i] == EscapeRule(i as char)
  {
    assert KnownCharacters[i] == Row7[i - 56];
    Row7Matches(i - 56);
  }

  lemma Row7Matches(j: nat)
    requires j < 8
    ensures Row7[j] == EscapeRule((56 + j) as char)
  {
    match j case 0 => case 1 => case 2 => case 3 => case 4 => case 5 => case 6 => case 7 =>
  }

  lemma Row8Rule(i: nat)
    requires 64 <= i < 72
    ensures KnownCharacters[i] == EscapeRule(i as char)
  {
    assert KnownCharacters[i] == Row8[i - 64];
    Row8Matches(i - 64);
  }

  lemma Row8Matches(j: nat)
    requires j < 8
    ensures Row8[j] == EscapeRule((64 + j) as char)
  {
    match j case 0 => case 1 => case 2 => case 3 => case 4 => case 5 => case 6 => case 7 =>
  }

  lemma Row9Rule(i: nat)
    requires 72 <= i < 80
    ensures KnownCharacters[i] == EscapeRule(i as char)
  {
    assert KnownCharacters[i] == Row9[i - 72];
    Row9Matches(i - 72);
  }

  lemma Row9Matches(j: nat)
    requires j < 8
    ensures Row9[j] == EscapeRule((72 + j) as char)
  {
    match j case 0 => case 1 => case 2 => case 3 => case 4 => case 5 => case 6 => case 7 =>
  }

  lemma Row10Rule(i: nat)
    requires 80 <= i < 88
    ensures KnownCharacters[i] == EscapeRule(i as char)
  {
    assert KnownCharacters[i] == Row10[i - 80];
    Row10Matches(i - 80);
  }

  lemma Row10Matches(j: nat)
    requires j < 8
    ensures Row10[j] == EscapeRule((80 + j) as char)
  {
    match j case 0 => case 1 => case 2 => case 3 => case 4 => case 5 => case 6 => case 7 =>
  }

  lemma Row11Rule(i: nat)
    requires 88 <= i < 96
    ensures KnownCharacters[i] == EscapeRule(i as char)
  {
    assert KnownCharacters[i] == Row11[i - 88];
    Row11Matches(i - 88);
  }

  lemma Row11Matches(j: nat)
    requires j < 8
    ensures Row11[j] == EscapeRule((88 + j) as char)
  {
    match j case 0 => case 1 => case 2 => case 3 => case 4 => case 5 => case 6 => case 7 =>
  }

  lemma Row12Rule(i: nat)
    requires 96 <= i < 104
    ensures KnownCharacters[i] == EscapeRule(i as char)
  {
    assert KnownCharacters[i] == Row12[i - 96];
    Row12Matches(i - 96);
  }

  lemma Row12Matches(j: nat)
    requires j < 8
    ensures Row12[j] == EscapeRule((96 + j) as char)
  {
    match j case 0 => case 1 => case 2 => case 3 => case 4 => case 5 => case 6 => case 7 =>
  }

  lemma Row13Rule(i: nat)
    requires 104 <= i < 112
    ensures KnownCharacters[i] == EscapeRule(i as char)
  {
    assert KnownCharacters[i] == Row13[i - 104];
    Row13Matches(i - 104);
  }

  lemma Row13Matches(j: nat)
    requires j < 8
    ensures Row13[j] == EscapeRule((104 + j) as char)
  {
    match j case 0 => case 1 => case 2 => case 3 => case 4 => case 5 => case 6 => case 7 =>
  }

  lemma Row14Rule(i: nat)
    requires 112 <= i < 120
    ensures KnownCharacters[i] == EscapeRule(i as char)
  {
    assert KnownCharacters[i] == Row14[i - 112];
    Row14Matches(i - 112);
  }

  lemma Row14Matches(j: nat)
    requires j < 8
    ensures Row14[j] == EscapeRule((112 + j) as char)
  {
    match j case 0 => case 1 => case 2 => case 3 => case 4 => case 5 => case 6 => case 7 =>
  }

  lemma Row15Rule(i: nat)
    requires 120 <= i < 128
    ensures KnownCharacters[i] == EscapeRule(i as char)
  {
    assert KnownCharacters[i] == Row15[i - 120];
    Row15Matches(i - 120);
  }

  lemma Row15Matches(j: nat)
    requires j < 8
    ensures Row15[j] == EscapeRule((120 + j) as char)
  {
    match j case 0 => case 1 => case 2 => case 3 => case 4 => case 5 => case 6 => case 7 =>
  }

  lemma Row16Rule(i: nat)
    requires 128 <= i < 136
    ensures KnownCharacters[i] == EscapeRule(i as char)
  {
    assert KnownCharacters[i] == Row16[i - 128];
    Row16Matches(i - 128);
  }

  lemma Row16Matches(j: nat)
    requires j < 8
    ensures Row16[j] == EscapeRule((128 + j) as char)
  {
    match j case 0 => case 1 => case 2 => case 3 => case 4 => case 5 => case 6 => case 7 =>
  }

  lemma Row17Rule(i: nat)
    requires 136 <= i < 144
    ensures KnownCharacters[i] == EscapeRule(i as char)
  {
    assert KnownCharacters[i] == Row17[i - 136];
    Row17Matches(i - 136);
  }

  lemma Row17Matches(j: nat)
    requires j < 8
    ensures Row17[j] == EscapeRule((136 + j) as char)
  {
    match j case 0 => case 1 => case 2 => case 3 => case 4 => case 5 => case 6 => case 7 =>
  }

  lemma Row18Rule(i: nat)
    requires 144 <= i < 152
    ensures KnownCharacters[i] == EscapeRule(i as char)
  {
    assert KnownCharacters[i] == Row18[i - 144];
    Row18Matches(i - 144);
  }

  lemma Row18Matches(j: nat)
    requires j < 8
    ensures Row18[j] == EscapeRule((144 + j) as char)
  {
    match j case 0 => case 1 => case 2 => case 3 => case 4 => case 5 => case 6 => case 7 =>
  }

  lemma Row19Rule(i: nat)
    requires 152 <= i < 160
    ensures KnownCharacters[i] == EscapeRule(i as char)
  {
    assert KnownCharacters[i] == Row19[i - 152];
    Row19Matches(i - 152);
  }

  lemma Row19Matches(j: nat)
    requires j < 8
    ensures Row19[j] == EscapeRule((152 + j) as char)
  {
    match j case 0 => case 1 => case 2 => case 3 => case 4 => case 5 => case 6 => case 7 =>
  }

  lemma Row20Rule(i: nat)
    requires 160 <= i < 161
    ensures KnownCharacters[i] == EscapeRule(i as char)
  {
    assert KnownCharacters[i] == Row20[i - 160];
    Row20Matches(i - 160);
  }

  lemma Row20Matches(j: nat)
    requires j < 1
    ensures Row20[j] == EscapeRule((160 + j) as char)
  {
    match j case 0 =>
  }


  /** The table has exactly 161 entries, and each is the rule's text. */
  lemma KnownCharacterIsRule(i: nat)
    requires i < 161
    ensures |KnownCharacters| == 161 && KnownCharacters[i] == EscapeRule(i as char)
  {
    if i < 8 { Row0Rule(i); }
    else if i < 16 { Row1Rule(i); }
    else if i < 24 { Row2Rule(i); }
    else if i < 32 { Row3Rule(i); }
    else if i < 40 { Row4Rule(i); }
    else if i < 48 { Row5Rule(i); }
    else if i < 56 { Row6Rule(i); }
    else if i < 64 { Row7Rule(i); }
    else if i < 72 { Row8Rule(i); }
    else if i < 80 { Row9Rule(i); }
    else if i < 88 { Row10Rule(i); }
    else if i < 96 { Row11Rule(i); }
    else if i < 104 { Row12Rule(i); }
    else if i < 112 { Row13Rule(i); }
    else if i < 120 { Row14Rule(i); }
    else if i < 128 { Row15Rule(i); }
    else if i < 136 { Row16Rule(i); }
    else if i < 144 { Row17Rule(i); }
    else if i < 152 { Row18Rule(i); }
    else if i < 160 { Row19Rule(i); }
    else if i < 161 { Row20Rule(i); }
  }

  /** How the writer emits one scalar: the table up to 160, the scalar itself
      above; callers see only the rule. */
  method EscapeScalar(c: char) returns (text: string)
    ensures text == EscapeRule(c)
  {
    if c as int <= 160 {
      KnownCharacterIsRule(c as int);
      text := KnownCharacters[c as int];
    } else {
      text := [c];
    }
  }
}
