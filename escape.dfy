/**
 * feature_parser._escape_text: the percent-encoding (section 2.1 of RFC 3986)
 * applied to the free-text Note attribute. A fixed table maps thirteen
 * punctuation characters and DEL to upper-case codes; a loop then adds the
 * code points 0 to 32 with lower-case codes; every character of the text is
 * looked up in that table and passed through when it is absent.
 */
module Escape {
  import opened Text

  /** The characters with a hand-written entry in the escape table. */
  predicate IsFixed(c: char)
  {
    c == '"' || c == '%' || c == '&' || c == '\'' || c == '(' || c == ')' || c == ','
    || c == ';' || c == '=' || c == '[' || c == '\\' || c == ']' || c as int == 0x7F
  }

  /** The characters the table rewrites: the fixed ones and code points 0 to 32. */
  predicate Reserved(c: char)
  {
    c as int < 33 || IsFixed(c)
  }

  /**
   * The percent code of a reserved character: '%' and the two hexadecimal
   * digits of its code point, lower-case for the code points the loop adds
   * and upper-case for the fixed entries.
   */
  function Code(c: char): (s: string)
    requires Reserved(c)
    ensures |s| == 3 && s[0] == '%' && IsHexDigit(s[1]) && IsHexDigit(s[2])
    ensures 16 * HexValue(s[1]) + HexValue(s[2]) == c as int
    ensures c as int < 33 ==> !('A' <= s[1] <= 'F') && !('A' <= s[2] <= 'F')
    ensures c as int >= 33 ==> !('a' <= s[1] <= 'f') && !('a' <= s[2] <= 'f')
  {
    var n := c as int;
    ['%', HexDigit(n / 16, n >= 33), HexDigit(n % 16, n >= 33)]
  }

  /**
   * The table _escape_text builds: the literal dict, then one entry
   * '%' + hex(i)[2:].zfill(2) for each i in range(33).
   */
  method BuildTable() returns (table: map<char, string>)
    ensures forall c :: c in table <==> Reserved(c)
    ensures forall c | c in table :: table[c] == Code(c)
  {
    table := map[
      '"' := "%22", '%' := "%25", '&' := "%26", '\'' := "%27", '(' := "%28", ')' := "%29",
      ',' := "%2C", ';' := "%3B", '=' := "%3D", '[' := "%5B", '\\' := "%5C", ']' := "%5D",
      (0x7F as char) := "%7F"];
    for i := 0 to 33
      invariant forall c :: c in table <==> IsFixed(c) || c as int < i
      invariant forall c | c in table :: table[c] == Code(c)
    {
      ZFillLowerHex(i);
      table := table[i as char := "%" + ZFill(LowerHex(i), 2)];
    }
  }

  /** table.get(c, c). */
  function Get(table: map<char, string>, c: char): string
  {
    if c in table then table[c] else [c]
  }

  /** ''.join(table.get(c, c) for c in text). */
  function Translate(table: map<char, string>, text: string): string
  {
    if text == [] then "" else Get(table, text[0]) + Translate(table, text[1..])
  }

  /** What one character becomes. */
  function EscapeChar(c: char): string
  {
    if Reserved(c) then Code(c) else [c]
  }

  /** The escaped text: each character replaced by what it becomes. */
  function Escaped(text: string): string
  {
    if text == [] then "" else EscapeChar(text[0]) + Escaped(text[1..])
  }

  lemma {:induction false} TranslateIsEscaped(table: map<char, string>, text: string)
    requires forall c :: c in table <==> Reserved(c)
    requires forall c | c in table :: table[c] == Code(c)
    ensures Translate(table, text) == Escaped(text)
  {
    if text != [] {
      TranslateIsEscaped(table, text[1..]);
    }
  }

  /** Tab, newline and space take the loop's lower-case codes; letters pass through. */
  lemma ControlExamples()
    ensures Escaped("a\tb") == "a%09b"
    ensures Escaped("\n ") == "%0a%20"
  {
  }

  /** ';' and ',' take the table's codes. */
  lemma FixedExamples()
    ensures Escaped("x;y,z") == "x%3By%2Cz"
  {
  }

  /** feature_parser._escape_text. */
  method EscapeText(text: string) returns (r: string)
    ensures r == Escaped(text)
  {
    var table := BuildTable();
    TranslateIsEscaped(table, text);
    r := Translate(table, text);
  }

  /** Every '%' opens a code of two hexadecimal digits, and no other reserved character is left. */
  predicate PercentSafe(s: string)
  {
    forall i {:trigger s[i]} | 0 <= i < |s| ::
      if s[i] == '%' then i + 2 < |s| && IsHexDigit(s[i + 1]) && IsHexDigit(s[i + 2])
      else !Reserved(s[i])
  }

  /** Percent-decoding: "%" HEXDIG HEXDIG becomes the octet it names (either case). */
  function PercentDecode(s: string): string
  {
    if |s| >= 3 && s[0] == '%' && IsHexDigit(s[1]) && IsHexDigit(s[2]) then
      [(16 * HexValue(s[1]) + HexValue(s[2])) as char] + PercentDecode(s[3..])
    else if s == [] then ""
    else [s[0]] + PercentDecode(s[1..])
  }

  /** Decoding the escaped text gives the text back. */
  lemma {:induction false} DecodeEscaped(text: string)
    ensures PercentDecode(Escaped(text)) == text
  {
    if text != [] {
      var c := text[0];
      var e := Escaped(text);
      DecodeEscaped(text[1..]);
      if Reserved(c) {
        assert e[..3] == Code(c) && e[3..] == Escaped(text[1..]);
      } else {
        assert e[0] == c && e[1..] == Escaped(text[1..]);
      }
      assert text == [c] + text[1..];
    }
  }

  /** Distinct reserved characters get distinct codes. */
  lemma CodeInjective(a: char, b: char)
    requires Reserved(a) && Reserved(b) && a != b
    ensures Code(a) != Code(b)
  {
    assert (Code(a)[1], Code(a)[2]) != (Code(b)[1], Code(b)[2]);
  }

  lemma SafeAt(s: string, i: nat)
    requires PercentSafe(s) && i < |s|
    ensures if s[i] == '%' then i + 2 < |s| && IsHexDigit(s[i + 1]) && IsHexDigit(s[i + 2])
            else !Reserved(s[i])
  {
  }

  /** Two safe texts stay safe side by side: a code never straddles the seam. */
  lemma PercentSafeConcat(a: string, b: string)
    requires PercentSafe(a) && PercentSafe(b)
    ensures PercentSafe(a + b)
  {
    var s := a + b;
    forall i | 0 <= i < |s|
      ensures if s[i] == '%' then i + 2 < |s| && IsHexDigit(s[i + 1]) && IsHexDigit(s[i + 2])
              else !Reserved(s[i])
    {
      if i < |a| {
        SafeAt(a, i);
        assert s[i] == a[i];
        if a[i] == '%' {
          assert s[i + 1] == a[i + 1] && s[i + 2] == a[i + 2];
        }
      } else {
        var j := i - |a|;
        SafeAt(b, j);
        assert s[i] == b[j];
        if b[j] == '%' {
          assert s[i + 1] == b[j + 1] && s[i + 2] == b[j + 2];
        }
      }
    }
  }

  /**
   * No literal '%', tab, newline, control character, ';', '=' or ',' is left:
   * every '%' in the output is the start of a code.
   */
  lemma {:induction false} EscapedIsSafe(text: string)
    ensures PercentSafe(Escaped(text))
  {
    if text != [] {
      EscapedIsSafe(text[1..]);
      var head := EscapeChar(text[0]);
      assert PercentSafe(head) by {
        if Reserved(text[0]) {
          assert head == Code(text[0]);
          assert head[0] == '%' && IsHexDigit(head[1]) && IsHexDigit(head[2]);
          assert !Reserved(head[1]) && !Reserved(head[2]) && head[1] != '%' && head[2] != '%';
        }
      }
      PercentSafeConcat(head, Escaped(text[1..]));
    }
  }

  lemma {:induction false} EscapedLength(text: string)
    ensures |Escaped(text)| >= |text|
    ensures |Escaped(text)| == |text| ==> forall i | 0 <= i < |text| :: !Reserved(text[i])
  {
    if text != [] {
      EscapedLength(text[1..]);
      assert forall i | 1 <= i < |text| :: text[i] == text[1..][i - 1];
    }
  }

  /** Escaping leaves a text unchanged exactly when it has no reserved character. */
  lemma {:induction false} EscapedUnchanged(text: string)
    ensures Escaped(text) == text <==> forall i | 0 <= i < |text| :: !Reserved(text[i])
  {
    EscapedLength(text);
    if text != [] && forall i | 0 <= i < |text| :: !Reserved(text[i]) {
      EscapedUnchanged(text[1..]);
      assert forall i | 0 <= i < |text[1..]| :: text[1..][i] == text[i + 1];
      assert text == [text[0]] + text[1..];
    }
  }
}
