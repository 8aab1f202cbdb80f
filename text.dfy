/**
 * The Python string built-ins the converter relies on: str.split and
 * str.join with a one-character separator, str.rstrip() with no argument,
 * int() on a column and str() on an int, and the hex()/zfill() pair used to
 * build the escape table.
 */
module Text {
  import opened Wrappers

  // ---------------------------------------------------------------------
  // split / join
  // ---------------------------------------------------------------------

  /** s.split(d): the maximal runs of s between separators, empty runs included. */
  function Split(s: string, d: char): (parts: seq<string>)
    ensures |parts| >= 1
    ensures forall i | 0 <= i < |parts| :: d !in parts[i]
    ensures forall i, c | 0 <= i < |parts| && c in parts[i] :: c in s
  {
    if s == [] then [""]
    else
      var rest := Split(s[1..], d);
      assert forall c | c in s[1..] :: c in s;
      if s[0] == d then [""] + rest
      else [[s[0]] + rest[0]] + rest[1..]
  }

  /** d.join(parts). */
  function Join(parts: seq<string>, d: char): string
  {
    if parts == [] then ""
    else if |parts| == 1 then parts[0]
    else parts[0] + [d] + Join(parts[1..], d)
  }

  lemma JoinConsChar(c: char, parts: seq<string>, d: char)
    requires |parts| >= 1
    ensures Join([[c] + parts[0]] + parts[1..], d) == [c] + Join(parts, d)
  {
    var q := [[c] + parts[0]] + parts[1..];
    assert q[1..] == parts[1..];
  }

  /** Joining the pieces of a split with the same separator gives the text back. */
  lemma {:induction false} JoinSplit(s: string, d: char)
    ensures Join(Split(s, d), d) == s
  {
    if s != [] {
      var rest := Split(s[1..], d);
      JoinSplit(s[1..], d);
      if s[0] == d {
        assert ([""] + rest)[1..] == rest;
      } else {
        JoinConsChar(s[0], rest, d);
      }
      assert s == [s[0]] + s[1..];
    }
  }

  lemma {:induction false} SplitPrefix(a: string, rest: string, d: char)
    requires d !in a
    ensures Split(a + rest, d) == [a + Split(rest, d)[0]] + Split(rest, d)[1..]
  {
    if a != [] {
      var t := a + rest;
      assert t[0] == a[0] && t[1..] == a[1..] + rest;
      SplitPrefix(a[1..], rest, d);
      assert [a[0]] + (a[1..] + Split(rest, d)[0]) == a + Split(rest, d)[0];
    } else {
      var p := Split(rest, d);
      assert a + rest == rest && a + p[0] == p[0];
      assert p == [p[0]] + p[1..];
    }
  }

  /** Splitting a join recovers the parts when no part holds the separator. */
  lemma {:induction false} SplitJoin(parts: seq<string>, d: char)
    requires |parts| >= 1
    requires forall i | 0 <= i < |parts| :: d !in parts[i]
    ensures Split(Join(parts, d), d) == parts
  {
    if |parts| == 1 {
      SplitPrefix(parts[0], "", d);
      assert Split("", d) == [""];
      assert parts[0] + "" == parts[0];
      assert parts == [parts[0]];
    } else {
      var tail := Join(parts[1..], d);
      SplitJoin(parts[1..], d);
      SplitPrefix(parts[0], [d] + tail, d);
      assert ([d] + tail)[1..] == tail;
      assert Join(parts, d) == parts[0] + ([d] + tail);
      var q := Split([d] + tail, d);
      assert q == [""] + Split(tail, d);
      assert q[0] == "" && q[1..] == parts[1..];
      assert parts[0] + q[0] == parts[0];
      assert parts == [parts[0]] + parts[1..];
    }
  }

  /** Cutting a string short never gives its split more pieces. */
  lemma {:induction false} SplitPrefixLength(a: string, b: string, d: char)
    requires a <= b
    ensures |Split(a, d)| <= |Split(b, d)|
  {
    if a != [] {
      SplitPrefixLength(a[1..], b[1..], d);
    }
  }

  /** A character that is neither the separator nor in any part is not in the join. */
  lemma {:induction false} JoinCharsFrom(parts: seq<string>, d: char, c: char)
    requires c != d
    requires forall i | 0 <= i < |parts| :: c !in parts[i]
    ensures c !in Join(parts, d)
  {
    if |parts| > 1 {
      JoinCharsFrom(parts[1..], d, c);
    }
  }

  /** Each character of a string, with every occurrence of `from` replaced by `to`. */
  function Replace(s: string, from: char, to: char): (r: string)
    ensures |r| == |s|
    ensures forall i | 0 <= i < |s| :: r[i] == if s[i] == from then to else s[i]
  {
    seq(|s|, i requires 0 <= i < |s| => if s[i] == from then to else s[i])
  }

  /** to.join(s.split(from)) replaces each separator and keeps everything else. */
  lemma {:induction false} JoinSplitIsReplace(s: string, from: char, to: char)
    ensures Join(Split(s, from), to) == Replace(s, from, to)
  {
    if s != [] {
      var rest := Split(s[1..], from);
      JoinSplitIsReplace(s[1..], from, to);
      if s[0] == from {
        assert ([""] + rest)[1..] == rest;
      } else {
        JoinConsChar(s[0], rest, to);
      }
      assert Replace(s, from, to) == [Replace(s, from, to)[0]] + Replace(s[1..], from, to);
    }
  }

  // ---------------------------------------------------------------------
  // rstrip
  // ---------------------------------------------------------------------

  /**
   * str.isspace() on one character: the code points whose Unicode general
   * category is Zs or whose bidirectional class is WS, B or S.
   */
  predicate IsSpace(c: char)
  {
    var n := c as int;
    (0x09 <= n <= 0x0D) || (0x1C <= n <= 0x20) || n == 0x85 || n == 0xA0 || n == 0x1680
    || (0x2000 <= n <= 0x200A) || n == 0x2028 || n == 0x2029 || n == 0x202F || n == 0x205F
    || n == 0x3000
  }

  /** s.rstrip(): the longest prefix of s that does not end in whitespace. */
  function RStrip(s: string): (r: string)
    ensures r <= s
    ensures r == [] || !IsSpace(r[|r| - 1])
    ensures forall i | |r| <= i < |s| :: IsSpace(s[i])
  {
    if s != [] && IsSpace(s[|s| - 1]) then RStrip(s[..|s| - 1]) else s
  }

  // ---------------------------------------------------------------------
  // int() and str()
  // ---------------------------------------------------------------------

  predicate IsDigit(c: char)
  {
    '0' <= c <= '9'
  }

  predicate AllDigits(s: string)
  {
    forall i | 0 <= i < |s| :: IsDigit(s[i])
  }

  function DigitChar(v: nat): (c: char)
    requires v < 10
    ensures IsDigit(c)
  {
    ('0' as int + v) as char
  }

  function DigitValue(c: char): nat
    requires IsDigit(c)
  {
    c as int - '0' as int
  }

  /** The number written by a run of decimal digits, most significant first. */
  function DigitsValue(s: string): nat
    requires AllDigits(s)
  {
    if s == [] then 0 else DigitsValue(s[..|s| - 1]) * 10 + DigitValue(s[|s| - 1])
  }

  /** str(n) for n >= 0: decimal digits without leading zeros. */
  function NatToString(n: nat): (s: string)
    ensures |s| >= 1 && AllDigits(s)
    ensures |s| > 1 ==> s[0] != '0'
  {
    if n < 10 then [DigitChar(n)] else NatToString(n / 10) + [DigitChar(n % 10)]
  }

  /** str(n) for any int. */
  function IntToString(n: int): string
  {
    if n < 0 then "-" + NatToString(-n) else NatToString(n)
  }

  /**
   * int(s) on a column: an optional '+' or '-' followed by one or more ASCII
   * digits; anything else raises ValueError, here None.
   */
  function ParseInt(s: string): Option<int>
  {
    if |s| >= 1 && (s[0] == '-' || s[0] == '+') then
      if |s| >= 2 && AllDigits(s[1..]) then
        var v: int := DigitsValue(s[1..]);
        Some(if s[0] == '-' then -v else v)
      else None
    else if |s| >= 1 && AllDigits(s) then Some(DigitsValue(s))
    else None
  }

  lemma {:induction false} NatToStringValue(n: nat)
    ensures DigitsValue(NatToString(n)) == n
  {
    if n >= 10 {
      var s := NatToString(n);
      NatToStringValue(n / 10);
      assert s[..|s| - 1] == NatToString(n / 10);
    }
  }

  /** int(str(n)) == n. */
  lemma ParseIntRoundTrip(n: int)
    ensures ParseInt(IntToString(n)) == Some(n)
  {
    if n < 0 {
      NatToStringValue(-n);
      assert IntToString(n)[1..] == NatToString(-n);
    } else {
      NatToStringValue(n);
    }
  }

  /** Distinct numbers print differently. */
  lemma NatToStringInjective(a: nat, b: nat)
    ensures NatToString(a) == NatToString(b) <==> a == b
  {
    NatToStringValue(a);
    NatToStringValue(b);
  }

  // ---------------------------------------------------------------------
  // hex() and zfill()
  // ---------------------------------------------------------------------

  predicate IsHexDigit(c: char)
  {
    '0' <= c <= '9' || 'a' <= c <= 'f' || 'A' <= c <= 'F'
  }

  function HexValue(c: char): (v: nat)
    requires IsHexDigit(c)
    ensures v < 16
  {
    if '0' <= c <= '9' then c as int - '0' as int
    else if 'a' <= c <= 'f' then c as int - 'a' as int + 10
    else c as int - 'A' as int + 10
  }

  /** The hexadecimal digit for v, lower- or upper-case. */
  function HexDigit(v: nat, upper: bool): (c: char)
    requires v < 16
    ensures IsHexDigit(c) && HexValue(c) == v
    ensures v >= 10 ==> (if upper then 'A' <= c <= 'F' else 'a' <= c <= 'f')
  {
    if v < 10 then DigitChar(v)
    else ((if upper then 'A' else 'a') as int + (v - 10)) as char
  }

  /** hex(n)[2:]: lower-case hexadecimal digits of n without leading zeros. */
  function LowerHex(n: nat): string
  {
    if n < 16 then [HexDigit(n, false)] else LowerHex(n / 16) + [HexDigit(n % 16, false)]
  }

  /** s.zfill(width) for a string without a sign: left-padded with '0'. */
  function ZFill(s: string, width: nat): string
  {
    if |s| >= width then s else seq(width - |s|, _ => '0') + s
  }

  /** hex(n)[2:].zfill(2) is the two lower-case hex digits of n when n < 256. */
  lemma ZFillLowerHex(n: nat)
    requires n < 256
    ensures ZFill(LowerHex(n), 2) == [HexDigit(n / 16, false), HexDigit(n % 16, false)]
  {
    if n < 16 {
      assert LowerHex(n) == [HexDigit(n, false)];
      assert seq(1, _ => '0') == ['0'];
    } else {
      assert LowerHex(n / 16) == [HexDigit(n / 16, false)];
    }
  }
}
