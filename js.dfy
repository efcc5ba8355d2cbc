/**
 * The JavaScript built-ins the services lean on, stated as Dafny functions:
 * String.prototype.trim and split, parseInt with radix 10, the decimal
 * rendering of an integer in a template literal, Buffer's lower-case hex,
 * and encodeURIComponent together with the percent-decoding it is undone by.
 */
module Js {
  import opened Wrappers

  type Byte = b: int | 0 <= b < 256

  /** An optional string value as `||` and `if` see it: present and not empty. */
  predicate Truthy(v: Option<string>) {
    v.Some? && v.value != ""
  }

  // ---------------------------------------------------------------------------
  // Whitespace and trim
  // ---------------------------------------------------------------------------

  /** ECMAScript WhiteSpace and LineTerminator code points: what trim removes and parseInt skips. */
  predicate IsSpace(c: char) {
    c == ' ' || c == '\t' || c == '\n' || c == '\r' || c == '\U{000B}' || c == '\U{000C}'
    || c == '\U{00A0}' || c == '\U{1680}' || ('\U{2000}' <= c <= '\U{200A}')
    || c == '\U{2028}' || c == '\U{2029}' || c == '\U{202F}' || c == '\U{205F}'
    || c == '\U{3000}' || c == '\U{FEFF}'
  }

  /** The suffix of s left after dropping its leading whitespace. */
  function TrimStart(s: string): (r: string)
    ensures |r| <= |s| && r == s[|s| - |r|..]
    ensures r == [] || !IsSpace(r[0])
    ensures forall i :: 0 <= i < |s| - |r| ==> IsSpace(s[i])
  {
    if s != [] && IsSpace(s[0]) then TrimStart(s[1..]) else s
  }

  /** The prefix of s left after dropping its trailing whitespace. */
  function TrimEnd(s: string): (r: string)
    ensures |r| <= |s| && r == s[..|r|]
    ensures r == [] || !IsSpace(r[|r| - 1])
    ensures forall i :: |r| <= i < |s| ==> IsSpace(s[i])
  {
    if s != [] && IsSpace(s[|s| - 1]) then TrimEnd(s[..|s| - 1]) else s
  }

  /** String.prototype.trim: s with whitespace removed from both ends. */
  function Trim(s: string): (r: string)
    ensures |r| <= |TrimStart(s)| <= |s|
    ensures r == [] || (!IsSpace(r[0]) && !IsSpace(r[|r| - 1]))
    ensures forall k :: 0 <= k < |r| ==> r[k] == s[|s| - |TrimStart(s)| + k]
    ensures forall i :: |s| - |TrimStart(s)| + |r| <= i < |s| ==> IsSpace(s[i])
  {
    var t := TrimStart(s);
    var r := TrimEnd(t);
    assert forall i :: |s| - |t| + |r| <= i < |s| ==> s[i] == t[i - (|s| - |t|)];
    r
  }

  /** A string with no whitespace at either end. */
  predicate IsTrimmed(s: string) {
    s == [] || (!IsSpace(s[0]) && !IsSpace(s[|s| - 1]))
  }

  lemma TrimKeepsTrimmed(s: string)
    requires IsTrimmed(s)
    ensures Trim(s) == s
  {
    if s != [] {
      assert TrimStart(s) == s;
      assert TrimEnd(s) == s;
    }
  }

  lemma TrimIdempotent(s: string)
    ensures Trim(Trim(s)) == Trim(s)
  {
    TrimKeepsTrimmed(Trim(s));
  }

  // ---------------------------------------------------------------------------
  // split / join on a one-character separator
  // ---------------------------------------------------------------------------

  /** String.prototype.split with a one-character separator: "" gives [""], "a,,b" gives ["a","","b"]. */
  function Split(s: string, sep: char): (parts: seq<string>)
    ensures |parts| >= 1
    ensures forall k :: 0 <= k < |parts| ==> sep !in parts[k]
  {
    if s == [] then [[]]
    else
      var rest := Split(s[1..], sep);
      if s[0] == sep then [[]] + rest
      else [[s[0]] + rest[0]] + rest[1..]
  }

  /** Array.prototype.join with a one-character separator. */
  function Join(parts: seq<string>, sep: char): string {
    if parts == [] then []
    else if |parts| == 1 then parts[0]
    else parts[0] + [sep] + Join(parts[1..], sep)
  }

  lemma {:induction false} JoinSplit(s: string, sep: char)
    ensures Join(Split(s, sep), sep) == s
  {
    if s != [] {
      var rest := Split(s[1..], sep);
      JoinSplit(s[1..], sep);
      if s[0] == sep {
        assert Split(s, sep) == [[]] + rest;
      } else {
        var parts := Split(s, sep);
        assert parts == [[s[0]] + rest[0]] + rest[1..];
        if |rest| == 1 {
          assert Join(parts, sep) == [s[0]] + rest[0];
        } else {
          assert rest == [rest[0]] + rest[1..];
          assert Join(rest, sep) == rest[0] + [sep] + Join(rest[1..], sep);
          assert parts[1..] == rest[1..];
        }
      }
    }
  }

  /** Splitting the join of separator-free parts gives the parts back. */
  lemma {:induction false} SplitJoin(parts: seq<string>, sep: char)
    requires |parts| >= 1
    requires forall k :: 0 <= k < |parts| ==> sep !in parts[k]
    ensures Split(Join(parts, sep), sep) == parts
  {
    if |parts| == 1 {
      SplitNoSep(parts[0], sep);
    } else {
      SplitJoin(parts[1..], sep);
      SplitPrefix(parts[0], Join(parts[1..], sep), sep);
      assert parts == [parts[0]] + parts[1..];
    }
  }

  lemma {:induction false} SplitNoSep(s: string, sep: char)
    requires sep !in s
    ensures Split(s, sep) == [s]
  {
    if s != [] {
      SplitNoSep(s[1..], sep);
      assert [s[0]] + s[1..] == s;
    }
  }

  lemma {:induction false} SplitPrefix(a: string, b: string, sep: char)
    requires sep !in a
    ensures Split(a + [sep] + b, sep) == [a] + Split(b, sep)
  {
    if a == [] {
      assert a + [sep] + b == [sep] + b;
      assert ([sep] + b)[1..] == b;
    } else {
      assert (a + [sep] + b)[1..] == a[1..] + [sep] + b;
      SplitPrefix(a[1..], b, sep);
      assert [a[0]] + a[1..] == a;
    }
  }

  // ---------------------------------------------------------------------------
  // Decimal numbers: template-literal rendering and parseInt(s, 10)
  // ---------------------------------------------------------------------------

  predicate IsDigit(c: char) { '0' <= c <= '9' }

  predicate AllDigits(s: string) { forall i :: 0 <= i < |s| ==> IsDigit(s[i]) }

  function DigitChar(d: nat): (c: char)
    requires d < 10
    ensures IsDigit(c) && c as int - '0' as int == d
  {
    ('0' as int + d) as char
  }

  /** The value of a run of decimal digits, most significant first. */
  function DigitsValue(ds: string): nat
    requires AllDigits(ds)
  {
    if ds == [] then 0 else DigitsValue(ds[..|ds| - 1]) * 10 + (ds[|ds| - 1] as int - '0' as int)
  }

  /** A non-negative integer as JavaScript writes it: no sign, no leading zero. */
  function NatToString(n: nat): (s: string)
    ensures |s| >= 1 && AllDigits(s)
    ensures s[0] == '0' ==> n == 0
  {
    if n < 10 then [DigitChar(n)] else NatToString(n / 10) + [DigitChar(n % 10)]
  }

  /** An integer as `${n}` writes it. */
  function IntToString(n: int): (s: string)
    ensures |s| >= 1
    ensures '/' !in s && ',' !in s
  {
    if n < 0 then "-" + NatToString(-n) else NatToString(n)
  }

  lemma {:induction false} NatToStringValue(n: nat)
    ensures DigitsValue(NatToString(n)) == n
  {
    if n >= 10 {
      NatToStringValue(n / 10);
      var s := NatToString(n);
      assert s[..|s| - 1] == NatToString(n / 10);
    }
  }

  /** The longest prefix of s made of decimal digits. */
  function LeadingDigits(s: string): (ds: string)
    ensures AllDigits(ds) && |ds| <= |s| && ds == s[..|ds|]
    ensures |ds| < |s| ==> !IsDigit(s[|ds|])
  {
    if s != [] && IsDigit(s[0]) then [s[0]] + LeadingDigits(s[1..]) else []
  }

  /**
   * parseInt(s, 10): skip leading whitespace, take an optional sign and the
   * longest run of digits; no digit at all is NaN, here None.
   */
  function ParseInt(s: string): (r: Option<int>) {
    ParseSigned(TrimStart(s))
  }

  /** parseInt on text that starts with no whitespace. */
  function ParseSigned(t: string): Option<int> {
    if t != [] && t[0] == '-' then
      match ParseDigits(t[1..])
      case None => None
      case Some(v) => Some(-v)
    else if t != [] && t[0] == '+' then ParseDigits(t[1..])
    else ParseDigits(t)
  }

  /** The value of the digits body starts with, if it starts with one. */
  function ParseDigits(body: string): Option<int> {
    var ds := LeadingDigits(body);
    if ds == [] then None else Some(DigitsValue(ds))
  }

  lemma {:induction false} LeadingDigitsOf(ds: string, rest: string)
    requires AllDigits(ds)
    requires rest == [] || !IsDigit(rest[0])
    ensures LeadingDigits(ds + rest) == ds
  {
    if ds != [] {
      assert (ds + rest)[1..] == ds[1..] + rest;
      LeadingDigitsOf(ds[1..], rest);
      assert [ds[0]] + ds[1..] == ds;
    } else {
      assert ds + rest == rest;
    }
  }

  /** parseInt reads back what `${n}` wrote, whatever non-digit text follows. */
  lemma ParseIntOfIntToString(n: int, rest: string)
    requires rest == [] || !IsDigit(rest[0])
    ensures ParseInt(IntToString(n) + rest) == Some(n)
  {
    if n < 0 {
      var m: nat := -n;
      ParseIntOfNegative(m, rest);
      assert IntToString(n) == "-" + NatToString(m);
    } else {
      ParseIntOfNat(n, rest);
    }
  }

  /** The two halves of a concatenation, read back by index. */
  lemma SplitAt(m: string, a: string, b: string)
    requires m == a + b
    ensures m[..|a|] == a && m[|a|..] == b
  {
  }

  /** A number written at offset at, followed by a non-digit, is what parseInt reads from there. */
  lemma NumberAt(m: string, at: nat, n: int, tail: string)
    requires at <= |m| && m[at..] == IntToString(n) + tail
    requires tail == [] || !IsDigit(tail[0])
    ensures ParseInt(m[at..]) == Some(n)
  {
    ParseIntOfIntToString(n, tail);
  }

  lemma ParseIntOfNat(m: nat, rest: string)
    requires rest == [] || !IsDigit(rest[0])
    ensures ParseInt(NatToString(m) + rest) == Some(m)
  {
    var digits := NatToString(m);
    var s := digits + rest;
    assert ParseDigits(s) == Some(m) by {
      LeadingDigitsOf(digits, rest);
      NatToStringValue(m);
    }
    assert s[0] == digits[0];
    DigitIsNotSpace(s[0]);
    assert TrimStart(s) == s;
  }

  lemma DigitIsNotSpace(c: char)
    requires IsDigit(c)
    ensures !IsSpace(c) && c != '-' && c != '+'
  {
  }

  lemma ParseIntOfNegative(m: nat, rest: string)
    requires m > 0
    requires rest == [] || !IsDigit(rest[0])
    ensures ParseInt("-" + NatToString(m) + rest) == Some(-(m as int))
  {
    var digits := NatToString(m);
    var t := digits + rest;
    assert ParseDigits(t) == Some(m) by {
      LeadingDigitsOf(digits, rest);
      NatToStringValue(m);
    }
    var s := ['-'] + t;
    assert "-" + digits + rest == s;
    assert s[1..] == t;
    assert TrimStart(s) == s by {
      assert !IsSpace(s[0]);
    }
  }

  // ---------------------------------------------------------------------------
  // Hexadecimal
  // ---------------------------------------------------------------------------

  function HexDigitLower(d: nat): char
    requires d < 16
  {
    if d < 10 then ('0' as int + d) as char else ('a' as int + d - 10) as char
  }

  function HexDigitUpper(d: nat): char
    requires d < 16
  {
    if d < 10 then ('0' as int + d) as char else ('A' as int + d - 10) as char
  }

  predicate IsHexDigit(c: char) {
    ('0' <= c <= '9') || ('a' <= c <= 'f') || ('A' <= c <= 'F')
  }

  function HexValue(c: char): (d: nat)
    requires IsHexDigit(c)
    ensures d < 16
  {
    if '0' <= c <= '9' then c as int - '0' as int
    else if 'a' <= c <= 'f' then c as int - 'a' as int + 10
    else c as int - 'A' as int + 10
  }

  lemma HexUpperRoundTrip(d: nat)
    requires d < 16
    ensures IsHexDigit(HexDigitUpper(d)) && HexValue(HexDigitUpper(d)) == d
  {
  }

  /** Buffer.prototype.toString('hex'): two lower-case hex digits per byte. */
  function HexLower(bytes: seq<Byte>): (s: string)
    ensures |s| == 2 * |bytes|
    ensures forall i :: 0 <= i < |s| ==> IsHexDigit(s[i])
  {
    if bytes == [] then []
    else [HexDigitLower(bytes[0] / 16), HexDigitLower(bytes[0] % 16)] + HexLower(bytes[1..])
  }

  /** Each byte can be read back from its two digits, high one first, and no digit is upper-case. */
  lemma {:induction false} HexLowerDecodes(bytes: seq<Byte>)
    ensures forall i :: 0 <= i < |bytes| ==>
      16 * HexValue(HexLower(bytes)[2 * i]) + HexValue(HexLower(bytes)[2 * i + 1]) == bytes[i] as int
    ensures forall j :: 0 <= j < |HexLower(bytes)| ==> !('A' <= HexLower(bytes)[j] <= 'F')
  {
    if bytes != [] {
      var s := HexLower(bytes);
      var rest := HexLower(bytes[1..]);
      HexLowerDecodes(bytes[1..]);
      assert s == [HexDigitLower(bytes[0] / 16), HexDigitLower(bytes[0] % 16)] + rest;
      forall i | 0 <= i < |bytes|
        ensures 16 * HexValue(s[2 * i]) + HexValue(s[2 * i + 1]) == bytes[i] as int
      {
        if i > 0 {
          assert s[2 * i] == rest[2 * (i - 1)] && s[2 * i + 1] == rest[2 * (i - 1) + 1];
          assert bytes[i] == bytes[1..][i - 1];
        }
      }
      forall j | 0 <= j < |s|
        ensures !('A' <= s[j] <= 'F')
      {
        if j >= 2 {
          assert s[j] == rest[j - 2];
        }
      }
    }
  }

  // ---------------------------------------------------------------------------
  // encodeURIComponent
  // ---------------------------------------------------------------------------

  /** The characters encodeURIComponent leaves as they are. */
  predicate IsUnreserved(c: char) {
    ('A' <= c <= 'Z') || ('a' <= c <= 'z') || ('0' <= c <= '9')
    || c == '-' || c == '_' || c == '.' || c == '!' || c == '~' || c == '*' || c == '\'' || c == '(' || c == ')'
  }

  /** The UTF-8 encoding of one Unicode scalar value. */
  function Utf8(c: char): (bytes: seq<Byte>)
    ensures 1 <= |bytes| <= 4
  {
    var v := c as int;
    if v < 0x80 then [v]
    else if v < 0x800 then [0xC0 + v / 64, 0x80 + v % 64]
    else if v < 0x10000 then [0xE0 + v / 4096, 0x80 + (v / 64) % 64, 0x80 + v % 64]
    else [0xF0 + v / 262144, 0x80 + (v / 4096) % 64, 0x80 + (v / 64) % 64, 0x80 + v % 64]
  }

  function Utf8String(s: string): seq<Byte> {
    if s == [] then [] else Utf8(s[0]) + Utf8String(s[1..])
  }

  /** %XX escapes, upper-case hex, one per byte. */
  function PercentBytes(bytes: seq<Byte>): (s: string)
    ensures |s| == 3 * |bytes|
  {
    if bytes == [] then []
    else PercentTriple(bytes[0]) + PercentBytes(bytes[1..])
  }

  /** Escapes hold only '%' and hex digits, all of them unreserved. */
  lemma {:induction false} PercentBytesChars(bytes: seq<Byte>)
    ensures forall i :: 0 <= i < |PercentBytes(bytes)| ==> IsUnreserved(PercentBytes(bytes)[i]) || PercentBytes(bytes)[i] == '%'
  {
    if bytes != [] {
      PercentBytesChars(bytes[1..]);
      var t := PercentTriple(bytes[0]);
      assert IsHexDigit(t[1]) && IsHexDigit(t[2]);
    }
  }

  function EncodeChar(c: char): (e: string)
    ensures forall i :: 0 <= i < |e| ==> IsUnreserved(e[i]) || e[i] == '%'
  {
    if IsUnreserved(c) then [c]
    else
      PercentBytesChars(Utf8(c));
      PercentBytes(Utf8(c))
  }

  /** encodeURIComponent: unreserved characters stay, every other character becomes its UTF-8 bytes as %XX. */
  function EncodeUriComponent(s: string): (r: string)
    ensures forall i :: 0 <= i < |r| ==> IsUnreserved(r[i]) || r[i] == '%'
    ensures '/' !in r
  {
    if s == [] then [] else EncodeChar(s[0]) + EncodeUriComponent(s[1..])
  }

  /** Percent-decoding to bytes: %XX is one byte, any other character stands for its own code. */
  function PercentDecode(s: string): seq<int> {
    if s == [] then []
    else if s[0] == '%' && |s| >= 3 && IsHexDigit(s[1]) && IsHexDigit(s[2]) then
      [HexValue(s[1]) * 16 + HexValue(s[2])] + PercentDecode(s[3..])
    else [s[0] as int] + PercentDecode(s[1..])
  }

  lemma {:induction false} DecodePercentBytes(bytes: seq<Byte>, rest: string)
    ensures PercentDecode(PercentBytes(bytes) + rest) == bytes + PercentDecode(rest)
  {
    if bytes != [] {
      var b := bytes[0];
      var tail := PercentBytes(bytes[1..]) + rest;
      calc {
        PercentDecode(PercentBytes(bytes) + rest);
        { assert PercentBytes(bytes) + rest == PercentTriple(b) + tail; }
        PercentDecode(PercentTriple(b) + tail);
        { DecodeTriple(b, tail); }
        [b] + PercentDecode(tail);
        { DecodePercentBytes(bytes[1..], rest); }
        [b] + (bytes[1..] + PercentDecode(rest));
        { assert [b] + bytes[1..] == bytes; }
        bytes + PercentDecode(rest);
      }
    } else {
      assert PercentBytes(bytes) + rest == rest;
    }
  }

  /** '%' and the two upper-case hex digits of a byte. */
  function PercentTriple(b: Byte): string {
    ['%', HexDigitUpper(b / 16), HexDigitUpper(b % 16)]
  }

  lemma DecodeTriple(b: Byte, tail: string)
    ensures PercentDecode(PercentTriple(b) + tail) == [b] + PercentDecode(tail)
  {
    var s := PercentTriple(b) + tail;
    HexUpperRoundTrip(b / 16);
    HexUpperRoundTrip(b % 16);
    assert s[0] == '%' && IsHexDigit(s[1]) && IsHexDigit(s[2]);
    assert HexValue(s[1]) * 16 + HexValue(s[2]) == b;
    assert s[3..] == tail;
  }

  /** Percent-decoding undoes encodeURIComponent, giving the UTF-8 bytes of the input. */
  lemma {:induction false} DecodeEncodeUriComponent(s: string)
    ensures PercentDecode(EncodeUriComponent(s)) == Utf8String(s)
  {
    if s != [] {
      var c := s[0];
      var tail := EncodeUriComponent(s[1..]);
      DecodeEncodeUriComponent(s[1..]);
      if IsUnreserved(c) {
        var e := [c] + tail;
        assert e[1..] == tail;
        assert EncodeUriComponent(s) == e;
      } else {
        DecodePercentBytes(Utf8(c), tail);
      }
    }
  }

  /** encodeURIComponent changes nothing exactly when every character is unreserved. */
  lemma {:induction false} EncodeUnreservedIdentity(s: string)
    ensures EncodeUriComponent(s) == s <==> forall i :: 0 <= i < |s| ==> IsUnreserved(s[i])
  {
    if s != [] {
      EncodeUnreservedIdentity(s[1..]);
      EncodeLength(s[1..]);
      var c := s[0];
      if IsUnreserved(c) {
        assert EncodeUriComponent(s) == [c] + EncodeUriComponent(s[1..]);
        if EncodeUriComponent(s) == s {
          assert EncodeUriComponent(s[1..]) == s[1..];
        }
        if forall i :: 0 <= i < |s| ==> IsUnreserved(s[i]) {
          assert forall i :: 0 <= i < |s[1..]| ==> IsUnreserved(s[1..][i]) by {
            forall i | 0 <= i < |s[1..]| ensures IsUnreserved(s[1..][i]) {
              assert s[1..][i] == s[i + 1];
            }
          }
        } else {
          var i :| 0 <= i < |s| && !IsUnreserved(s[i]);
          assert !IsUnreserved(s[1..][i - 1]);
        }
      } else {
        assert |EncodeUriComponent(s)| >= 3 + |s| - 1;
      }
    }
  }

  lemma {:induction false} EncodeLength(s: string)
    ensures |EncodeUriComponent(s)| >= |s|
  {
    if s != [] {
      EncodeLength(s[1..]);
    }
  }

  // ---------------------------------------------------------------------------
  // Math.min, Math.max and Math.ceil of a quotient
  // ---------------------------------------------------------------------------

  function Min(a: int, b: int): (m: int)
    ensures m <= a && m <= b && (m == a || m == b)
  {
    if a <= b then a else b
  }

  function Max(a: int, b: int): (m: int)
    ensures m >= a && m >= b && (m == a || m == b)
  {
    if a >= b then a else b
  }

  /** Math.ceil(a / b) for integers, computed exactly. */
  function CeilDiv(a: int, b: int): int
    requires b != 0
  {
    if b > 0 then -((-a) / b) else -(a / (-b))
  }

  /** The quotient lies in (c - 1, c]: multiplied out, on either sign of b. */
  lemma CeilDivBounds(a: int, b: int)
    requires b != 0
    ensures b > 0 ==> (CeilDiv(a, b) - 1) * b < a <= CeilDiv(a, b) * b
    ensures b < 0 ==> CeilDiv(a, b) * b <= a < (CeilDiv(a, b) - 1) * b
  {
    var m := if b > 0 then b else -b;
    var n := if b > 0 then -a else a;
    var q := n / m;
    var r := n % m;
    assert n == q * m + r && 0 <= r < m;
    assert CeilDiv(a, b) == -q;
    if b > 0 {
      assert (-q) * b == a + r;
    } else {
      assert (-q) * b == q * m;
      assert q * m == a - r;
      assert (-q - 1) * b == a - r + m;
    }
  }
}
