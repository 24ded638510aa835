/** Text encodings the change log relies on: UTF-8, base64, decimal numbers and split fields. */
module Encoding {
  type Byte = b: int | 0 <= b < 256

  // ---------------------------------------------------------------------------
  // UTF-8 (section 3 of RFC 3629)
  // ---------------------------------------------------------------------------

  function EncodeChar(c: char): seq<Byte> {
    var n := c as int;
    if n < 0x80 then [n]
    else if n < 0x800 then [0xC0 + n / 64, 0x80 + n % 64]
    else if n < 0x10000 then [0xE0 + n / 4096, 0x80 + n / 64 % 64, 0x80 + n % 64]
    else [0xF0 + n / 262144, 0x80 + n / 4096 % 64, 0x80 + n / 64 % 64, 0x80 + n % 64]
  }

  function ToUtf8(s: string): seq<Byte> {
    if s == "" then [] else EncodeChar(s[0]) + ToUtf8(s[1..])
  }

  predicate IsScalar(n: int) {
    0 <= n < 0xD800 || 0xE000 <= n < 0x110000
  }

  const REPLACEMENT: int := 0xFFFD

  /** The code point a byte string starts with and the bytes it takes; malformed input gives a replacement. */
  function DecodeNumber(b: seq<Byte>): (r: (int, nat))
    requires b != []
    ensures 1 <= r.1 <= |b|
  {
    var b0: int := b[0];
    if b0 < 0x80 then (b0, 1)
    else if 0xC0 <= b0 < 0xE0 && |b| >= 2 then ((b0 - 0xC0) * 64 + (b[1] as int - 0x80), 2)
    else if 0xE0 <= b0 < 0xF0 && |b| >= 3 then ((b0 - 0xE0) * 4096 + (b[1] as int - 0x80) * 64 + (b[2] as int - 0x80), 3)
    else if 0xF0 <= b0 && |b| >= 4 then
      ((b0 - 0xF0) * 262144 + (b[1] as int - 0x80) * 4096 + (b[2] as int - 0x80) * 64 + (b[3] as int - 0x80), 4)
    else (REPLACEMENT, 1)
  }

  function DecodeChar(b: seq<Byte>): (r: (char, nat))
    requires b != []
    ensures 1 <= r.1 <= |b|
  {
    var (n, width) := DecodeNumber(b);
    (if IsScalar(n) then n as char else REPLACEMENT as char, width)
  }

  function FromUtf8(b: seq<Byte>): string {
    if b == [] then ""
    else
      var (c, width) := DecodeChar(b);
      [c] + FromUtf8(b[width..])
  }

  lemma DecodeEncodedChar(c: char, rest: seq<Byte>)
    ensures DecodeChar(EncodeChar(c) + rest) == (c, |EncodeChar(c)|)
  {
    var n := c as int;
    if 0x800 <= n < 0x10000 {
      assert n / 4096 * 64 + n / 64 % 64 == n / 64;
    } else if 0x10000 <= n {
      assert n / 262144 * 64 + n / 4096 % 64 == n / 4096;
      assert n / 4096 * 64 + n / 64 % 64 == n / 64;
    }
  }

  lemma {:induction false} Utf8RoundTrip(s: string)
    ensures FromUtf8(ToUtf8(s)) == s
  {
    if s != "" {
      var head, tail := EncodeChar(s[0]), ToUtf8(s[1..]);
      DecodeEncodedChar(s[0], tail);
      assert (head + tail)[|head|..] == tail;
      Utf8RoundTrip(s[1..]);
    }
  }

  // ---------------------------------------------------------------------------
  // Base64 (section 4 of RFC 4648)
  // ---------------------------------------------------------------------------

  /** The digits in order: A-Z, a-z, 0-9, plus and slash. */
  function Digit64(d: int): (c: char)
    requires 0 <= d < 64
    ensures Value64(c) == d
  {
    if d < 26 then 'A' + d as char
    else if d < 52 then 'a' + (d - 26) as char
    else if d < 62 then '0' + (d - 52) as char
    else if d == 62 then '+'
    else '/'
  }

  /** The value of a digit, or -1 for a character outside the alphabet. */
  function Value64(c: char): (d: int)
    ensures -1 <= d < 64
  {
    if 'A' <= c <= 'Z' then c as int - 'A' as int
    else if 'a' <= c <= 'z' then 26 + c as int - 'a' as int
    else if '0' <= c <= '9' then 52 + c as int - '0' as int
    else if c == '+' then 62
    else if c == '/' then 63
    else -1
  }

  function ToBase64(b: seq<Byte>): string {
    if b == [] then ""
    else if |b| == 1 then [Digit64(b[0] / 4), Digit64(b[0] % 4 * 16), '=', '=']
    else if |b| == 2 then [Digit64(b[0] / 4), Digit64(b[0] % 4 * 16 + b[1] / 16), Digit64(b[1] % 16 * 4), '=']
    else [Digit64(b[0] / 4), Digit64(b[0] % 4 * 16 + b[1] / 16), Digit64(b[1] % 16 * 4 + b[2] / 64), Digit64(b[2] % 64)]
         + ToBase64(b[3..])
  }

  /** Bits that were read but do not fill a byte yet: none, six, four or two of them. */
  datatype Pending = NoBits | SixBits(v: int) | FourBits(v: int) | TwoBits(v: int)

  predicate InRange(p: Pending) {
    match p
    case NoBits => true
    case SixBits(v) => 0 <= v < 64
    case FourBits(v) => 0 <= v < 16
    case TwoBits(v) => 0 <= v < 4
  }

  /** Characters outside the alphabet, padding among them, are skipped; bits left at the end are dropped. */
  function DecodeFrom(s: string, p: Pending): seq<Byte>
    requires InRange(p)
  {
    if s == "" then []
    else
      var d := Value64(s[0]);
      if d < 0 then DecodeFrom(s[1..], p)
      else
        match p
        case NoBits => DecodeFrom(s[1..], SixBits(d))
        case SixBits(v) => [v * 4 + d / 16] + DecodeFrom(s[1..], FourBits(d % 16))
        case FourBits(v) => [v * 16 + d / 4] + DecodeFrom(s[1..], TwoBits(d % 4))
        case TwoBits(v) => [v * 64 + d] + DecodeFrom(s[1..], NoBits)
  }

  function FromBase64(s: string): seq<Byte> {
    DecodeFrom(s, NoBits)
  }

  lemma DecodeQuad(d0: int, d1: int, d2: int, d3: int, rest: string)
    requires 0 <= d0 < 64 && 0 <= d1 < 64 && 0 <= d2 < 64 && 0 <= d3 < 64
    ensures DecodeFrom([Digit64(d0), Digit64(d1), Digit64(d2), Digit64(d3)] + rest, NoBits)
         == [d0 * 4 + d1 / 16, d1 % 16 * 16 + d2 / 4, d2 % 4 * 64 + d3] + DecodeFrom(rest, NoBits)
  {
    var s := [Digit64(d0), Digit64(d1), Digit64(d2), Digit64(d3)] + rest;
    assert s[1..][1..][1..][1..] == rest;
    assert DecodeFrom(s[1..][1..][1..], TwoBits(d2 % 4)) == [d2 % 4 * 64 + d3] + DecodeFrom(rest, NoBits);
    assert DecodeFrom(s[1..][1..], FourBits(d1 % 16)) == [d1 % 16 * 16 + d2 / 4] + DecodeFrom(s[1..][1..][1..], TwoBits(d2 % 4));
    assert DecodeFrom(s[1..], SixBits(d0)) == [d0 * 4 + d1 / 16] + DecodeFrom(s[1..][1..], FourBits(d1 % 16));
  }

  /** The bits of a byte, shared between digits, come together again. */
  lemma SharedBits(a: Byte, b: Byte, c: Byte)
    ensures 0 <= a / 4 < 64 && 0 <= a % 4 * 16 + b / 16 < 64 && 0 <= b % 16 * 4 + c / 64 < 64
    ensures a / 4 * 4 + (a % 4 * 16 + b / 16) / 16 == a
    ensures (a % 4 * 16 + b / 16) % 16 * 16 + (b % 16 * 4 + c / 64) / 4 == b
    ensures (b % 16 * 4 + c / 64) % 4 * 64 + c % 64 == c
  {
    var ah, al, bh, bl, ch, cl := a / 4, a % 4, b / 16, b % 16, c / 64, c % 64;
    assert (al * 16 + bh) / 16 == al && (al * 16 + bh) % 16 == bh;
    assert (bl * 4 + ch) / 4 == bl && (bl * 4 + ch) % 4 == ch;
  }

  lemma DecodeOne(b: Byte)
    ensures FromBase64(ToBase64([b])) == [b]
  {
    var d0, d1 := b / 4, b % 4 * 16;
    SharedBits(b, 0, 0);
    DecodeEnd([d0, d1], 2);
  }

  lemma DecodeTwo(a: Byte, b: Byte)
    ensures FromBase64(ToBase64([a, b])) == [a, b]
  {
    var d0, d1, d2 := a / 4, a % 4 * 16 + b / 16, b % 16 * 4;
    SharedBits(a, b, 0);
    DecodeEnd([d0, d1, d2], 1);
  }

  /** The last digits, followed by padding. */
  lemma DecodeEnd(d: seq<int>, padding: nat)
    requires (|d| == 2 && padding == 2) || (|d| == 3 && padding == 1)
    requires forall i :: 0 <= i < |d| ==> 0 <= d[i] < 64
    ensures |d| == 2 ==> FromBase64([Digit64(d[0]), Digit64(d[1]), '=', '=']) == [d[0] * 4 + d[1] / 16]
    ensures |d| == 3 ==>
      FromBase64([Digit64(d[0]), Digit64(d[1]), Digit64(d[2]), '=']) == [d[0] * 4 + d[1] / 16, d[1] % 16 * 16 + d[2] / 4]
  {
    if |d| == 2 {
      var s := [Digit64(d[0]), Digit64(d[1]), '=', '='];
      assert s[1..][1..] == ['=', '='];
      assert DecodeFrom(['='], FourBits(d[1] % 16)) == [];
      assert ['=', '='][1..] == ['='];
      assert DecodeFrom(s[1..][1..], FourBits(d[1] % 16)) == [];
      assert DecodeFrom(s[1..], SixBits(d[0])) == [d[0] * 4 + d[1] / 16] + [];
    } else {
      var s := [Digit64(d[0]), Digit64(d[1]), Digit64(d[2]), '='];
      assert s[1..][1..][1..] == ['='];
      assert DecodeFrom(s[1..][1..][1..], TwoBits(d[2] % 4)) == [];
      assert DecodeFrom(s[1..][1..], FourBits(d[1] % 16)) == [d[1] % 16 * 16 + d[2] / 4] + [];
      assert DecodeFrom(s[1..], SixBits(d[0])) == [d[0] * 4 + d[1] / 16] + [d[1] % 16 * 16 + d[2] / 4];
    }
  }

  lemma {:induction false} Base64RoundTrip(b: seq<Byte>)
    ensures FromBase64(ToBase64(b)) == b
  {
    if |b| == 1 {
      DecodeOne(b[0]);
      assert b == [b[0]];
    } else if |b| == 2 {
      DecodeTwo(b[0], b[1]);
      assert b == [b[0], b[1]];
    } else if b != [] {
      Base64RoundTrip(b[3..]);
      DecodeThree(b[0], b[1], b[2], b[3..]);
      assert b == [b[0], b[1], b[2]] + b[3..];
    }
  }

  lemma ThreeBytes(a: Byte, b: Byte, c: Byte, rest: seq<Byte>)
    ensures ToBase64([a, b, c] + rest)
         == [Digit64(a / 4), Digit64(a % 4 * 16 + b / 16), Digit64(b % 16 * 4 + c / 64), Digit64(c % 64)] + ToBase64(rest)
  {
    assert ([a, b, c] + rest)[3..] == rest;
  }

  lemma DecodeThree(a: Byte, b: Byte, c: Byte, rest: seq<Byte>)
    requires FromBase64(ToBase64(rest)) == rest
    ensures FromBase64(ToBase64([a, b, c] + rest)) == [a, b, c] + rest
  {
    SharedBits(a, b, c);
    ThreeBytes(a, b, c, rest);
    DecodeQuad(a / 4, a % 4 * 16 + b / 16, b % 16 * 4 + c / 64, c % 64, ToBase64(rest));
  }

  predicate Avoids(s: string, c: char) {
    forall i :: 0 <= i < |s| ==> s[i] != c
  }

  lemma {:induction false} Base64HasNoSpace(b: seq<Byte>)
    ensures Avoids(ToBase64(b), ' ')
  {
    if |b| > 2 {
      Base64HasNoSpace(b[3..]);
    }
  }

  // ---------------------------------------------------------------------------
  // Both are the encodings of the standards
  // ---------------------------------------------------------------------------

  predicate Continues(b: Byte) {
    0x80 <= b < 0xC0
  }

  /** The table of section 3 of RFC 3629: the first byte tells the length, and the free bits spell the number. */
  lemma Utf8Table(c: char)
    ensures var n, b := c as int, EncodeChar(c);
            if n < 0x80 then b == [n]
            else if n < 0x800 then |b| == 2 && 0xC2 <= b[0] < 0xE0 && Continues(b[1]) && n == (b[0] as int - 0xC0) * 64 + (b[1] as int - 0x80)
            else if n < 0x10000 then
              |b| == 3 && 0xE0 <= b[0] < 0xF0 && Continues(b[1]) && Continues(b[2])
              && n == ((b[0] as int - 0xE0) * 64 + (b[1] as int - 0x80)) * 64 + (b[2] as int - 0x80)
            else
              |b| == 4 && 0xF0 <= b[0] < 0xF5 && Continues(b[1]) && Continues(b[2]) && Continues(b[3])
              && n == (((b[0] as int - 0xF0) * 64 + (b[1] as int - 0x80)) * 64 + (b[2] as int - 0x80)) * 64 + (b[3] as int - 0x80)
  {
    var n := c as int;
    if 0x800 <= n < 0x10000 {
      assert n / 4096 * 64 + n / 64 % 64 == n / 64;
    } else if 0x10000 <= n {
      assert n / 262144 * 64 + n / 4096 % 64 == n / 4096;
      assert n / 4096 * 64 + n / 64 % 64 == n / 64;
    }
  }

  /** Table 1 of RFC 4648: 26 capital letters, 26 small ones, 10 digits, plus and slash. */
  lemma Base64Alphabet(i: int)
    ensures 0 <= i < 26 ==> Value64('A' + i as char) == i && Value64('a' + i as char) == 26 + i
    ensures 0 <= i < 10 ==> Value64('0' + i as char) == 52 + i
    ensures Value64('+') == 62 && Value64('/') == 63 && Value64('=') == -1
  {
  }

  function Spelled(digits: string): int {
    if digits == "" then 0 else 64 * Spelled(digits[..|digits| - 1]) + Value64(digits[|digits| - 1])
  }

  lemma SpelledFour(d0: int, d1: int, d2: int, d3: int)
    requires 0 <= d0 < 64 && 0 <= d1 < 64 && 0 <= d2 < 64 && 0 <= d3 < 64
    ensures Spelled([Digit64(d0), Digit64(d1)]) == 64 * d0 + d1
    ensures Spelled([Digit64(d0), Digit64(d1), Digit64(d2)]) == 64 * (64 * d0 + d1) + d2
    ensures Spelled([Digit64(d0), Digit64(d1), Digit64(d2), Digit64(d3)]) == 64 * (64 * (64 * d0 + d1) + d2) + d3
  {
    var s1, s2 := [Digit64(d0)], [Digit64(d0), Digit64(d1)];
    var s3, s4 := s2 + [Digit64(d2)], s2 + [Digit64(d2)] + [Digit64(d3)];
    assert s1[..0] == "" && s2[..1] == s1 && s3[..2] == s2 && s4[..3] == s3;
    assert Spelled(s1) == d0 && Spelled(s2) == 64 * d0 + d1 && Spelled(s3) == 64 * (64 * d0 + d1) + d2;
    assert s3 == [Digit64(d0), Digit64(d1), Digit64(d2)] && s4 == [Digit64(d0), Digit64(d1), Digit64(d2), Digit64(d3)];
  }

  /** Section 4 of RFC 4648: three bytes are the 24 bits of four digits, the first ones first. */
  lemma Base64Bits(a: Byte, b: Byte, c: Byte, rest: seq<Byte>)
    ensures var s := ToBase64([a, b, c] + rest);
            |s| >= 4 && Spelled(s[..4]) == 65536 * a as int + 256 * b as int + c as int && s[4..] == ToBase64(rest)
  {
    SharedBits(a, b, c);
    ThreeBytes(a, b, c, rest);
    SpelledFour(a / 4, a % 4 * 16 + b / 16, b % 16 * 4 + c / 64, c % 64);
    var s := ToBase64([a, b, c] + rest);
    assert s[..4] == [Digit64(a / 4), Digit64(a % 4 * 16 + b / 16), Digit64(b % 16 * 4 + c / 64), Digit64(c % 64)];
  }

  /** Two bytes at the end are filled up with two zero bits and padded. */
  lemma Base64EndTwo(a: Byte, b: Byte)
    ensures var s := ToBase64([a, b]); |s| == 4 && Spelled(s[..3]) == (256 * a as int + b as int) * 4 && s[3..] == "="
  {
    var d0, d1, d2 := a / 4, a % 4 * 16 + b / 16, b % 16 * 4;
    SharedBits(a, b, 0);
    SpelledFour(d0, d1, d2, 0);
    var s := ToBase64([a, b]);
    assert s == [Digit64(d0), Digit64(d1), Digit64(d2), '='];
    assert s[..3] == [Digit64(d0), Digit64(d1), Digit64(d2)];
  }

  /** One byte with four. */
  lemma Base64EndOne(a: Byte)
    ensures var s := ToBase64([a]); |s| == 4 && Spelled(s[..2]) == a as int * 16 && s[2..] == "=="
  {
    var d0, d1 := a / 4, a % 4 * 16;
    SharedBits(a, 0, 0);
    SpelledFour(d0, d1, 0, 0);
    var s := ToBase64([a]);
    assert s == [Digit64(d0), Digit64(d1), '=', '='];
    assert s[..2] == [Digit64(d0), Digit64(d1)];
  }

  // ---------------------------------------------------------------------------
  // Decimal numbers
  // ---------------------------------------------------------------------------

  function ToDecimal(n: nat): string {
    (if n < 10 then "" else ToDecimal(n / 10)) + [DigitOf(n % 10)]
  }

  /** Reads a run of digits; anything else is no number. */
  function ParseDecimal(s: string): int {
    if s == "" then 0
    else
      var last := s[|s| - 1];
      if '0' <= last <= '9' then 10 * ParseDecimal(s[..|s| - 1]) + (last as int - '0' as int) else -1
  }

  ghost predicate AllDigits(s: string) {
    forall i :: 0 <= i < |s| ==> '0' <= s[i] <= '9'
  }

  function DigitOf(d: int): (c: char)
    requires 0 <= d < 10
    ensures '0' <= c <= '9' && c as int - '0' as int == d
  {
    '0' + d as char
  }

  lemma ParseSnoc(head: string, d: int)
    requires 0 <= d < 10
    ensures ParseDecimal(head + [DigitOf(d)]) == 10 * ParseDecimal(head) + d
  {
    var s := head + [DigitOf(d)];
    assert s[..|s| - 1] == head;
  }

  lemma {:induction false} DecimalRoundTrip(n: nat)
    ensures ParseDecimal(ToDecimal(n)) == n
    ensures ToDecimal(n) != "" && AllDigits(ToDecimal(n))
  {
    var head := if n < 10 then "" else ToDecimal(n / 10);
    if n >= 10 {
      DecimalRoundTrip(n / 10);
    }
    assert ParseDecimal(head) == n / 10;
    ParseSnoc(head, n % 10);
  }

  // ---------------------------------------------------------------------------
  // Fields
  // ---------------------------------------------------------------------------

  /** The pieces between the separators; always at least one. */
  function Split(s: string, sep: char): (r: seq<string>)
    ensures r != []
  {
    if s == "" then [""]
    else
      var rest := Split(s[1..], sep);
      if s[0] == sep then [""] + rest else [[s[0]] + rest[0]] + rest[1..]
  }

  lemma {:induction false} SplitSingle(a: string, sep: char)
    requires Avoids(a, sep)
    ensures Split(a, sep) == [a]
  {
    if a != "" {
      SplitSingle(a[1..], sep);
      assert a == [a[0]] + a[1..];
    }
  }

  lemma {:induction false} SplitFirst(a: string, rest: string, sep: char)
    requires Avoids(a, sep)
    ensures Split(a + [sep] + rest, sep) == [a] + Split(rest, sep)
  {
    var s := a + [sep] + rest;
    if a == "" {
      assert s[1..] == rest;
    } else {
      assert s[1..] == a[1..] + [sep] + rest;
      SplitFirst(a[1..], rest, sep);
      assert a == [a[0]] + a[1..];
    }
  }
}
