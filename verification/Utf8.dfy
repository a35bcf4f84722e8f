/** UTF-8 as strings are encoded and strictly decoded (section 3 of RFC 3629). */
module Utf8 {
  import opened Basics

  type Byte = b: int | 0 <= b < 256 witness 0

  function EncodeChar(c: char): (r: seq<Byte>)
    ensures 1 <= |r| <= 4
  {
    var n := c as int;
    if n < 0x80 then [n]
    else if n < 0x800 then [0xC0 + n / 64, 0x80 + n % 64]
    else if n < 0x1_0000 then [0xE0 + n / 4096, 0x80 + n / 64 % 64, 0x80 + n % 64]
    else [0xF0 + n / 262144, 0x80 + n / 4096 % 64, 0x80 + n / 64 % 64, 0x80 + n % 64]
  }

  predicate Follows(b: Byte) {
    0x80 <= b < 0xC0
  }

  predicate IsScalar(n: int) {
    0 <= n < 0xD800 || 0xE000 <= n < 0x11_0000
  }

  /** The first character and how many bytes it takes; overlong forms and surrogates are refused. */
  function DecodeChar(b: seq<Byte>): (r: Option<(char, nat)>)
    ensures r.Some? ==> 1 <= r.value.1 <= |b|
  {
    if |b| == 0 then None
    else if b[0] < 0x80 then Some((b[0] as char, 1))
    else if b[0] < 0xE0 then
      if |b| < 2 || !Follows(b[1]) then None
      else
        var n := Two(b[0], b[1]);
        if n < 0x80 then None else Some((n as char, 2))
    else if b[0] < 0xF0 then
      if |b| < 3 || !Follows(b[1]) || !Follows(b[2]) then None
      else
        var n := Three(b[0], b[1], b[2]);
        if n < 0x800 || !IsScalar(n) then None else Some((n as char, 3))
    else if |b| < 4 || !Follows(b[1]) || !Follows(b[2]) || !Follows(b[3]) then None
    else
      var n := Four(b[0], b[1], b[2], b[3]);
      if n < 0x1_0000 || !IsScalar(n) then None else Some((n as char, 4))
  }

  function Two(b0: int, b1: int): int {
    (b0 - 0xC0) * 64 + (b1 - 0x80)
  }

  function Three(b0: int, b1: int, b2: int): int {
    (b0 - 0xE0) * 4096 + (b1 - 0x80) * 64 + (b2 - 0x80)
  }

  function Four(b0: int, b1: int, b2: int, b3: int): int {
    (b0 - 0xF0) * 262144 + (b1 - 0x80) * 4096 + (b2 - 0x80) * 64 + (b3 - 0x80)
  }

  function Encode(s: string): (r: seq<Byte>)
    ensures |r| >= |s|
  {
    if s == "" then [] else EncodeChar(s[0]) + Encode(s[1..])
  }

  function Decode(b: seq<Byte>): Option<string>
    decreases |b|
  {
    if b == [] then Some("")
    else match DecodeChar(b)
         case None => None
         case Some((c, k)) =>
           match Decode(b[k..])
           case None => None
           case Some(s) => Some([c] + s)
  }

  lemma CharRoundTrip(c: char, rest: seq<Byte>)
    ensures DecodeChar(EncodeChar(c) + rest) == Some((c, |EncodeChar(c)|))
  {
    DigitsBack(c as int);
    hide Two, Three, Four;
  }

  lemma DigitsBack(n: int)
    requires 0 <= n < 0x11_0000
    ensures Two(0xC0 + n / 64, 0x80 + n % 64) == n
    ensures Three(0xE0 + n / 4096, 0x80 + n / 64 % 64, 0x80 + n % 64) == n
    ensures Four(0xF0 + n / 262144, 0x80 + n / 4096 % 64, 0x80 + n / 64 % 64, 0x80 + n % 64) == n
  {
    assert n / 64 == (n / 4096) * 64 + n / 64 % 64;
    assert n / 4096 == (n / 262144) * 64 + n / 4096 % 64;
  }

  lemma CharIsShortest(b: seq<Byte>)
    requires DecodeChar(b).Some?
    ensures var (c, k) := DecodeChar(b).value; EncodeChar(c) == b[..k]
  {
    var k := DecodeChar(b).value.1;
    if k == 2 {
      TwoDigits(b[0], b[1]);
    } else if k == 3 {
      ThreeDigits(b[0], b[1], b[2]);
    } else if k == 4 {
      FourDigits(b[0], b[1], b[2], b[3]);
    }
    hide Two, Three, Four;
  }

  lemma TwoDigits(b0: int, b1: int)
    requires 0x80 <= b1 < 0xC0
    ensures var n := Two(b0, b1); n / 64 == b0 - 0xC0 && n % 64 == b1 - 0x80
  {
  }

  lemma ThreeDigits(b0: int, b1: int, b2: int)
    requires 0x80 <= b1 < 0xC0 && 0x80 <= b2 < 0xC0
    ensures var n := Three(b0, b1, b2); n / 4096 == b0 - 0xE0 && n / 64 % 64 == b1 - 0x80 && n % 64 == b2 - 0x80
  {
    var n := Three(b0, b1, b2);
    assert n / 64 == (b0 - 0xE0) * 64 + (b1 - 0x80);
  }

  lemma FourDigits(b0: int, b1: int, b2: int, b3: int)
    requires 0x80 <= b1 < 0xC0 && 0x80 <= b2 < 0xC0 && 0x80 <= b3 < 0xC0
    ensures var n := Four(b0, b1, b2, b3);
            n / 262144 == b0 - 0xF0 && n / 4096 % 64 == b1 - 0x80 && n / 64 % 64 == b2 - 0x80 && n % 64 == b3 - 0x80
  {
    var n := Four(b0, b1, b2, b3);
    var hi, mid := b0 - 0xF0, (b0 - 0xF0) * 64 + (b1 - 0x80);
    var low := mid * 64 + (b2 - 0x80);
    assert n == low * 64 + (b3 - 0x80);
    Digit(low, b3 - 0x80);
    Digit(mid, b2 - 0x80);
    Digit(hi, b1 - 0x80);
    Twice(n, 64);
    Twice(n / 64, 64);
    Twice(n, 4096);
  }

  lemma Digit(q: int, r: int)
    requires 0 <= r < 64
    ensures (q * 64 + r) / 64 == q && (q * 64 + r) % 64 == r
  {
  }

  /** Dividing by `m` and then by 64 is dividing by both at once. */
  lemma Twice(n: int, m: int)
    requires m == 64 || m == 4096
    ensures n / m / 64 == n / (m * 64)
  {
  }

  /** Every string survives. */
  lemma {:induction false} DecodeEncode(s: string)
    ensures Decode(Encode(s)) == Some(s)
  {
    if s != "" {
      CharRoundTrip(s[0], Encode(s[1..]));
      var k := |EncodeChar(s[0])|;
      assert Encode(s)[k..] == Encode(s[1..]);
      DecodeEncode(s[1..]);
      assert [s[0]] + s[1..] == s;
    }
  }

  /** Every byte string that decodes is the one encoding of what it decodes to. */
  lemma {:induction false} EncodeDecode(b: seq<Byte>)
    requires Decode(b).Some?
    ensures Encode(Decode(b).value) == b
    decreases |b|
  {
    hide DecodeChar, EncodeChar;
    if b != [] {
      var (c, k) := DecodeChar(b).value;
      CharIsShortest(b);
      EncodeDecode(b[k..]);
      EncodeCons(c, Decode(b[k..]).value);
      hide Encode, Decode;
      assert b == b[..k] + b[k..];
    }
  }

  lemma EncodeCons(c: char, s: string)
    ensures Encode([c] + s) == EncodeChar(c) + Encode(s)
  {
    assert ([c] + s)[1..] == s;
  }

  /** One text of each length class: U+00FC, U+6C34 and U+10151, as in appendix A of RFC 8949. */
  lemma Utf8Examples()
    ensures Encode("\U{FC}") == [0xC3, 0xBC] && Encode("\U{6C34}") == [0xE6, 0xB0, 0xB4]
    ensures Encode("\U{10151}") == [0xF0, 0x90, 0x85, 0x91]
  {
    assert "\U{FC}"[1..] == "" && "\U{6C34}"[1..] == "" && "\U{10151}"[1..] == "";
  }
}
