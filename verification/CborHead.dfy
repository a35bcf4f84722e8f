/** CBOR heads (section 3 of RFC 8949): initial byte, argument in the fewest bytes, and the order of encoded keys. */
module CborHead {
  import opened Basics
  import opened Utf8

  datatype CborError =
    | Empty | Truncated | Reserved | TooLarge | NotUtf8 | KeyNotUint | KeyOrder | Unsupported | Trailing

  type Read<T> = Result<T, CborError>

  // ----------------------------------------------------------------------- heads

  /** `k` bytes, most significant first. */
  function BigEndian(n: nat, k: nat): (r: seq<Byte>)
    ensures |r| == k
    decreases k
  {
    if k == 0 then [] else BigEndian(n / 256, k - 1) + [n % 256]
  }

  function FromBigEndian(b: seq<Byte>): (n: nat) {
    if b == [] then 0 else FromBigEndian(b[..|b| - 1]) * 256 + b[|b| - 1]
  }

  function EncodeHead(major: nat, n: U64): (r: seq<Byte>)
    requires major < 8
    ensures 1 <= |r| <= 9
  {
    if n < 24 then [major * 32 + n]
    else if n < 0x100 then [major * 32 + 24] + BigEndian(n, 1)
    else if n < 0x1_0000 then [major * 32 + 25] + BigEndian(n, 2)
    else if n < 0x1_0000_0000 then [major * 32 + 26] + BigEndian(n, 4)
    else [major * 32 + 27] + BigEndian(n, 8)
  }

  datatype Head = Head(major: nat, n: U64, rest: seq<Byte>)

  /** How many bytes follow the initial byte for this additional information. */
  function ExtraBytes(info: nat): Option<nat> {
    if info < 24 then Some(0)
    else match info
         case 24 => Some(1)
         case 25 => Some(2)
         case 26 => Some(4)
         case 27 => Some(8)
         case _ => None
  }

  function ReadHead(b: seq<Byte>): (r: Read<Head>)
    ensures r.Ok? ==> r.value.major < 8 && |r.value.rest| < |b|
  {
    if b == [] then Err(Empty)
    else
      var major, info, rest := b[0] / 32, b[0] % 32, b[1..];
      match ExtraBytes(info)
      case None => Err(Reserved)
      case Some(k) =>
        if |rest| < k then Err(Truncated)
        else
          BigEndianFits(rest[..k]);
          Ok(Head(major, if k == 0 then info else FromBigEndian(rest[..k]), rest[k..]))
  }

  function Pow256(k: nat): nat {
    if k == 0 then 1 else 256 * Pow256(k - 1)
  }

  lemma {:induction false} FromBelow(b: seq<Byte>)
    ensures FromBigEndian(b) < Pow256(|b|)
  {
    if b != [] { FromBelow(b[..|b| - 1]); }
  }

  lemma PowersOf256()
    ensures Pow256(0) == 1 && Pow256(1) == 0x100 && Pow256(2) == 0x1_0000 && Pow256(4) == 0x1_0000_0000
    ensures Pow256(8) == 0x1_0000_0000_0000_0000
  {
    assert Pow256(3) == 0x100_0000 && Pow256(5) == 0x100_0000_0000;
    assert Pow256(6) == 0x1_0000_0000_0000 && Pow256(7) == 0x100_0000_0000_0000;
  }

  lemma BigEndianFits(b: seq<Byte>)
    requires |b| <= 8
    ensures FromBigEndian(b) <= U64_MAX
  {
    FromBelow(b);
    PowersOf256();
    PowMonotone(|b|, 8);
  }

  lemma {:induction false} PowMonotone(a: nat, b: nat)
    requires a <= b
    ensures Pow256(a) <= Pow256(b)
    decreases b - a
  {
    if a < b { PowMonotone(a, b - 1); }
  }

  lemma {:induction false} BigEndianBack(n: nat, k: nat)
    requires n < Pow256(k)
    ensures FromBigEndian(BigEndian(n, k)) == n
    decreases k
  {
    if k > 0 {
      BigEndianBack(n / 256, k - 1);
      assert BigEndian(n, k)[..k - 1] == BigEndian(n / 256, k - 1);
    }
  }

  lemma {:induction false} BigEndianUnique(b: seq<Byte>)
    ensures BigEndian(FromBigEndian(b), |b|) == b
  {
    if b != [] {
      var front := b[..|b| - 1];
      BigEndianUnique(front);
      assert b == front + [b[|b| - 1]];
    }
  }

  function HeadSize(n: U64): nat {
    if n < 24 then 0 else if n < 0x100 then 1 else if n < 0x1_0000 then 2 else if n < 0x1_0000_0000 then 4 else 8
  }

  function HeadInfo(n: U64): nat {
    if n < 24 then n else if n < 0x100 then 24 else if n < 0x1_0000 then 25 else if n < 0x1_0000_0000 then 26 else 27
  }

  /** A head is its initial byte and the argument in as few bytes as hold it. */
  lemma HeadShape(major: nat, n: U64)
    requires major < 8
    ensures EncodeHead(major, n) == [major * 32 + HeadInfo(n)] + BigEndian(n, HeadSize(n))
    ensures ExtraBytes(HeadInfo(n)) == Some(HeadSize(n)) && HeadInfo(n) < 32
    ensures HeadSize(n) > 0 ==> n < Pow256(HeadSize(n))
  {
    PowersOf256();
  }

  lemma HeadRoundTrip(major: nat, n: U64, rest: seq<Byte>)
    requires major < 8
    ensures ReadHead(EncodeHead(major, n) + rest) == Ok(Head(major, n, rest))
  {
    HeadShape(major, n);
    var k := HeadSize(n);
    var b := EncodeHead(major, n) + rest;
    assert b[0] / 32 == major && b[0] % 32 == HeadInfo(n);
    assert b[1..][..k] == BigEndian(n, k) && b[1..][k..] == rest;
    if k > 0 { BigEndianBack(n, k); }
    hide EncodeHead, HeadSize;
  }

  /** What a reader accepts as a head is at least as long as the shortest form, and equally long only if it is it. */
  lemma HeadIsShortest(b: seq<Byte>)
    requires ReadHead(b).Ok?
    ensures var h := ReadHead(b).value; var used := b[..|b| - |h.rest|];
            && b == used + h.rest
            && |EncodeHead(h.major, h.n)| <= |used|
            && (|EncodeHead(h.major, h.n)| == |used| ==> EncodeHead(h.major, h.n) == used)
  {
    var h := ReadHead(b).value;
    var info, rest := b[0] % 32, b[1..];
    var k := ExtraBytes(info).value;
    var used := b[..|b| - |h.rest|];
    assert |used| == 1 + k && used == [b[0]] + rest[..k];
    FromBelow(rest[..k]);
    PowersOf256();
    HeadShape(h.major, h.n);
    assert k > 0 ==> HeadSize(h.n) <= k;
    if HeadSize(h.n) == k {
      SameInfo(info, h.n);
      if k > 0 { BigEndianUnique(rest[..k]); }
      assert b[0] == h.major * 32 + info;
    }
  }

  lemma SameInfo(info: nat, n: U64)
    requires ExtraBytes(info) == Some(HeadSize(n)) && (HeadSize(n) == 0 ==> n == info)
    ensures HeadInfo(n) == info
  {
  }

  // ------------------------------------------------------------------- key order

  /** Bytewise lexicographic order. */
  ghost predicate Before(a: seq<Byte>, b: seq<Byte>)
    decreases |a|
  {
    if b == [] then false
    else if a == [] then true
    else if a[0] != b[0] then a[0] < b[0]
    else Before(a[1..], b[1..])
  }

  lemma {:induction false} BeforeLast(a: seq<Byte>, b: seq<Byte>, x: Byte, y: Byte)
    requires |a| == |b|
    ensures Before(a + [x], b + [y]) <==> Before(a, b) || (a == b && x < y)
  {
    if a == [] {
      assert a + [x] == [x] && b + [y] == [y];
    } else {
      assert (a + [x])[1..] == a[1..] + [x] && (b + [y])[1..] == b[1..] + [y];
      BeforeLast(a[1..], b[1..], x, y);
      assert a == [a[0]] + a[1..] && b == [b[0]] + b[1..];
    }
  }

  lemma {:induction false} BigEndianOrder(m: nat, n: nat, k: nat)
    requires m < Pow256(k) && n < Pow256(k)
    ensures Before(BigEndian(m, k), BigEndian(n, k)) <==> m < n
    decreases k
  {
    if k > 0 {
      BigEndianOrder(m / 256, n / 256, k - 1);
      BeforeLast(BigEndian(m / 256, k - 1), BigEndian(n / 256, k - 1), m % 256, n % 256);
      if BigEndian(m / 256, k - 1) == BigEndian(n / 256, k - 1) {
        BigEndianBack(m / 256, k - 1);
        BigEndianBack(n / 256, k - 1);
      }
    }
  }

  /** For all keys, numeric order is the bytewise order of their encodings. */
  lemma KeyOrderIsByteOrder(m: U64, n: U64)
    ensures m < n <==> Before(EncodeHead(0, m), EncodeHead(0, n))
  {
    HeadShape(0, m);
    HeadShape(0, n);
    var a, b := EncodeHead(0, m), EncodeHead(0, n);
    var s, t := HeadSize(m), HeadSize(n);
    assert a[0] == HeadInfo(m) && b[0] == HeadInfo(n);
    assert a[1..] == BigEndian(m, s) && b[1..] == BigEndian(n, t);
    hide EncodeHead;
    if HeadInfo(m) == HeadInfo(n) && s > 0 {
      BigEndianOrder(m, n, s);
    }
  }
}
