/**
 What the reader takes and what it refuses: reading looks no further than the value it returns, so an encoding is refused
 with anything missing or anything added; and only five kinds of items are read.
 */
module CborReading {
  import opened Basics
  import Utf8
  import opened CborHead
  import opened Cbor

  lemma HeadExtends(b: seq<Byte>, x: seq<Byte>)
    requires ReadHead(b).Ok?
    ensures var h := ReadHead(b).value; ReadHead(b + x) == Ok(Head(h.major, h.n, h.rest + x))
  {
    var k := ExtraBytes(b[0] % 32).value;
    assert (b + x)[0] == b[0] && (b + x)[1..] == b[1..] + x;
    assert (b[1..] + x)[..k] == b[1..][..k] && (b[1..] + x)[k..] == b[1..][k..] + x;
  }

  /** More bytes after a value make no difference to it. */
  lemma {:induction false} ReadExtends(b: seq<Byte>, x: seq<Byte>)
    requires ReadValue(b).Ok?
    ensures var (v, rest) := ReadValue(b).value; ReadValue(b + x) == Ok((v, rest + x))
    decreases |b|, 1
  {
    var v := ReadValue(b).value.0;
    if v.Array? || v.Map? { NestExtends(b, x); } else { PlainExtends(b, x); }
  }

  lemma PlainExtends(b: seq<Byte>, x: seq<Byte>)
    requires ReadValue(b).Ok? && !ReadValue(b).value.0.Array? && !ReadValue(b).value.0.Map?
    ensures var (v, rest) := ReadValue(b).value; ReadValue(b + x) == Ok((v, rest + x))
  {
    HeadExtends(b, x);
    var h := ReadHead(b).value;
    hide ReadHead, ReadItems, ReadPairs, Utf8.Decode;
    CutExtends(h.rest, h.n, x);
  }

  lemma CutExtends(r: seq<Byte>, n: nat, x: seq<Byte>)
    ensures n <= |r| ==> n <= |r + x| && (r + x)[..n] == r[..n] && (r + x)[n..] == r[n..] + x
  {
  }

  lemma {:induction false} NestExtends(b: seq<Byte>, x: seq<Byte>)
    requires ReadValue(b).Ok? && (ReadValue(b).value.0.Array? || ReadValue(b).value.0.Map?)
    ensures var (v, rest) := ReadValue(b).value; ReadValue(b + x) == Ok((v, rest + x))
    decreases |b|, 0
  {
    HeadExtends(b, x);
    var h := ReadHead(b).value;
    if h.major == 4 { ItemsExtend(h.rest, h.n, x); } else { PairsExtend(h.rest, h.n, None, x); }
    hide ReadHead, ReadItems, ReadPairs, Utf8.Decode;
  }

  lemma {:induction false} ItemsExtend(b: seq<Byte>, count: nat, x: seq<Byte>)
    requires ReadItems(b, count).Ok?
    ensures var (items, rest) := ReadItems(b, count).value; ReadItems(b + x, count) == Ok((items, rest + x))
    decreases |b|, 2
  {
    hide ReadValue;
    if count > 0 {
      ReadExtends(b, x);
      ItemsExtend(ReadValue(b).value.1, count - 1, x);
    }
  }

  lemma {:induction false} PairsExtend(b: seq<Byte>, count: nat, last: Option<U64>, x: seq<Byte>)
    requires ReadPairs(b, count, last).Ok?
    ensures var (pairs, rest) := ReadPairs(b, count, last).value; ReadPairs(b + x, count, last) == Ok((pairs, rest + x))
    decreases |b|, 3
  {
    hide ReadPair;
    if count > 0 {
      PairExtends(b, last, x);
      var (p, r) := ReadPair(b, last).value;
      PairsExtend(r, count - 1, Some(p.key), x);
    }
  }

  lemma {:induction false} PairExtends(b: seq<Byte>, last: Option<U64>, x: seq<Byte>)
    requires ReadPair(b, last).Ok?
    ensures var (p, rest) := ReadPair(b, last).value; ReadPair(b + x, last) == Ok((p, rest + x))
    decreases |b|, 2
  {
    hide ReadValue;
    ReadExtends(b, x);
    ReadExtends(ReadValue(b).value.1, x);
  }

  /** An encoding with bytes after it is refused for that reason. */
  lemma TrailingRefused(v: Value, rest: seq<Byte>)
    requires Sized(v) && Keyed(v) && rest != []
    ensures Decode(Encode(v) + rest) == Err(Trailing)
  {
    RoundTripExactly(v, rest);
    hide ReadValue, Encode, Sized, Keyed;
  }

  /** An encoding cut short anywhere is refused. */
  lemma TruncatedRefused(v: Value, k: nat)
    requires Sized(v) && Keyed(v) && k < |Encode(v)|
    ensures Decode(Encode(v)[..k]).Err?
  {
    var b := Encode(v);
    RoundTripExactly(v, []);
    hide Encode, Sized, Keyed;
    assert b == b + [] && b == b[..k] + b[k..];
    if ReadValue(b[..k]).Ok? { ReadExtends(b[..k], b[k..]); }
    hide ReadValue;
  }

  /** Which items are read: unsigned numbers, byte strings, texts, arrays and maps, told by the top three bits. */
  lemma OnlyTheseItems(b: seq<Byte>)
    requires ReadValue(b).Ok?
    ensures b != []
    ensures var v := ReadValue(b).value.0;
            b[0] / 32 == (match v case Uint(_) => 0 case Bytes(_) => 2 case Text(_) => 3 case Array(_) => 4 case Map(_) => 5)
  {
    hide ReadItems, ReadPairs, Utf8.Decode;
  }
}
