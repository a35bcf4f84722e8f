/** The CBOR writer and reader as loops over a growing buffer and a shrinking input. */
module CborCodec {
  import opened Basics
  import Utf8
  import opened CborHead
  import opened Cbor

  // ---------------------------------------------------------------------- writing

  lemma {:induction false} InsertCommutes(p: Pair, s: seq<Pair>)
    ensures CanonPairs(Insert(p, s)) == Insert(CanonPair(p), CanonPairs(s))
  {
    if s == [] || p.key <= s[0].key {
      assert ([p] + s)[1..] == s;
    } else {
      InsertCommutes(p, s[1..]);
      var r := Insert(p, s[1..]);
      assert ([s[0]] + r)[1..] == r;
      assert CanonPairs(s)[1..] == CanonPairs(s[1..]);
    }
  }

  /** Sorting before or after normalising the values is the same. */
  lemma {:induction false} SortCommutes(s: seq<Pair>)
    ensures CanonPairs(SortPairs(s)) == SortPairs(CanonPairs(s))
  {
    if s != [] {
      SortCommutes(s[1..]);
      InsertCommutes(s[0], SortPairs(s[1..]));
      assert CanonPairs(s)[1..] == CanonPairs(s[1..]);
    }
  }

  lemma {:induction false} CanonItemAt(items: seq<Value>, i: nat)
    requires i < |items|
    ensures CanonItems(items)[i] == Canon(items[i])
  {
    if i > 0 { CanonItemAt(items[1..], i - 1); }
  }

  lemma {:induction false} CanonPairAt(pairs: seq<Pair>, i: nat)
    requires i < |pairs|
    ensures CanonPairs(pairs)[i] == CanonPair(pairs[i])
  {
    if i > 0 { CanonPairAt(pairs[1..], i - 1); }
  }

  /** One more item written: what is out and what remains still make the whole. */
  lemma ItemsStep(out: seq<Byte>, items: seq<Value>, i: nat)
    requires i < |items| && forall k :: 0 <= k < |items| ==> Sized(items[k])
    ensures out + Emit(items[i]) + EmitItems(items[i + 1..]) == out + EmitItems(items[i..])
  {
    assert items[i..][1..] == items[i + 1..];
    assert EmitItems(items[i..]) == Emit(items[i]) + EmitItems(items[i + 1..]);
    hide Emit, EmitItems;
    assert out + Emit(items[i]) + EmitItems(items[i + 1..]) == out + (Emit(items[i]) + EmitItems(items[i + 1..]));
  }

  lemma NothingLeft(items: seq<Value>)
    ensures EmitItems(items[|items|..]) == []
  {
  }

  lemma NoPairsLeft(pairs: seq<Pair>)
    ensures EmitPairs(pairs[|pairs|..]) == []
  {
  }

  lemma PairsStep(out: seq<Byte>, pairs: seq<Pair>, i: nat)
    requires i < |pairs| && forall k :: 0 <= k < |pairs| ==> Sized(pairs[k].val)
    ensures out + EmitPair(pairs[i]) + EmitPairs(pairs[i + 1..]) == out + EmitPairs(pairs[i..])
  {
    assert pairs[i..][1..] == pairs[i + 1..];
    assert EmitPairs(pairs[i..]) == EmitPair(pairs[i]) + EmitPairs(pairs[i + 1..]);
    hide EmitPair, EmitPairs;
    assert out + EmitPair(pairs[i]) + EmitPairs(pairs[i + 1..]) == out + (EmitPair(pairs[i]) + EmitPairs(pairs[i + 1..]));
  }

  lemma Joins(a: seq<Byte>, b: seq<Byte>, c: seq<Byte>)
    ensures a + b + c == a + (b + c)
  {
  }

  class Writer {
    var out: seq<Byte>

    constructor ()
      ensures out == []
    {
      out := [];
    }

    method WriteHead(major: nat, n: U64)
      requires major < 8
      modifies this
      ensures out == old(out) + EncodeHead(major, n)
    {
      if n < 24 {
        out := out + [major * 32 + n];
      } else if n < 0x100 {
        out := out + [major * 32 + 24];
        out := out + BigEndian(n, 1);
      } else if n < 0x1_0000 {
        out := out + [major * 32 + 25];
        out := out + BigEndian(n, 2);
      } else if n < 0x1_0000_0000 {
        out := out + [major * 32 + 26];
        out := out + BigEndian(n, 4);
      } else {
        out := out + [major * 32 + 27];
        out := out + BigEndian(n, 8);
      }
    }

    method WriteValue(v: Value)
      requires Sized(v)
      modifies this
      ensures out == old(out) + Encode(v)
      decreases v, 1
    {
      CanonSized(v);
      hide EncodeHead, EmitItems, EmitPairs, CanonItems, CanonPairs, SortPairs;
      match v {
        case Uint(n) => WriteHead(0, n);
        case Bytes(b) =>
          WriteHead(2, |b|);
          out := out + b;
          Joins(old(out), EncodeHead(2, |b|), b);
        case Text(s) =>
          var b := Utf8.Encode(s);
          WriteHead(3, |b|);
          out := out + b;
          Joins(old(out), EncodeHead(3, |b|), b);
        case Array(items) =>
          WriteHead(4, |items|);
          WriteItems(v);
          Joins(old(out), EncodeHead(4, |items|), EmitItems(CanonItems(items)));
        case Map(pairs) =>
          WriteHead(5, |pairs|);
          WritePairs(v);
          Joins(old(out), EncodeHead(5, |pairs|), EmitPairs(SortPairs(CanonPairs(pairs))));
      }
    }

    method WriteItems(v: Value)
      requires v.Array? && Sized(v) && Sized(Canon(v))
      modifies this
      ensures out == old(out) + EmitItems(CanonItems(v.items))
      decreases v, 0
    {
      ghost var canon := CanonItems(v.items);
      assert canon[0..] == canon;
      hide Emit, EmitItems, CanonItems, Canon;
      var i := 0;
      while i < |v.items|
        invariant i <= |v.items|
        invariant out + EmitItems(canon[i..]) == old(out) + EmitItems(canon)
      {
        CanonItemAt(v.items, i);
        ItemsStep(out, canon, i);
        WriteValue(v.items[i]);
        i := i + 1;
      }
      assert EmitItems(canon[|canon|..]) == [] by { NothingLeft(canon); }
    }

    method WritePairs(v: Value)
      requires v.Map? && Sized(v) && Sized(Canon(v))
      modifies this
      ensures out == old(out) + EmitPairs(SortPairs(CanonPairs(v.pairs)))
      decreases v, 0
    {
      var sorted := SortPairs(v.pairs);
      ghost var canon := CanonPairs(sorted);
      SortCommutes(v.pairs);
      assert canon[0..] == canon;
      hide EmitPair, EmitPairs, CanonPairs, CanonPair, SortPairs, Canon;
      var i := 0;
      while i < |sorted|
        invariant i <= |sorted|
        invariant out + EmitPairs(canon[i..]) == old(out) + EmitPairs(canon)
      {
        CanonPairAt(sorted, i);
        PairsStep(out, canon, i);
        assert sorted[i] in v.pairs;
        WritePair(sorted[i]);
        i := i + 1;
      }
      assert EmitPairs(canon[|canon|..]) == [] by { NoPairsLeft(canon); }
    }

    method WritePair(p: Pair)
      requires Sized(p.val) && Sized(Canon(p.val))
      modifies this
      ensures out == old(out) + EmitPair(CanonPair(p))
      decreases p, 2
    {
      hide EncodeHead, Emit, Canon;
      WriteHead(0, p.key);
      WriteValue(p.val);
      Joins(old(out), EncodeHead(0, p.key), Emit(Canon(p.val)));
    }
  }

  method EncodeValue(v: Value) returns (out: seq<Byte>)
    requires Sized(v)
    ensures out == Encode(v)
  {
    var w := new Writer();
    w.WriteValue(v);
    out := w.out;
  }

  // ---------------------------------------------------------------------- reading

  function Onto<T>(done: seq<T>, r: Read<(seq<T>, seq<Byte>)>): Read<(seq<T>, seq<Byte>)> {
    match r
    case Err(e) => Err(e)
    case Ok((more, rest)) => Ok((done + more, rest))
  }

  lemma OntoNothing<T>(r: Read<(seq<T>, seq<Byte>)>)
    ensures Onto([], r) == r
  {
    assert r.Ok? ==> [] + r.value.0 == r.value.0;
  }

  lemma OntoMore<T>(done: seq<T>, x: T, r: Read<(seq<T>, seq<Byte>)>)
    ensures r.Ok? ==> Onto(done, Ok(([x] + r.value.0, r.value.1))) == Onto(done + [x], r)
  {
    assert r.Ok? ==> done + ([x] + r.value.0) == done + [x] + r.value.0;
  }

  method ReadFrom(input: seq<Byte>) returns (r: Read<(Value, seq<Byte>)>)
    ensures r == ReadValue(input)
    decreases |input|, 0
  {
    var head := ReadHead(input);
    if head.Err? { return Err(head.error); }
    var Head(major, n, rest) := head.value;
    match major {
      case 0 => return Ok((Uint(n), rest));
      case 2 =>
        if |rest| < n { return Err(Truncated); }
        return Ok((Bytes(rest[..n]), rest[n..]));
      case 3 =>
        if |rest| < n { return Err(Truncated); }
        var s := Utf8.Decode(rest[..n]);
        return if s.None? then Err(NotUtf8) else Ok((Text(s.value), rest[n..]));
      case 4 =>
        if n > |rest| { return Err(TooLarge); }
        var items := ReadArray(rest, n);
        return if items.Err? then Err(items.error) else Ok((Array(items.value.0), items.value.1));
      case 5 =>
        if n > |rest| { return Err(TooLarge); }
        var pairs := ReadMap(rest, n);
        return if pairs.Err? then Err(pairs.error) else Ok((Map(pairs.value.0), pairs.value.1));
      case _ => return Err(Unsupported);
    }
  }

  method ReadArray(input: seq<Byte>, count: nat) returns (r: Read<(seq<Value>, seq<Byte>)>)
    ensures r == ReadItems(input, count)
    decreases |input|, 1
  {
    var rest, items, i := input, [], 0;
    OntoNothing(ReadItems(input, count));
    while i < count
      invariant i <= count && |rest| <= |input|
      invariant ReadItems(input, count) == Onto(items, ReadItems(rest, count - i))
    {
      var v := ReadFrom(rest);
      if v.Err? { return Err(v.error); }
      OntoMore(items, v.value.0, ReadItems(v.value.1, count - i - 1));
      items, rest, i := items + [v.value.0], v.value.1, i + 1;
    }
    assert items + [] == items;
    return Ok((items, rest));
  }

  method ReadMap(input: seq<Byte>, count: nat) returns (r: Read<(seq<Pair>, seq<Byte>)>)
    ensures r == ReadPairs(input, count, None)
    decreases |input|, 1
  {
    var rest, pairs, i := input, [], 0;
    OntoNothing(ReadPairs(input, count, None));
    var lastKey: Option<U64> := None;
    while i < count
      invariant i <= count && |rest| <= |input|
      invariant ReadPairs(input, count, None) == Onto(pairs, ReadPairs(rest, count - i, lastKey))
    {
      var k := ReadFrom(rest);
      if k.Err? { return Err(k.error); }
      if !k.value.0.Uint? { return Err(KeyNotUint); }
      var key := k.value.0.n;
      if lastKey.Some? && key <= lastKey.value { return Err(KeyOrder); }
      var v := ReadFrom(k.value.1);
      if v.Err? { return Err(v.error); }
      var p := Pair(key, v.value.0);
      assert ReadPair(rest, lastKey) == Ok((p, v.value.1));
      OntoMore(pairs, p, ReadPairs(v.value.1, count - i - 1, Some(key)));
      lastKey, pairs, rest, i := Some(key), pairs + [p], v.value.1, i + 1;
    }
    assert pairs + [] == pairs;
    return Ok((pairs, rest));
  }

  method DecodeBytes(b: seq<Byte>) returns (r: Read<Value>)
    ensures r == Decode(b)
  {
    var v := ReadFrom(b);
    if v.Err? { return Err(v.error); }
    if v.value.1 != [] { return Err(Trailing); }
    return Ok(v.value.0);
  }
}
