/**
 The deterministic CBOR subset (sections 3 and 4.2.1 of RFC 8949): definite lengths, unsigned integers, byte and
 text strings, arrays, and maps with unsigned integer keys written in increasing order.
 */
module Cbor {
  import opened Basics
  import Utf8
  import opened CborHead

  type Byte = Utf8.Byte

  datatype Value =
    | Uint(n: U64)
    | Bytes(b: seq<Byte>)
    | Text(s: string)
    | Array(items: seq<Value>)
    | Map(pairs: seq<Pair>)

  datatype Pair = Pair(key: U64, val: Value)

  // ------------------------------------------------------------------- key sorting

  /** Put a pair before the first one whose key is not smaller. */
  function Insert(p: Pair, s: seq<Pair>): (r: seq<Pair>)
    ensures |r| == |s| + 1
    ensures forall x :: x in r <==> x == p || x in s
  {
    if s == [] || p.key <= s[0].key then [p] + s
    else
      var r := [s[0]] + Insert(p, s[1..]);
      assert s == [s[0]] + s[1..];
      r
  }

  /** Stable sort by key. */
  function SortPairs(s: seq<Pair>): (r: seq<Pair>)
    ensures |r| == |s|
    ensures forall x :: x in r <==> x in s
  {
    if s == [] then [] else
      assert s == [s[0]] + s[1..];
      Insert(s[0], SortPairs(s[1..]))
  }

  ghost predicate Ascending(s: seq<Pair>) {
    forall i, j :: 0 <= i < j < |s| ==> s[i].key <= s[j].key
  }

  ghost predicate StrictlyAscending(s: seq<Pair>) {
    forall i, j :: 0 <= i < j < |s| ==> s[i].key < s[j].key
  }

  ghost predicate DistinctKeys(s: seq<Pair>) {
    forall i, j :: 0 <= i < j < |s| ==> s[i].key != s[j].key
  }

  // ------------------------------------------------------------------ normal form

  /** The value with every map sorted. */
  function Canon(v: Value): Value {
    match v
    case Array(items) => Array(CanonItems(items))
    case Map(pairs) => Map(SortPairs(CanonPairs(pairs)))
    case _ => v
  }

  function CanonItems(items: seq<Value>): (r: seq<Value>)
    ensures |r| == |items|
  {
    if items == [] then [] else [Canon(items[0])] + CanonItems(items[1..])
  }

  function CanonPairs(pairs: seq<Pair>): (r: seq<Pair>)
    ensures |r| == |pairs| && forall i :: 0 <= i < |r| ==> r[i].key == pairs[i].key
  {
    if pairs == [] then [] else [CanonPair(pairs[0])] + CanonPairs(pairs[1..])
  }

  function CanonPair(p: Pair): (r: Pair)
    ensures r.key == p.key
  {
    Pair(p.key, Canon(p.val))
  }

  /** Lengths fit the machine's length type at every level. */
  ghost predicate Sized(v: Value) {
    match v
    case Uint(_) => true
    case Bytes(b) => |b| <= U64_MAX
    case Text(s) => |Utf8.Encode(s)| <= U64_MAX
    case Array(items) => |items| <= U64_MAX && forall i :: 0 <= i < |items| ==> Sized(items[i])
    case Map(pairs) => |pairs| <= U64_MAX && forall i :: 0 <= i < |pairs| ==> Sized(pairs[i].val)
  }

  /** No map at any level repeats a key. */
  ghost predicate Keyed(v: Value) {
    match v
    case Array(items) => forall i :: 0 <= i < |items| ==> Keyed(items[i])
    case Map(pairs) => DistinctKeys(pairs) && forall i :: 0 <= i < |pairs| ==> Keyed(pairs[i].val)
    case _ => true
  }

  /** Maps are strictly ascending at every level: what a decoder can return. */
  ghost predicate Strict(v: Value) {
    match v
    case Array(items) => forall i :: 0 <= i < |items| ==> Strict(items[i])
    case Map(pairs) => StrictlyAscending(pairs) && forall i :: 0 <= i < |pairs| ==> Strict(pairs[i].val)
    case _ => true
  }

  // ------------------------------------------------------------------------ writing

  /** Write a value in the order its maps are in. */
  function Emit(v: Value): (r: seq<Byte>)
    requires Sized(v)
    ensures |r| >= 1
  {
    match v
    case Uint(n) => EncodeHead(0, n)
    case Bytes(b) => EncodeHead(2, |b|) + b
    case Text(s) => EncodeHead(3, |Utf8.Encode(s)|) + Utf8.Encode(s)
    case Array(items) => EncodeHead(4, |items|) + EmitItems(items)
    case Map(pairs) => EncodeHead(5, |pairs|) + EmitPairs(pairs)
  }

  function EmitItems(items: seq<Value>): (r: seq<Byte>)
    requires forall i :: 0 <= i < |items| ==> Sized(items[i])
    ensures |r| >= |items|
  {
    if items == [] then [] else Emit(items[0]) + EmitItems(items[1..])
  }

  function EmitPairs(pairs: seq<Pair>): (r: seq<Byte>)
    requires forall i :: 0 <= i < |pairs| ==> Sized(pairs[i].val)
    ensures |r| >= |pairs|
  {
    if pairs == [] then [] else EmitPair(pairs[0]) + EmitPairs(pairs[1..])
  }

  function EmitPair(p: Pair): (r: seq<Byte>)
    requires Sized(p.val)
    ensures |r| >= 1
  {
    EncodeHead(0, p.key) + Emit(p.val)
  }

  /** The deterministic encoding: sort every map, then write. */
  function Encode(v: Value): seq<Byte>
    requires Sized(v)
  {
    CanonSized(v);
    Emit(Canon(v))
  }

  // ------------------------------------------------------------------------ reading

  function ReadValue(b: seq<Byte>): (r: Read<(Value, seq<Byte>)>)
    ensures r.Ok? ==> |r.value.1| < |b|
    decreases |b|, 0
  {
    match ReadHead(b)
    case Err(e) => Err(e)
    case Ok(Head(major, n, rest)) =>
      match major
      case 0 => Ok((Uint(n), rest))
      case 2 => if |rest| < n then Err(Truncated) else Ok((Bytes(rest[..n]), rest[n..]))
      case 3 =>
        if |rest| < n then Err(Truncated)
        else (match Utf8.Decode(rest[..n])
              case None => Err(NotUtf8)
              case Some(s) => Ok((Text(s), rest[n..])))
      case 4 =>
        if n > |rest| then Err(TooLarge)
        else (match ReadItems(rest, n)
              case Err(e) => Err(e)
              case Ok((items, r)) => Ok((Array(items), r)))
      case 5 =>
        if n > |rest| then Err(TooLarge)
        else (match ReadPairs(rest, n, None)
              case Err(e) => Err(e)
              case Ok((pairs, r)) => Ok((Map(pairs), r)))
      case _ => Err(Unsupported)
  }

  function ReadItems(b: seq<Byte>, count: nat): (r: Read<(seq<Value>, seq<Byte>)>)
    ensures r.Ok? ==> |r.value.1| <= |b| && |r.value.0| == count
    decreases |b|, 1
  {
    if count == 0 then Ok(([], b))
    else match ReadValue(b)
         case Err(e) => Err(e)
         case Ok((v, r)) =>
           match ReadItems(r, count - 1)
           case Err(e) => Err(e)
           case Ok((items, end)) => Ok(([v] + items, end))
  }

  /** The next pair: a key above the last one, then its value. */
  function ReadPair(b: seq<Byte>, last: Option<U64>): (r: Read<(Pair, seq<Byte>)>)
    ensures r.Ok? ==> |r.value.1| < |b| && (last.Some? ==> last.value < r.value.0.key)
    decreases |b|, 1
  {
    match ReadValue(b)
    case Err(e) => Err(e)
    case Ok((k, r)) =>
      if !k.Uint? then Err(KeyNotUint)
      else if last.Some? && k.n <= last.value then Err(KeyOrder)
      else match ReadValue(r)
           case Err(e) => Err(e)
           case Ok((v, end)) => Ok((Pair(k.n, v), end))
  }

  function ReadPairs(b: seq<Byte>, count: nat, last: Option<U64>): (r: Read<(seq<Pair>, seq<Byte>)>)
    ensures r.Ok? ==> |r.value.1| <= |b| && |r.value.0| == count
    decreases |b|, 2
  {
    if count == 0 then Ok(([], b))
    else match ReadPair(b, last)
         case Err(e) => Err(e)
         case Ok((p, r)) =>
           match ReadPairs(r, count - 1, Some(p.key))
           case Err(e) => Err(e)
           case Ok((pairs, end)) => Ok(([p] + pairs, end))
  }

  function Decode(b: seq<Byte>): Read<Value> {
    match ReadValue(b)
    case Err(e) => Err(e)
    case Ok((v, rest)) => if rest != [] then Err(Trailing) else Ok(v)
  }

  // ------------------------------------------------------------------- normal forms

  lemma CanonSized(v: Value)
    requires Sized(v)
    ensures Sized(Canon(v))
  {
    match v
    case Array(items) => CanonItemsSized(items);
    case Map(pairs) =>
      CanonPairsSized(pairs);
      var sorted := SortPairs(CanonPairs(pairs));
      forall i | 0 <= i < |sorted| ensures Sized(sorted[i].val) {
        assert sorted[i] in CanonPairs(pairs);
      }
    case _ =>
  }

  lemma {:induction false} CanonPairSized(p: Pair)
    requires Sized(p.val)
    ensures Sized(CanonPair(p).val)
  {
    CanonSized(p.val);
  }

  lemma CanonItemsSized(items: seq<Value>)
    requires forall i :: 0 <= i < |items| ==> Sized(items[i])
    ensures forall i :: 0 <= i < |items| ==> Sized(CanonItems(items)[i])
  {
    if items != [] {
      CanonSized(items[0]);
      CanonItemsSized(items[1..]);
    }
  }

  lemma CanonPairsSized(pairs: seq<Pair>)
    requires forall i :: 0 <= i < |pairs| ==> Sized(pairs[i].val)
    ensures forall i :: 0 <= i < |pairs| ==> Sized(CanonPairs(pairs)[i].val)
  {
    if pairs != [] {
      CanonPairSized(pairs[0]);
      CanonPairsSized(pairs[1..]);
    }
  }

  ghost predicate NoKey(s: seq<Pair>, k: U64) {
    forall x :: x in s ==> x.key != k
  }

  lemma {:induction false} InsertAscending(p: Pair, s: seq<Pair>)
    requires Ascending(s)
    ensures Ascending(Insert(p, s))
  {
    if s != [] && s[0].key < p.key {
      var tail := Insert(p, s[1..]);
      InsertAscending(p, s[1..]);
      forall i | 0 <= i < |tail| ensures s[0].key <= tail[i].key {
        assert tail[i] in tail;
      }
    }
  }

  lemma {:induction false} InsertDistinct(p: Pair, s: seq<Pair>)
    ensures DistinctKeys(Insert(p, s)) <==> DistinctKeys(s) && NoKey(s, p.key)
  {
    if s == [] || p.key <= s[0].key {
      DistinctCons(p, s);
    } else {
      var tail := s[1..];
      InsertDistinct(p, tail);
      DistinctCons(s[0], Insert(p, tail));
      DistinctCons(s[0], tail);
      assert s == [s[0]] + tail;
      assert NoKey(Insert(p, tail), s[0].key) <==> p.key != s[0].key && NoKey(tail, s[0].key);
      assert NoKey(s, p.key) <==> s[0].key != p.key && NoKey(tail, p.key);
      hide DistinctKeys, NoKey;
    }
  }

  lemma DistinctCons(p: Pair, s: seq<Pair>)
    ensures DistinctKeys([p] + s) <==> DistinctKeys(s) && NoKey(s, p.key)
  {
    var r := [p] + s;
    assert forall i :: 0 <= i < |s| ==> r[i + 1] == s[i];
    if DistinctKeys(r) {
      forall i, j | 0 <= i < j < |s| ensures s[i].key != s[j].key { assert r[i + 1].key != r[j + 1].key; }
      forall x | x in s ensures x.key != p.key {
        var i :| 0 <= i < |s| && s[i] == x;
        assert r[0].key != r[i + 1].key;
      }
    }
  }

  lemma {:induction false} SortOrders(s: seq<Pair>)
    ensures Ascending(SortPairs(s))
    ensures DistinctKeys(SortPairs(s)) <==> DistinctKeys(s)
  {
    if s != [] {
      SortOrders(s[1..]);
      InsertAscending(s[0], SortPairs(s[1..]));
      InsertDistinct(s[0], SortPairs(s[1..]));
      DistinctCons(s[0], s[1..]);
      assert s == [s[0]] + s[1..];
      assert NoKey(SortPairs(s[1..]), s[0].key) <==> NoKey(s[1..], s[0].key);
    }
  }

  lemma {:induction false} SortOfSorted(s: seq<Pair>)
    requires StrictlyAscending(s)
    ensures SortPairs(s) == s
  {
    if s != [] {
      SortOfSorted(s[1..]);
      assert s == [s[0]] + s[1..];
    }
  }

  ghost predicate ValuesStrict(pairs: seq<Pair>) {
    forall i :: 0 <= i < |pairs| ==> Strict(pairs[i].val)
  }

  lemma SortedStrict(pairs: seq<Pair>)
    ensures Strict(Map(SortPairs(pairs))) <==> DistinctKeys(pairs) && ValuesStrict(pairs)
  {
    SortOrders(pairs);
    var sorted := SortPairs(pairs);
    assert StrictlyAscending(sorted) <==> DistinctKeys(sorted);
    assert ValuesStrict(sorted) <==> ValuesStrict(pairs) by {
      SameValues(sorted, pairs);
      SameValues(pairs, sorted);
    }
  }

  lemma SameValues(a: seq<Pair>, b: seq<Pair>)
    requires forall x :: x in b ==> x in a
    ensures ValuesStrict(a) ==> ValuesStrict(b)
  {
    if ValuesStrict(a) {
      forall i | 0 <= i < |b| ensures Strict(b[i].val) {
        assert b[i] in a;
        var j :| 0 <= j < |a| && a[j] == b[i];
      }
    }
  }

  /** Sorting every map makes the value decodable exactly when no map repeats a key. */
  lemma {:induction false} CanonStrict(v: Value)
    ensures Strict(Canon(v)) <==> Keyed(v)
  {
    match v
    case Array(items) => CanonItemsStrict(items);
    case Map(pairs) =>
      CanonPairsStrict(pairs);
      SortedStrict(CanonPairs(pairs));
    case _ =>
  }

  lemma {:induction false} CanonPairStrict(p: Pair)
    ensures Strict(CanonPair(p).val) <==> Keyed(p.val)
  {
    CanonStrict(p.val);
  }

  lemma {:induction false} CanonItemsStrict(items: seq<Value>)
    ensures forall i :: 0 <= i < |items| ==> (Strict(CanonItems(items)[i]) <==> Keyed(items[i]))
  {
    if items != [] {
      CanonStrict(items[0]);
      CanonItemsStrict(items[1..]);
    }
  }

  lemma {:induction false} CanonPairsStrict(pairs: seq<Pair>)
    ensures forall i :: 0 <= i < |pairs| ==> (Strict(CanonPairs(pairs)[i].val) <==> Keyed(pairs[i].val))
  {
    if pairs != [] {
      CanonPairStrict(pairs[0]);
      CanonPairsStrict(pairs[1..]);
    }
  }

  lemma {:induction false} CanonOfStrict(v: Value)
    requires Strict(v)
    ensures Canon(v) == v
  {
    match v
    case Array(items) => CanonItemsOfStrict(items);
    case Map(pairs) =>
      CanonPairsOfStrict(pairs);
      SortOfSorted(pairs);
    case _ =>
  }

  lemma {:induction false} CanonPairOfStrict(p: Pair)
    requires Strict(p.val)
    ensures CanonPair(p) == p
  {
    CanonOfStrict(p.val);
  }

  lemma {:induction false} CanonItemsOfStrict(items: seq<Value>)
    requires forall i :: 0 <= i < |items| ==> Strict(items[i])
    ensures CanonItems(items) == items
  {
    if items != [] {
      CanonOfStrict(items[0]);
      CanonItemsOfStrict(items[1..]);
      assert items == [items[0]] + items[1..];
    }
  }

  lemma {:induction false} CanonPairsOfStrict(pairs: seq<Pair>)
    requires forall i :: 0 <= i < |pairs| ==> Strict(pairs[i].val)
    ensures CanonPairs(pairs) == pairs
  {
    if pairs != [] {
      CanonPairOfStrict(pairs[0]);
      CanonPairsOfStrict(pairs[1..]);
      assert pairs == [pairs[0]] + pairs[1..];
    }
  }

  // -------------------------------------------------------------------- reading back

  /** Reading what was written gives the value and the rest back, or fails on key order, exactly as its maps are. */
  lemma {:induction false} ReadBack(v: Value, rest: seq<Byte>)
    requires Sized(v)
    ensures ReadValue(Emit(v) + rest) == if Strict(v) then Ok((v, rest)) else Err(KeyOrder)
    decreases v
  {
    hide EncodeHead, ReadHead;
    match v
    case Uint(n) => HeadRoundTrip(0, n, rest);
    case Bytes(b) =>
      HeadThen(2, |b|, b, rest);
    case Text(s) =>
      var b := Utf8.Encode(s);
      HeadThen(3, |b|, b, rest);
      assert (b + rest)[..|b|] == b && (b + rest)[|b|..] == rest;
      Utf8.DecodeEncode(s);
    case Array(items) =>
      HeadThen(4, |items|, EmitItems(items), rest);
      ReadItemsBack(items, rest);
    case Map(pairs) =>
      HeadThen(5, |pairs|, EmitPairs(pairs), rest);
      ReadPairsBack(pairs, None, rest);
      StrictAfterMeans(pairs, None);
  }

  lemma HeadThen(major: nat, n: U64, body: seq<Byte>, rest: seq<Byte>)
    requires major < 8
    ensures ReadHead(EncodeHead(major, n) + body + rest) == Ok(Head(major, n, body + rest))
  {
    assert EncodeHead(major, n) + body + rest == EncodeHead(major, n) + (body + rest);
    HeadRoundTrip(major, n, body + rest);
  }

  ghost predicate AllStrict(items: seq<Value>) {
    forall i :: 0 <= i < |items| ==> Strict(items[i])
  }

  lemma {:induction false} ReadItemsBack(items: seq<Value>, rest: seq<Byte>)
    requires forall i :: 0 <= i < |items| ==> Sized(items[i])
    ensures ReadItems(EmitItems(items) + rest, |items|) == if AllStrict(items) then Ok((items, rest)) else Err(KeyOrder)
    decreases items
  {
    hide ReadValue, Emit, Sized, Strict;
    if items == [] {
      assert EmitItems(items) + rest == rest;
    } else {
      var tail := EmitItems(items[1..]) + rest;
      assert EmitItems(items) + rest == Emit(items[0]) + tail;
      ReadBack(items[0], tail);
      ReadItemsBack(items[1..], rest);
      assert items == [items[0]] + items[1..];
      StrictItems(items);
      hide AllStrict, EmitItems;
    }
  }

  lemma StrictItems(items: seq<Value>)
    requires items != []
    ensures AllStrict(items) <==> Strict(items[0]) && AllStrict(items[1..])
  {
    hide Strict;
    assert forall i :: 0 <= i < |items| - 1 ==> items[1..][i] == items[i + 1];
  }

  /** Keys continue strictly above the last one, and the values are strict. */
  ghost predicate StrictAfter(pairs: seq<Pair>, last: Option<U64>) {
    pairs != [] ==>
      && (last.Some? ==> last.value < pairs[0].key)
      && Strict(pairs[0].val) && StrictAfter(pairs[1..], Some(pairs[0].key))
  }

  lemma {:induction false} StrictAfterMeans(pairs: seq<Pair>, last: Option<U64>)
    ensures StrictAfter(pairs, last) <==>
            && StrictlyAscending(pairs) && (forall i :: 0 <= i < |pairs| ==> Strict(pairs[i].val))
            && (last.Some? && pairs != [] ==> last.value < pairs[0].key)
  {
    if pairs != [] {
      var tail := pairs[1..];
      StrictAfterMeans(tail, Some(pairs[0].key));
      assert forall i :: 0 <= i < |tail| ==> tail[i] == pairs[i + 1];
      assert StrictlyAscending(pairs) <==> StrictlyAscending(tail) && (tail != [] ==> pairs[0].key < tail[0].key) by {
        AscendingCons(pairs);
      }
    }
  }

  lemma AscendingCons(pairs: seq<Pair>)
    requires pairs != []
    ensures StrictlyAscending(pairs) <==>
            StrictlyAscending(pairs[1..]) && (|pairs| > 1 ==> pairs[0].key < pairs[1].key)
  {
    var tail := pairs[1..];
    assert forall i :: 0 <= i < |tail| ==> tail[i] == pairs[i + 1];
    if StrictlyAscending(pairs) {
      forall i, j | 0 <= i < j < |tail| ensures tail[i].key < tail[j].key {
        assert pairs[i + 1].key < pairs[j + 1].key;
      }
    }
    if StrictlyAscending(tail) && (|pairs| > 1 ==> pairs[0].key < pairs[1].key) {
      forall i, j | 0 <= i < j < |pairs| ensures pairs[i].key < pairs[j].key {
        if i == 0 { assert j == 1 || tail[0].key < tail[j - 1].key; } else { assert tail[i - 1].key < tail[j - 1].key; }
      }
    }
  }

  lemma {:induction false} ReadPairsBack(pairs: seq<Pair>, last: Option<U64>, rest: seq<Byte>)
    requires forall i :: 0 <= i < |pairs| ==> Sized(pairs[i].val)
    ensures ReadPairs(EmitPairs(pairs) + rest, |pairs|, last)
            == if StrictAfter(pairs, last) then Ok((pairs, rest)) else Err(KeyOrder)
    decreases pairs
  {
    hide ReadPair, EmitPair, Sized, Strict;
    if pairs == [] {
      assert EmitPairs(pairs) + rest == rest;
    } else {
      var tail := EmitPairs(pairs[1..]) + rest;
      assert EmitPairs(pairs) + rest == EmitPair(pairs[0]) + tail;
      ReadPairBack(pairs[0], last, tail);
      ReadPairsBack(pairs[1..], Some(pairs[0].key), rest);
      assert pairs == [pairs[0]] + pairs[1..];
    }
  }

  lemma {:induction false} ReadPairBack(p: Pair, last: Option<U64>, rest: seq<Byte>)
    requires Sized(p.val)
    ensures ReadPair(EmitPair(p) + rest, last)
            == if Strict(p.val) && (last.Some? ==> last.value < p.key) then Ok((p, rest)) else Err(KeyOrder)
    decreases p
  {
    assert EmitPair(p) + rest == EncodeHead(0, p.key) + (Emit(p.val) + rest);
    HeadRoundTrip(0, p.key, Emit(p.val) + rest);
    ReadBack(p.val, rest);
  }

  /**
   Round trip. Decoding an encoding followed by anything gives the value with its maps sorted and what followed,
   exactly when no map repeats a key; otherwise it fails on key order. The size guards never get in the way.
   */
  lemma RoundTripExactly(v: Value, rest: seq<Byte>)
    requires Sized(v)
    ensures ReadValue(Encode(v) + rest) == if Keyed(v) then Ok((Canon(v), rest)) else Err(KeyOrder)
    ensures Keyed(v) ==> Decode(Encode(v)) == Ok(Canon(v))
  {
    CanonSized(v);
    CanonStrict(v);
    ReadBack(Canon(v), rest);
    ReadBack(Canon(v), []);
    assert Encode(v) + [] == Encode(v);
  }

  /** On sorted values the encoding is injective and prefix-free. */
  lemma PrefixFree(a: Value, b: Value, x: seq<Byte>, y: seq<Byte>)
    requires Sized(a) && Sized(b) && Strict(a) && Strict(b) && Encode(a) + x == Encode(b) + y
    ensures a == b && x == y
  {
    CanonOfStrict(a);
    CanonOfStrict(b);
    ReadBack(a, x);
    ReadBack(b, y);
  }

  // ------------------------------------------------------------------- re-encoding

  /** `out` stands for what was read before `rest`: no longer than it, and equally long only if it is it. */
  ghost predicate Covers(b: seq<Byte>, out: seq<Byte>, rest: seq<Byte>) {
    |out| + |rest| <= |b| && (|out| + |rest| == |b| ==> out + rest == b)
  }

  lemma CoversTwice(b: seq<Byte>, x: seq<Byte>, r: seq<Byte>, y: seq<Byte>, rest: seq<Byte>)
    requires Covers(b, x, r) && Covers(r, y, rest)
    ensures Covers(b, x + y, rest)
  {
    assert x + y + rest == x + (y + rest);
  }

  lemma HeadCovers(b: seq<Byte>)
    requires ReadHead(b).Ok?
    ensures var h := ReadHead(b).value; Covers(b, EncodeHead(h.major, h.n), h.rest)
  {
    HeadIsShortest(b);
    hide EncodeHead, ReadHead;
  }

  /** What a decoder returns is sorted and of machine size, and its encoding covers what was read. */
  lemma {:induction false} ReadShape(b: seq<Byte>)
    requires ReadValue(b).Ok?
    ensures var (v, rest) := ReadValue(b).value; Sized(v) && Strict(v) && Covers(b, Emit(v), rest)
    decreases |b|, 1
  {
    hide Covers, Sized, Strict, Emit;
    var v := ReadValue(b).value.0;
    if v.Uint? || v.Bytes? || v.Text? { PlainShape(b); } else { NestShape(b); }
  }

  lemma PlainShape(b: seq<Byte>)
    requires ReadValue(b).Ok? && (ReadValue(b).value.0.Uint? || ReadValue(b).value.0.Bytes? || ReadValue(b).value.0.Text?)
    ensures var (v, rest) := ReadValue(b).value; Sized(v) && Strict(v) && Covers(b, Emit(v), rest)
  {
    hide Covers, EncodeHead;
    HeadCovers(b);
    var v := ReadValue(b).value.0;
    if v.Bytes? { BytesShape(b); } else if v.Text? { TextShape(b); }
    hide ReadHead, ReadItems, ReadPairs, Utf8.Decode, Utf8.Encode;
  }

  lemma BytesShape(b: seq<Byte>)
    requires ReadValue(b).Ok? && ReadValue(b).value.0.Bytes?
    ensures var (v, rest) := ReadValue(b).value; |v.b| <= U64_MAX && Covers(b, EncodeHead(2, |v.b|) + v.b, rest)
  {
    hide Covers, EncodeHead, ReadItems, ReadPairs, Utf8.Decode;
    HeadCovers(b);
    var h := ReadHead(b).value;
    hide ReadHead;
    var (v, rest) := ReadValue(b).value;
    hide ReadValue;
    assert h.rest == v.b + rest;
    CoversTwice(b, EncodeHead(2, h.n), h.rest, v.b, rest);
  }

  lemma TextShape(b: seq<Byte>)
    requires ReadValue(b).Ok? && ReadValue(b).value.0.Text?
    ensures var (v, rest) := ReadValue(b).value;
            var u := Utf8.Encode(v.s); |u| <= U64_MAX && Covers(b, EncodeHead(3, |u|) + u, rest)
  {
    hide Covers, EncodeHead, ReadItems, ReadPairs, Utf8.Decode, Utf8.Encode;
    HeadCovers(b);
    var h := ReadHead(b).value;
    hide ReadHead;
    var (v, rest) := ReadValue(b).value;
    Utf8.EncodeDecode(h.rest[..h.n]);
    hide ReadValue;
    assert h.rest == Utf8.Encode(v.s) + rest;
    CoversTwice(b, EncodeHead(3, h.n), h.rest, Utf8.Encode(v.s), rest);
  }

  lemma {:induction false} NestShape(b: seq<Byte>)
    requires ReadValue(b).Ok? && (ReadValue(b).value.0.Array? || ReadValue(b).value.0.Map?)
    ensures var (v, rest) := ReadValue(b).value; Sized(v) && Strict(v) && Covers(b, Emit(v), rest)
    decreases |b|, 0
  {
    HeadCovers(b);
    var h := ReadHead(b).value;
    var (v, rest) := ReadValue(b).value;
    match v
    case Array(items) =>
      ReadItemsShape(h.rest, h.n);
      CoversTwice(b, EncodeHead(4, h.n), h.rest, EmitItems(items), rest);
    case Map(pairs) =>
      ReadMapShape(h.rest, h.n);
      CoversTwice(b, EncodeHead(5, h.n), h.rest, EmitPairs(pairs), rest);
  }

  lemma {:induction false} ReadItemsShape(b: seq<Byte>, count: nat)
    requires ReadItems(b, count).Ok?
    ensures var (items, rest) := ReadItems(b, count).value;
            && (forall i :: 0 <= i < |items| ==> Sized(items[i]) && Strict(items[i]))
            && Covers(b, EmitItems(items), rest)
    decreases |b|, 2
  {
    if count > 0 {
      ReadShape(b);
      var (v, r) := ReadValue(b).value;
      ReadItemsShape(r, count - 1);
      var (items, rest) := ReadItems(r, count - 1).value;
      assert ([v] + items)[1..] == items;
      CoversTwice(b, Emit(v), r, EmitItems(items), rest);
      hide Covers, Sized, Strict;
    }
  }

  lemma {:induction false} ReadPairsShape(b: seq<Byte>, count: nat, last: Option<U64>)
    requires ReadPairs(b, count, last).Ok?
    ensures var (pairs, rest) := ReadPairs(b, count, last).value;
            && (forall i :: 0 <= i < |pairs| ==> Sized(pairs[i].val))
            && StrictAfter(pairs, last)
            && Covers(b, EmitPairs(pairs), rest)
    decreases |b|, 3
  {
    if count > 0 {
      hide Covers, Sized, ReadPair, EmitPair, Strict;
      var (p, r) := ReadPair(b, last).value;
      ReadPairShape(b, last);
      ReadPairsShape(r, count - 1, Some(p.key));
      var (pairs, rest) := ReadPairs(r, count - 1, Some(p.key)).value;
      assert ([p] + pairs)[1..] == pairs;
      CoversTwice(b, EmitPair(p), r, EmitPairs(pairs), rest);
    }
  }

  lemma {:induction false} ReadMapShape(b: seq<Byte>, count: nat)
    requires ReadPairs(b, count, None).Ok?
    ensures var (pairs, rest) := ReadPairs(b, count, None).value;
            && (forall i :: 0 <= i < |pairs| ==> Sized(pairs[i].val))
            && Strict(Map(pairs)) && Covers(b, EmitPairs(pairs), rest)
    decreases |b|, 4
  {
    ReadPairsShape(b, count, None);
    StrictAfterMeans(ReadPairs(b, count, None).value.0, None);
    hide StrictAfter, Covers;
  }

  lemma {:induction false} ReadPairShape(b: seq<Byte>, last: Option<U64>)
    requires ReadPair(b, last).Ok?
    ensures var (p, rest) := ReadPair(b, last).value; Sized(p.val) && Strict(p.val) && Covers(b, EmitPair(p), rest)
    decreases |b|, 2
  {
    ReadShape(b);
    var (k, r) := ReadValue(b).value;
    ReadShape(r);
    var (v, rest) := ReadValue(r).value;
    hide ReadValue;
    CoversTwice(b, EncodeHead(0, k.n), r, Emit(v), rest);
    hide Covers;
  }

  /**
   Re-encoding. Whatever decodes, its own encoding is no longer, decodes to the same value, and is equally long only
   if the input was already that encoding.
   */
  lemma ReencodeNeverGrows(b: seq<Byte>)
    requires Decode(b).Ok?
    ensures var v := Decode(b).value;
            && Sized(v) && Strict(v)
            && |Encode(v)| <= |b|
            && Decode(Encode(v)) == Ok(v)
            && (|Encode(v)| == |b| <==> Encode(v) == b)
  {
    ReadShape(b);
    var v := Decode(b).value;
    CanonOfStrict(v);
    ReadBack(v, []);
    assert Emit(v) + [] == Emit(v);
  }

  /** Examples of RFC 8949, appendix A. */
  lemma NumberExamples()
    ensures Encode(Uint(10)) == [0x0A] && Encode(Uint(23)) == [0x17] && Encode(Uint(24)) == [0x18, 0x18]
    ensures Encode(Uint(1000)) == [0x19, 0x03, 0xE8] && Encode(Uint(1000000)) == [0x1A, 0x00, 0x0F, 0x42, 0x40]
  {
  }

  lemma StringExamples()
    ensures Encode(Bytes([1, 2, 3, 4])) == [0x44, 0x01, 0x02, 0x03, 0x04]
    ensures Utf8.Encode("a") == [0x61] && Encode(Text("a")) == [0x61, 0x61]
  {
    assert "a"[1..] == "";
  }

  lemma ArrayExample()
    ensures Encode(Array([Uint(1), Uint(2), Uint(3)])) == [0x83, 0x01, 0x02, 0x03]
  {
  }

  lemma MapExample()
    ensures Encode(Map([Pair(1, Uint(2)), Pair(3, Uint(4))])) == [0xA2, 0x01, 0x02, 0x03, 0x04]
  {
  }
}
