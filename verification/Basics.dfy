/** Shared vocabulary: failure values, identifiers and saturating machine arithmetic. */
module Basics {

  datatype Option<+T> = None | Some(value: T)

  datatype Result<+T, +E> = Ok(value: T) | Err(error: E) {
    predicate IsFailure() { Err? }

    function PropagateFailure<U>(): Result<U, E>
      requires Err?
    {
      Err(error)
    }

    function Extract(): T
      requires Ok?
    {
      value
    }
  }

  datatype ServerError =
    | Denied | OwnerAuth | AlreadyRegistered | FetchLimit | NotPinned
    | PeerRefused | CounterGap | HelloMismatch | Wire

  // A 32-byte identifier or key. The servers only ever compare these for equality.
  type Key = int

  // An opaque byte string that is stored and handed back unread.
  type Blob = int

  const U64_MAX: nat := 0xFFFF_FFFF_FFFF_FFFF
  const I64_RANGE: nat := 0x8000_0000_0000_0000

  type U64 = n: int | 0 <= n <= U64_MAX witness 0

  function SatSub(a: nat, b: nat): (r: nat) {
    if a < b then 0 else a - b
  }

  function SatAdd(a: nat, b: nat): (r: nat) {
    if a + b > U64_MAX then U64_MAX else a + b
  }

  function Min(a: nat, b: nat): nat {
    if a < b then a else b
  }

  /** The bit pattern of an unsigned 64-bit number read as a signed one (`as i64`). */
  function AsI64(u: U64): int {
    if u < I64_RANGE then u else u - 2 * I64_RANGE
  }

  function Get<K, V>(m: map<K, V>, k: K): Option<V> {
    if k in m then Some(m[k]) else None
  }

  function SetOf<T>(s: seq<T>): set<T> {
    set x | x in s
  }

  predicate NoDup<T(==)>(s: seq<T>) {
    forall i, j :: 0 <= i < j < |s| ==> s[i] != s[j]
  }

  /** Some member of a set. */
  ghost function Member<T>(s: set<T>): (x: T)
    requires s != {}
    ensures x in s
  {
    var x :| x in s; x
  }

  ghost function LeastKey(keys: set<nat>): (k: nat)
    requires keys != {}
    ensures k in keys && forall s :: s in keys ==> k <= s
  {
    var s :| s in keys;
    if keys == {s} then s
    else
      var r := LeastKey(keys - {s});
      assert forall x :: x in keys ==> x == s || x in keys - {s};
      if s < r then s else r
  }

  method Pick<T(==)>(s: set<T>) returns (x: T)
    requires s != {}
    ensures x in s
  {
    x :| x in s;
  }

  /** Maps that answer every lookup alike are equal. */
  lemma SameLookups<K, V>(a: map<K, V>, b: map<K, V>)
    requires forall k :: Get(a, k) == Get(b, k)
    ensures a == b
  {
    assert forall k :: k in a <==> Get(a, k).Some?;
    assert forall k :: k in b <==> Get(b, k).Some?;
    forall k | k in a ensures a[k] == b[k] {
      assert Get(a, k) == Get(b, k);
    }
  }
}
