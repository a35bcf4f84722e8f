/** Owner requests are single use for as long as the server runs, although stale nonces are forgotten. */
module OwnerAuth {
  import opened Basics
  import opened HomeServers

  // A request as it reaches the nonce check: the clock then, and whether the mailbox checks before it passed.
  datatype Arrival = Arrival(req: OwnerRequest, clock: nat, reaches: bool)

  function After(nonces: map<Key, nat>, a: Arrival): map<Key, nat> {
    if a.reaches then CheckNonce(nonces, a.req, a.clock).0 else nonces
  }

  predicate Accepted(nonces: map<Key, nat>, a: Arrival) {
    a.reaches && CheckNonce(nonces, a.req, a.clock).1
  }

  /** What is accepted, in seconds: signed within two minutes of the clock either way, and no such nonce of that age around. */
  lemma AcceptedExactly(nonces: map<Key, nat>, a: Arrival)
    ensures Accepted(nonces, a) <==>
            && a.reaches && a.req.genuine && -120 <= a.clock - a.req.ts <= 120
            && (a.req.nonce in nonces ==> a.clock - nonces[a.req.nonce] > 120)
  {
  }

  /** The nonce table is carried from arrival to arrival, under any clock. */
  ghost predicate IsAnyRun(tables: seq<map<Key, nat>>, arrivals: seq<Arrival>) {
    && |tables| == |arrivals| + 1
    && forall i :: 0 <= i < |arrivals| ==> tables[i + 1] == After(tables[i], arrivals[i])
  }

  ghost predicate IsRun(tables: seq<map<Key, nat>>, arrivals: seq<Arrival>) {
    && IsAnyRun(tables, arrivals)
    && forall i, j :: 0 <= i < j < |arrivals| ==> arrivals[i].clock <= arrivals[j].clock
  }

  /** Once accepted, a nonce stays in the table until its timestamp is too old to be accepted again. */
  lemma {:induction false} Remembered(tables: seq<map<Key, nat>>, arrivals: seq<Arrival>, i: nat, k: nat)
    requires IsRun(tables, arrivals) && i < k < |tables| && Accepted(tables[i], arrivals[i])
    ensures var req := arrivals[i].req;
            Get(tables[k], req.nonce) == Some(req.ts) || SatSub(arrivals[k - 1].clock, req.ts) > OWNER_MAX_AGE
  {
    if k > i + 1 {
      Remembered(tables, arrivals, i, k - 1);
      assert tables[k] == After(tables[k - 1], arrivals[k - 1]);
    }
  }

  /** No signed request is accepted twice, whatever arrives in between. */
  lemma SingleUse(tables: seq<map<Key, nat>>, arrivals: seq<Arrival>, i: nat, j: nat)
    requires IsRun(tables, arrivals) && i < j < |arrivals|
    requires Accepted(tables[i], arrivals[i]) && Accepted(tables[j], arrivals[j])
    ensures arrivals[i].req != arrivals[j].req
    ensures arrivals[i].req.nonce == arrivals[j].req.nonce ==> arrivals[i].req.ts != arrivals[j].req.ts
  {
    Remembered(tables, arrivals, i, j);
  }

  /** This arrival makes the server forget nonces of requests signed at `ts`. */
  predicate Forgets(a: Arrival, ts: nat) {
    a.reaches && a.req.genuine && InWindow(a.req.ts, a.clock) && SatSub(a.clock, ts) > OWNER_MAX_AGE
  }

  /** The nonce of an accepted request is remembered exactly until an arrival that makes the server forget it. */
  lemma {:induction false} RememberedExactly(tables: seq<map<Key, nat>>, arrivals: seq<Arrival>, i: nat, k: nat)
    requires IsAnyRun(tables, arrivals) && i < k < |tables| && Accepted(tables[i], arrivals[i])
    requires forall m :: i < m < k && arrivals[m].req.nonce == arrivals[i].req.nonce ==> !Accepted(tables[m], arrivals[m])
    ensures var req := arrivals[i].req;
            Get(tables[k], req.nonce)
            == if exists m :: i < m < k && Forgets(arrivals[m], req.ts) then None else Some(req.ts)
  {
    var req := arrivals[i].req;
    if k == i + 1 {
      assert tables[k] == After(tables[i], arrivals[i]);
    } else {
      RememberedExactly(tables, arrivals, i, k - 1);
      assert tables[k] == After(tables[k - 1], arrivals[k - 1]);
      assert Get(tables[k], req.nonce) == if Forgets(arrivals[k - 1], req.ts) then None else Get(tables[k - 1], req.nonce);
    }
  }

  /**
   Under any clock at all: a request that was accepted is accepted again exactly if it is fresh again and, in between,
   some request arrived at a time that was past its age, so that its nonce was forgotten.
   */
  lemma ReplayedExactly(tables: seq<map<Key, nat>>, arrivals: seq<Arrival>, i: nat, j: nat)
    requires IsAnyRun(tables, arrivals) && i < j < |arrivals| && Accepted(tables[i], arrivals[i])
    requires arrivals[j].req == arrivals[i].req
    requires forall m :: i < m < j && arrivals[m].req.nonce == arrivals[i].req.nonce ==> !Accepted(tables[m], arrivals[m])
    ensures Accepted(tables[j], arrivals[j]) <==>
            && arrivals[j].reaches && InWindow(arrivals[j].req.ts, arrivals[j].clock)
            && exists m :: i < m < j && Forgets(arrivals[m], arrivals[i].req.ts)
  {
    RememberedExactly(tables, arrivals, i, j);
  }

  /** With a clock that steps back the same request gets through again: the clock assumption is needed. */
  lemma ClockRollbackReplays(req: OwnerRequest, other: OwnerRequest)
    requires req.genuine && other.genuine && req.nonce != other.nonce && other.ts == req.ts + 200
    ensures var t0: map<Key, nat> := map[];
            var t1 := After(t0, Arrival(req, req.ts, true));
            var t2 := After(t1, Arrival(other, other.ts, true));
            Accepted(t0, Arrival(req, req.ts, true)) && Accepted(t2, Arrival(req, req.ts, true))
  {
  }
}
