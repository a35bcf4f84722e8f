/**
 The outbound queue over many pumps: when each row is tried, put off or given up, and which backoff it carries, in terms
 of what happened to it so far, however enqueueing, delaying and pumping to any peers interleave.
 */
module PumpRuns {
  import opened Basics
  import opened HomeState
  import opened HomeServers
  import opened Federation
  import opened Pumping

  // What happened to a queued row: when it was queued, how often trying it failed, when that was last, and until when
  // the whole queue was put off since.
  datatype Past = Past(queued: nat, failures: nat, failedAt: nat, putOff: Option<nat>)

  /** From when on a row is tried: at once; min(2^k, 300) seconds after the k-th failure; or when the delay is over. */
  function Due(p: Past): nat {
    match p.putOff
    case Some(until) => until
    case None =>
      if p.failures == 0 then p.queued else Min(p.failedAt + Min(Pow2(p.failures), 300), U64_MAX)
  }

  /** Fourteen days, after which a row is given up. */
  const TWO_WEEKS: nat := 1209600

  // -------------------------------------------------------------------------- one turn

  /** This turn of the loop tallies an attempt, good or bad. */
  ghost predicate Tried(r: Run)
    requires r.i < |r.a.outbound|
  {
    RowStep(r).stats.delivered + RowStep(r).stats.failed == r.stats.delivered + r.stats.failed + 1
  }

  /** What a turn does with a row for this peer, given the row's past. */
  ghost predicate OnTime(r: Run, p: Past)
    requires r.i < |r.a.outbound|
  {
    var row, now, s, s' := r.a.outbound[r.i], r.a.now, r.stats, RowStep(r).stats;
    var reply := ForwardOne(r.a, r.b, row.outer.payload).2;
    if row.dest != r.b.serverId then s' == s && RowStep(r).a == r.a
    else if now > p.queued + TWO_WEEKS then s' == s.(expired := s.expired + 1) && Leaves(r)
    else if now < Due(p) then s' == s.(deferred := s.deferred + 1) && RowStep(r).a == r.a
    else
      && Tried(r)
      && s' == (if reply.Ok? then s.(delivered := s.delivered + 1) else s.(failed := s.failed + 1))
      && if reply.Ok? || reply.error == Denied || reply.error == PeerRefused then Leaves(r) else Remains(r)
  }

  /** The row is taken out of the queue. */
  ghost predicate Leaves(r: Run)
    requires r.i < |r.a.outbound|
  {
    RowStep(r).a.outbound == r.a.outbound[..r.i] + r.a.outbound[r.i + 1..]
  }

  /** The row stays where it is, with what it carries and the time it was queued. */
  ghost predicate Remains(r: Run)
    requires r.i < |r.a.outbound|
  {
    var rows, rows' := r.a.outbound, RowStep(r).a.outbound;
    && |rows'| == |rows| && (forall j :: 0 <= j < |rows| && j != r.i ==> rows'[j] == rows[j])
    && rows'[r.i].dest == rows[r.i].dest && rows'[r.i].outer == rows[r.i].outer && rows'[r.i].enqueuedAt == rows[r.i].enqueuedAt
  }

  /** The pasts after one turn: a row that left takes its past along, a row kept after an attempt has failed once more. */
  ghost function TurnPast(r: Run, past: seq<Past>): (q: seq<Past>)
    requires r.i < |r.a.outbound| && |past| == |r.a.outbound|
    ensures |q| == |RowStep(r).a.outbound|
  {
    RowStepQueue(r);
    if RowStep(r).i == r.i then past[..r.i] + past[r.i + 1..]
    else if Tried(r) then past[r.i := Past(past[r.i].queued, past[r.i].failures + 1, r.a.now, None)]
    else past
  }

  /** The queue carries what the pasts say. */
  ghost predicate Kept(rows: seq<OutboundRow>, past: seq<Past>) {
    |past| == |rows| && forall i :: 0 <= i < |rows| ==> Fits(rows[i], past[i])
  }

  predicate Fits(row: OutboundRow, p: Past) {
    row.enqueuedAt == p.queued && row.nextAttempt == Due(p) && row.backoff == Min(Pow2(p.failures), 300)
  }

  lemma FailedOnce(row: OutboundRow, p: Past, now: nat)
    requires Fits(row, p)
    ensures Fits(Backed(row, now), Past(p.queued, p.failures + 1, now, None))
  {
    assert Pow2(p.failures + 1) == 2 * Pow2(p.failures);
  }

  lemma TurnOnTime(r: Run, p: Past)
    requires r.i < |r.a.outbound| && Fits(r.a.outbound[r.i], p)
    ensures OnTime(r, p)
  {
    TurnTallies(r);
    TurnQueues(r);
    hide RowStep, ForwardOne, Due, Pow2, Leaves, Remains;
  }

  /** The tally of a turn, by the row alone. */
  lemma TurnTallies(r: Run)
    requires r.i < |r.a.outbound|
    ensures var row, s, s' := r.a.outbound[r.i], r.stats, RowStep(r).stats;
            var reply := ForwardOne(r.a, r.b, row.outer.payload).2;
            s' == if row.dest != r.b.serverId then s
                  else if TooOld(row, r.a.now) then s.(expired := s.expired + 1)
                  else if row.nextAttempt > r.a.now then s.(deferred := s.deferred + 1)
                  else if reply.Ok? then s.(delivered := s.delivered + 1)
                  else s.(failed := s.failed + 1)
  {
    hide ForwardOne, Backed;
    ForwardKeeps(r.a, r.b, r.a.outbound[r.i].outer.payload);
  }

  /** The queue after a turn, by the row alone. */
  lemma TurnQueues(r: Run)
    requires r.i < |r.a.outbound|
    ensures var row := r.a.outbound[r.i]; var reply := ForwardOne(r.a, r.b, row.outer.payload).2;
            if row.dest != r.b.serverId then RowStep(r).a == r.a
            else if TooOld(row, r.a.now) then Leaves(r)
            else if row.nextAttempt > r.a.now then RowStep(r).a == r.a
            else if reply.Ok? || reply.error == Denied || reply.error == PeerRefused then Leaves(r)
            else Remains(r)
  {
    hide ForwardOne;
    ForwardKeeps(r.a, r.b, r.a.outbound[r.i].outer.payload);
  }

  /** Which rows a turn tries, by the row alone. */
  lemma TriedWhen(r: Run)
    requires r.i < |r.a.outbound|
    ensures var row := r.a.outbound[r.i];
            Tried(r) <==> row.dest == r.b.serverId && !TooOld(row, r.a.now) && row.nextAttempt <= r.a.now
  {
    hide ForwardOne;
    ForwardKeeps(r.a, r.b, r.a.outbound[r.i].outer.payload);
  }

  lemma TurnKeeps(r: Run, past: seq<Past>)
    requires r.i < |r.a.outbound| && Kept(r.a.outbound, past)
    ensures Kept(RowStep(r).a.outbound, TurnPast(r, past))
  {
    RowStepQueue(r);
    TurnKeepsRest(r);
    TriedWhen(r);
    var rows, rows', i := r.a.outbound, RowStep(r).a.outbound, r.i;
    hide RowStep, Tried, Kept, Backed, TooOld;
    KeptLength(rows, past);
    KeptWithout(rows, past, i);
    KeptFailed(rows, past, i, r.a.now);
    if RowStep(r).i > r.i && Tried(r) {
      assert rows' == rows[i := Backed(rows[i], r.a.now)];
    } else if RowStep(r).i > r.i {
      assert rows' == rows;
    }
  }

  lemma KeptWithout(rows: seq<OutboundRow>, past: seq<Past>, i: nat)
    requires Kept(rows, past) && i < |rows|
    ensures Kept(rows[..i] + rows[i + 1..], past[..i] + past[i + 1..])
  {
    hide Fits;
  }

  lemma KeptFailed(rows: seq<OutboundRow>, past: seq<Past>, i: nat, now: nat)
    requires Kept(rows, past) && i < |rows|
    ensures Kept(rows[i := Backed(rows[i], now)], past[i := Past(past[i].queued, past[i].failures + 1, now, None)])
  {
    FailedOnce(rows[i], past[i], now);
    hide Fits, Backed;
  }

  /** Seen as a whole, a turn removes the row at its position or replaces it. */
  lemma TurnKeepsRest(r: Run)
    requires r.i < |r.a.outbound|
    ensures var rows, rows' := r.a.outbound, RowStep(r).a.outbound;
            if RowStep(r).i == r.i then rows' == rows[..r.i] + rows[r.i + 1..]
            else |rows'| == |rows| && rows' == rows[r.i := rows'[r.i]]
  {
    RowStepQueue(r);
    hide RowStep, Backed;
    Parts(r.a.outbound, RowStep(r).a.outbound, r.i, RowStep(r).i);
  }

  lemma Parts<T>(a: seq<T>, b: seq<T>, i: nat, j: nat)
    requires i < |a| && i <= j <= i + 1 && j <= |b| && b[..j] == a[..i] + b[i..j] && b[j..] == a[i + 1..]
    ensures if j == i then b == a[..i] + a[i + 1..] else |b| == |a| && b == a[i := b[i]]
  {
    assert b == b[..j] + b[j..];
    if j > i {
      assert b[i..j] == [b[i]];
      assert b == a[..i] + [b[i]] + a[i + 1..];
    } else {
      assert b[i..j] == [];
    }
  }

  // -------------------------------------------------------------------------- one pump

  /** The loop and the pasts after `k` turns. */
  ghost function After(r: Run, past: seq<Past>, k: nat): (q: (Run, seq<Past>))
    requires |past| == |r.a.outbound|
    ensures |q.1| == |q.0.a.outbound|
    decreases k
  {
    if k == 0 || r.i >= |r.a.outbound| then (r, past) else After(RowStep(r), TurnPast(r, past), k - 1)
  }

  /** Turn `k` is about the `k`-th row the loop started with, and that row's past. */
  lemma {:induction false} TurnIsRow(r: Run, past: seq<Past>, k: nat)
    requires Kept(r.a.outbound, past) && r.i + k < |r.a.outbound|
    ensures var (q, then_) := After(r, past, k);
            && q.i < |q.a.outbound| && Kept(q.a.outbound, then_)
            && q.a.outbound[q.i] == r.a.outbound[r.i + k] && then_[q.i] == past[r.i + k]
            && q.a.now == r.a.now && q.b.serverId == r.b.serverId
    decreases k
  {
    hide RowStep, Kept, TurnPast;
    KeptLength(r.a.outbound, past);
    if k > 0 {
      TurnKeeps(r, past);
      TurnShifts(r, past, k);
      SameServers(r);
      TurnIsRow(RowStep(r), TurnPast(r, past), k - 1);
    }
  }

  lemma KeptLength(rows: seq<OutboundRow>, past: seq<Past>)
    requires Kept(rows, past)
    ensures |past| == |rows|
  {
  }

  lemma SameServers(r: Run)
    requires r.i < |r.a.outbound|
    ensures RowStep(r).a.now == r.a.now && RowStep(r).b.serverId == r.b.serverId
  {
    hide ForwardOne;
    ForwardKeeps(r.a, r.b, r.a.outbound[r.i].outer.payload);
  }

  lemma TurnShifts(r: Run, past: seq<Past>, k: nat)
    requires |past| == |r.a.outbound| && 0 < k && r.i + k < |r.a.outbound|
    ensures var r', past' := RowStep(r), TurnPast(r, past);
            && r'.i + (k - 1) < |r'.a.outbound|
            && r'.a.outbound[r'.i + (k - 1)] == r.a.outbound[r.i + k] && past'[r'.i + (k - 1)] == past[r.i + k]
  {
    RowStepQueue(r);
    TurnKeepsRest(r);
    hide RowStep, Tried, Backed, TooOld;
  }

  lemma {:induction false} RowsAreTurns(r: Run, past: seq<Past>, k: nat)
    requires |past| == |r.a.outbound| && r.i + k >= |r.a.outbound|
    ensures After(r, past, k).0 == Rows(r)
    decreases k
  {
    hide RowStep, TurnPast;
    if r.i < |r.a.outbound| {
      RowsAreTurns(RowStep(r), TurnPast(r, past), k - 1);
    }
  }

  lemma {:induction false} TurnsKeep(r: Run, past: seq<Past>, k: nat)
    requires Kept(r.a.outbound, past)
    ensures KeptAfter(r, past, k)
    decreases k
  {
    hide RowStep, Kept, TurnPast;
    KeptLength(r.a.outbound, past);
    if k > 0 && r.i < |r.a.outbound| {
      TurnKeeps(r, past);
      TurnsKeep(RowStep(r), TurnPast(r, past), k - 1);
    }
  }

  ghost predicate KeptAfter(r: Run, past: seq<Past>, k: nat) {
    |past| == |r.a.outbound| && Kept(After(r, past, k).0.a.outbound, After(r, past, k).1)
  }

  // ------------------------------------------------------------------------------ runs

  // A server's queue with the past of each row.
  datatype Outbox = Outbox(home: Home, past: seq<Past>)

  datatype Event =
    | Enqueued(outer: Outer)
    | Delayed(until: nat)
    | Pumped(to: Home)
    | Elsewhere(home: Home)

  /** Where the loop of a pump starts. */
  ghost function Begin(home: Home, to: Home): Run {
    var (a, b, hello) := EnsureHello(home, to);
    Run(a, b, 0, NOTHING, 0)
  }

  /** Enqueueing, delaying, a pump to any server, or anything at all that leaves the queue alone. */
  ghost predicate Next(x: Outbox, e: Event, x': Outbox)
    requires |x.past| == |x.home.outbound|
  {
    match e
    case Enqueued(outer) =>
      x' == Outbox(Enqueue(x.home, outer),
                   if outer.dest == x.home.serverId then x.past else x.past + [Past(x.home.now, 0, x.home.now, None)])
    case Delayed(until) =>
      x' == Outbox(DeferOutbound(x.home, until),
                   seq(|x.past|, i requires 0 <= i < |x.past| => x.past[i].(putOff := Some(until))))
    case Pumped(to) =>
      var (q, r) := PumpAll(x.home, to);
      && x'.home == q.a
      && (r.Err? ==> x'.past == x.past)
      && (r.Ok? ==> |Begin(x.home, to).a.outbound| == |x.past|
                    && x'.past == After(Begin(x.home, to), x.past, |x.past|).1)
    case Elsewhere(home) => home.outbound == x.home.outbound && x' == Outbox(home, x.past)
  }

  ghost predicate IsRun(xs: seq<Outbox>, es: seq<Event>) {
    && |xs| == |es| + 1
    && forall i :: 0 <= i < |es| ==> |xs[i].past| == |xs[i].home.outbound| && Next(xs[i], es[i], xs[i + 1])
  }

  lemma NextKeeps(x: Outbox, e: Event, x': Outbox)
    requires Kept(x.home.outbound, x.past) && Next(x, e, x')
    ensures Kept(x'.home.outbound, x'.past)
  {
    match e
    case Enqueued(outer) =>
      IngestFrame(x.home, outer.enc, outer.plain);
      hide Ingest;
    case Delayed(_) =>
    case Elsewhere(_) =>
    case Pumped(to) => PumpedKeeps(x, to, x');
  }

  lemma BeginKeeps(home: Home, to: Home)
    ensures var r := Begin(home, to);
            r.a.outbound == home.outbound && r.a.now == home.now && r.b.serverId == to.serverId && r.i == 0
  {
    HelloKeeps(home, to);
    hide EnsureHello;
  }

  lemma PumpIsRows(home: Home, to: Home)
    ensures var (q, r) := PumpAll(home, to);
            && (r.Ok? ==> q == Rows(Begin(home, to)))
            && (r.Err? ==> q.a.outbound == home.outbound)
  {
    HelloKeeps(home, to);
    hide EnsureHello, Rows;
  }

  lemma PumpedKeeps(x: Outbox, to: Home, x': Outbox)
    requires Kept(x.home.outbound, x.past) && Next(x, Pumped(to), x')
    ensures Kept(x'.home.outbound, x'.past)
  {
    hide Kept, After;
    BeginKeeps(x.home, to);
    PumpIsRows(x.home, to);
    hide PumpAll, Begin;
    KeptLength(x.home.outbound, x.past);
    if PumpAll(x.home, to).1.Ok? {
      TurnsKeep(Begin(x.home, to), x.past, |x.past|);
      RowsAreTurns(Begin(x.home, to), x.past, |x.past|);
    }
  }

  lemma {:induction false} RunKeeps(xs: seq<Outbox>, es: seq<Event>)
    requires IsRun(xs, es) && xs[0].home.outbound == [] && xs[0].past == []
    ensures forall i :: 0 <= i < |xs| ==> Kept(xs[i].home.outbound, xs[i].past)
  {
    if |es| > 0 {
      hide Next, Kept;
      var n := |es| - 1;
      assert forall i :: 0 <= i < n + 1 ==> xs[..n + 1][i] == xs[i];
      RunKeeps(xs[..n + 1], es[..n]);
      NextKeeps(xs[n], es[n], xs[n + 1]);
    }
  }

  /**
   In any run that starts with an empty queue: every queued row's backoff is min(2^failures, 300), with the number of
   attempts on that row that failed so far.
   */
  lemma BackoffCountsFailures(xs: seq<Outbox>, es: seq<Event>)
    requires IsRun(xs, es) && xs[0].home.outbound == [] && xs[0].past == []
    ensures var x := xs[|es|];
            && |x.past| == |x.home.outbound|
            && forall j :: 0 <= j < |x.past| ==> x.home.outbound[j].backoff == Min(Pow2(x.past[j].failures), 300)
  {
    RunKeeps(xs, es);
    hide Next, Pow2, Due;
  }

  /**
   Retries come on time. In any such run, in every pump that gets to its loop, turn `k` is about row `k` of the queue. If
   the row is for this peer it is given up once it has been queued for more than fourteen days; otherwise it is put off
   while now is before its time, that is min(2^k, 300) seconds after its k-th failure or the end of a delay ordered
   since; and from then on it is tried, and tallied as the exchange went.
   */
  lemma RetriesOnTime(xs: seq<Outbox>, es: seq<Event>, n: nat, k: nat)
    requires IsRun(xs, es) && xs[0].home.outbound == [] && xs[0].past == []
    requires n < |es| && es[n].Pumped? && PumpAll(xs[n].home, es[n].to).1.Ok? && k < |xs[n].home.outbound|
    ensures |Begin(xs[n].home, es[n].to).a.outbound| == |xs[n].past| == |xs[n].home.outbound|
    ensures var r := After(Begin(xs[n].home, es[n].to), xs[n].past, k).0;
            && r.i < |r.a.outbound| && r.a.outbound[r.i] == xs[n].home.outbound[k]
            && r.a.now == xs[n].home.now && r.b.serverId == es[n].to.serverId
            && OnTime(r, xs[n].past[k])
  {
    RunKeeps(xs, es);
    var x, to := xs[n], es[n].to;
    BeginKeeps(x.home, to);
    KeptLength(x.home.outbound, x.past);
    hide Next, Begin, PumpAll, After, OnTime, Kept;
    TurnIsRow(Begin(x.home, to), x.past, k);
    var (r, then_) := After(Begin(x.home, to), x.past, k);
    KeptAt(r.a.outbound, then_, r.i);
    TurnOnTime(r, then_[r.i]);
  }

  lemma KeptAt(rows: seq<OutboundRow>, past: seq<Past>, i: nat)
    requires Kept(rows, past) && i < |rows|
    ensures |past| == |rows| && Fits(rows[i], past[i])
  {
  }

  /** What the pump reports and leaves is the sum of its turns. */
  lemma PumpIsItsTurns(home: Home, to: Home, past: seq<Past>)
    requires PumpAll(home, to).1.Ok? && |past| == |home.outbound|
    ensures |Begin(home, to).a.outbound| == |past|
    ensures var (q, r) := PumpAll(home, to); q == After(Begin(home, to), past, |past|).0 && r == Ok(q.stats)
  {
    BeginKeeps(home, to);
    PumpIsRows(home, to);
    PumpTally(home, to);
    hide PumpAll, Begin, After;
    RowsAreTurns(Begin(home, to), past, |past|);
  }

  lemma PumpTally(home: Home, to: Home)
    ensures var (q, r) := PumpAll(home, to); r.Ok? ==> r == Ok(q.stats)
  {
    hide EnsureHello, Rows;
  }
}
