/**
 The outbound pump between two home servers: hello exchange, forwarding with a replied frame, and the queue
 loop that removes, delays or backs off the rows of one destination.
 */
module Pumping {
  import opened Basics
  import opened HomeState
  import opened HomeRun
  import opened HomeServers
  import opened Federation

  datatype Stats = Stats(delivered: nat, failed: nat, deferred: nat, expired: nat)

  // The pump part-way: both servers, the position in the queue, the tally, and how many counter gaps were met.
  datatype Run = Run(a: Home, b: Home, i: nat, stats: Stats, gaps: nat)

  predicate Paired(a: Home, b: Home) {
    && b.serverId in a.peers && !a.peers[b.serverId].refused
    && a.serverId in b.peers && !b.peers[a.serverId].refused
  }

  /** Each side expects exactly the counter the other will use next. */
  predicate InStep(a: Home, b: Home) {
    && Paired(a, b)
    && a.peers[b.serverId].nextTx == b.peers[a.serverId].lastRx + 1
    && b.peers[a.serverId].nextTx == a.peers[b.serverId].lastRx + 1
  }

  // -------------------------------------------------------------- one exchange

  /** Frame a payload, have the other side accept it, frame its reply and accept that. */
  ghost function ForwardOne(a: Home, b: Home, payload: Payload): (Home, Home, Reply<()>) {
    match TakeFrame(a, b.serverId, payload)
    case (a1, Err(e)) => (a1, b, Err(e))
    case (a1, Ok(frame)) =>
      match AcceptFrame(b, a.serverId, frame)
      case (b1, Err(e)) => (a1, b1, Err(e))
      case (b1, Ok(reply)) =>
        match TakeFrame(b1, a.serverId, reply)
        case (b2, Err(e)) => (a1, b2, Err(e))
        case (b2, Ok(back)) =>
          match AcceptFrame(a1, b.serverId, back)
          case (a2, Err(e)) => (a2, b2, Err(e))
          case (a2, Ok(answer)) => (a2, b2, if answer == Fail then Err(Denied) else Ok(()))
  }

  function HelloDone(h: Home, peer: Key): Home {
    if peer in h.peers then h.(peers := h.peers[peer := h.peers[peer].(helloDone := true)]) else h
  }

  predicate NeedsHello(h: Home, peer: Key) {
    !(peer in h.peers && h.peers[peer].helloDone)
  }

  /** Exchange hellos both ways unless both sides already have. */
  ghost function EnsureHello(a: Home, b: Home): (Home, Home, Reply<()>) {
    if !NeedsHello(a, b.serverId) && !NeedsHello(b, a.serverId) then (a, b, Ok(()))
    else
      match TakeFrame(a, b.serverId, Hello(a.serverId, b.serverId))
      case (a1, Err(e)) => (a1, b, Err(e))
      case (a1, Ok(fa)) =>
        match TakeFrame(b, a.serverId, Hello(b.serverId, a.serverId))
        case (b1, Err(e)) => (a1, b1, Err(e))
        case (b1, Ok(fb)) =>
          match AcceptFrame(b1, a.serverId, fa)
          case (b2, Err(e)) => (a1, b2, Err(e))
          case (b2, Ok(_)) =>
            match AcceptFrame(a1, b.serverId, fb)
            case (a2, Err(e)) => (a2, b2, Err(e))
            case (a2, Ok(_)) => (HelloDone(a2, b.serverId), HelloDone(b2, a.serverId), Ok(()))
  }

  /** Same queue and clock, same peers pinned, same peers refused. */
  ghost predicate Calm(h: Home, h1: Home) {
    && SameQueue(h, h1)
    && h1.peers.Keys == h.peers.Keys
    && forall p :: p in h.peers ==> h1.peers[p].refused == h.peers[p].refused
  }

  lemma CalmPair(a: Home, a1: Home, b: Home, b1: Home)
    requires Calm(a, a1) && Calm(b, b1)
    ensures SameQueue(a, a1) && SameQueue(b, b1) && (Paired(a, b) ==> Paired(a1, b1))
  {
  }

  lemma CalmTwice(h: Home, h1: Home, h2: Home)
    requires Calm(h, h1) && Calm(h1, h2)
    ensures Calm(h, h2)
  {
  }

  lemma TakeKeepsQueue(h: Home, peer: Key, payload: Payload)
    ensures Calm(h, TakeFrame(h, peer, payload).0)
  {
  }

  lemma AcceptKeepsQueue(h: Home, from: Key, frame: Frame)
    ensures Calm(h, AcceptFrame(h, from, frame).0)
  {
    if from in h.peers && !h.peers[from].refused && frame.counter == h.peers[from].lastRx + 1 {
      AcceptMoves(h, from, frame);
    } else {
      AcceptRefuses(h, from, frame);
    }
    hide AcceptFrame;
  }

  /** Whatever the counters, an exchange leaves queues, clocks and refusals alone. */
  lemma ForwardKeeps(a: Home, b: Home, payload: Payload)
    ensures var (a1, b1, r) := ForwardOne(a, b, payload);
            SameQueue(a, a1) && SameQueue(b, b1) && (Paired(a, b) ==> Paired(a1, b1))
  {
    var (a9, b9, r) := ForwardOne(a, b, payload);
    assert Calm(a, a9) && Calm(b, b9) by {
      hide TakeFrame, AcceptFrame, Calm;
      assert Calm(a, a) && Calm(b, b) by { CalmSelf(a); CalmSelf(b); }
      TakeKeepsQueue(a, b.serverId, payload);
      var (a1, f) := TakeFrame(a, b.serverId, payload);
      if f.Ok? {
        AcceptKeepsQueue(b, a.serverId, f.value);
        var (b1, reply) := AcceptFrame(b, a.serverId, f.value);
        if reply.Ok? {
          TakeKeepsQueue(b1, a.serverId, reply.value);
          var (b2, back) := TakeFrame(b1, a.serverId, reply.value);
          CalmTwice(b, b1, b2);
          if back.Ok? {
            AcceptKeepsQueue(a1, b.serverId, back.value);
            CalmTwice(a, a1, AcceptFrame(a1, b.serverId, back.value).0);
          }
        }
      }
    }
    hide ForwardOne, Calm;
    CalmPair(a, a9, b, b9);
  }

  lemma CalmSelf(h: Home)
    ensures Calm(h, h)
  {
  }

  /** Counters of one side after it framed, or accepted, the next frame. */
  lemma TakeInStep(h: Home, peer: Key, payload: Payload)
    requires peer in h.peers && !h.peers[peer].refused
    ensures var (h1, r) := TakeFrame(h, peer, payload);
            && r == Ok(Frame(h.peers[peer].nextTx, payload))
            && peer in h1.peers && h1.serverId == h.serverId
            && h1.peers[peer] == h.peers[peer].(nextTx := h.peers[peer].nextTx + 1)
  {
  }

  lemma AcceptInStep(h: Home, from: Key, frame: Frame)
    requires from in h.peers && !h.peers[from].refused && frame.counter == h.peers[from].lastRx + 1
    ensures var (h1, r) := AcceptFrame(h, from, frame);
            && from in h1.peers && h1.serverId == h.serverId
            && SameLink(h.peers[from].(lastRx := frame.counter), h1.peers[from])
            && r != Err(CounterGap) && r != Err(PeerRefused) && r != Err(NotPinned) && r != Err(Denied)
            && (frame.payload.OkSeq? || frame.payload.Fail? ==> r == Ok(frame.payload))
            && (frame.payload == Hello(from, h.serverId) ==> r.Ok?)
            && (frame.payload == Ciphertext(None, None) ==> r == Ok(Fail))
            && (r.Ok? ==> r.value.OkSeq? || r.value.Fail? || r.value == Ciphertext(None, None))
  {
    AcceptMoves(h, from, frame);
    hide Ingest;
  }

  /**
   In step, an exchange stays in step and meets no counter gap, whatever the payload; and the row counts as
   delivered exactly when the receiver processed it without failing.
   */
  lemma ForwardInStep(a: Home, b: Home, payload: Payload)
    requires InStep(a, b)
    ensures var (a1, b1, r) := ForwardOne(a, b, payload);
            InStep(a1, b1) && r != Err(CounterGap) && r != Err(PeerRefused) && r != Err(NotPinned)
    ensures var reply := AcceptFrame(b, a.serverId, Frame(a.peers[b.serverId].nextTx, payload)).1;
            ForwardOne(a, b, payload).2.Ok? <==> reply.Ok? && reply.value.OkSeq?
  {
    hide TakeFrame, AcceptFrame;
    TakeInStep(a, b.serverId, payload);
    var (a1, f) := TakeFrame(a, b.serverId, payload);
    AcceptInStep(b, a.serverId, f.value);
    var (b1, reply) := AcceptFrame(b, a.serverId, f.value);
    if reply.Ok? {
      TakeInStep(b1, a.serverId, reply.value);
      var (b2, back) := TakeFrame(b1, a.serverId, reply.value);
      AcceptInStep(a1, b.serverId, back.value);
    }
  }

  lemma HelloKeeps(a: Home, b: Home)
    ensures var (a1, b1, r) := EnsureHello(a, b);
            SameQueue(a, a1) && SameQueue(b, b1) && (Paired(a, b) ==> Paired(a1, b1))
  {
    var (a9, b9, r) := EnsureHello(a, b);
    assert Calm(a, a9) && Calm(b, b9) by {
      hide TakeFrame, AcceptFrame, Calm, NeedsHello, HelloDone;
      CalmSelf(a);
      CalmSelf(b);
      TakeKeepsQueue(a, b.serverId, Hello(a.serverId, b.serverId));
      TakeKeepsQueue(b, a.serverId, Hello(b.serverId, a.serverId));
      var (a1, fa) := TakeFrame(a, b.serverId, Hello(a.serverId, b.serverId));
      var (b1, fb) := TakeFrame(b, a.serverId, Hello(b.serverId, a.serverId));
      if fa.Ok? && fb.Ok? {
        AcceptKeepsQueue(b1, a.serverId, fa.value);
        var b2 := AcceptFrame(b1, a.serverId, fa.value).0;
        CalmTwice(b, b1, b2);
        AcceptKeepsQueue(a1, b.serverId, fb.value);
        var a2 := AcceptFrame(a1, b.serverId, fb.value).0;
        CalmTwice(a, a1, a2);
        CalmDone(a, a2, b.serverId);
        CalmDone(b, b2, a.serverId);
      }
    }
    hide EnsureHello, Calm;
    CalmPair(a, a9, b, b9);
  }

  lemma CalmDone(h: Home, h1: Home, peer: Key)
    requires Calm(h, h1)
    ensures Calm(h, HelloDone(h1, peer))
  {
  }

  lemma HelloInStep(a: Home, b: Home)
    requires InStep(a, b)
    ensures var (a1, b1, r) := EnsureHello(a, b); InStep(a1, b1) && r == Ok(())
    ensures var (a1, b1, r) := EnsureHello(a, b); !NeedsHello(a1, b.serverId) && !NeedsHello(b1, a.serverId)
  {
    hide TakeFrame, AcceptFrame;
    TakeInStep(a, b.serverId, Hello(a.serverId, b.serverId));
    TakeInStep(b, a.serverId, Hello(b.serverId, a.serverId));
    var (a1, fa) := TakeFrame(a, b.serverId, Hello(a.serverId, b.serverId));
    var (b1, fb) := TakeFrame(b, a.serverId, Hello(b.serverId, a.serverId));
    AcceptInStep(b1, a.serverId, fa.value);
    AcceptInStep(a1, b.serverId, fb.value);
  }

  // --------------------------------------------------------------- the queue loop

  function RemoveAt(rows: seq<OutboundRow>, i: nat): seq<OutboundRow>
    requires i < |rows|
  {
    rows[..i] + rows[i + 1..]
  }

  /** A row after one more failed attempt. */
  function Backed(row: OutboundRow, now: nat): OutboundRow {
    row.(backoff := NextBackoff(row.backoff), nextAttempt := SatAdd(now, NextBackoff(row.backoff)))
  }

  predicate TooOld(row: OutboundRow, now: nat) {
    SatSub(now, row.enqueuedAt) > OUTBOUND_MAX_AGE_SECS
  }

  /** One turn of the loop on the row at position `i`. */
  ghost function RowStep(r: Run): (r': Run)
    requires r.i < |r.a.outbound|
    ensures |r'.a.outbound| - r'.i < |r.a.outbound| - r.i && r'.i <= |r'.a.outbound|
  {
    var row := r.a.outbound[r.i];
    if row.dest != r.b.serverId then r.(i := r.i + 1)
    else if TooOld(row, r.a.now) then
      r.(a := SetOutbound(r.a, RemoveAt(r.a.outbound, r.i)), stats := r.stats.(expired := r.stats.expired + 1))
    else if row.nextAttempt > r.a.now then
      r.(i := r.i + 1, stats := r.stats.(deferred := r.stats.deferred + 1))
    else
      ForwardKeeps(r.a, r.b, row.outer.payload);
      Settle(r, ForwardOne(r.a, r.b, row.outer.payload))
  }

  /** What becomes of the row at position `i` once it was forwarded. */
  ghost function Settle(r: Run, f: (Home, Home, Reply<()>)): (r': Run)
    requires r.i < |r.a.outbound| && f.0.outbound == r.a.outbound
    ensures |r'.a.outbound| - r'.i < |r.a.outbound| - r.i && r'.i <= |r'.a.outbound|
  {
    var (a, b, reply) := f;
    var stats := if reply.Ok? then r.stats.(delivered := r.stats.delivered + 1)
                 else r.stats.(failed := r.stats.failed + 1);
    if Removes(reply) then
      Run(SetOutbound(a, RemoveAt(a.outbound, r.i)), b, r.i, stats, r.gaps)
    else
      var rows := a.outbound[r.i := Backed(a.outbound[r.i], a.now)];
      if reply == Err(CounterGap) then
        Run(SetOutbound(ResetLink(a, b.serverId), rows), ResetLink(b, a.serverId), r.i + 1, stats, r.gaps + 1)
      else
        Run(SetOutbound(a, rows), b, r.i + 1, stats, r.gaps)
  }

  /** Delivered, or refused for good. */
  predicate Removes(reply: Reply<()>) {
    reply.Ok? || reply.error == Denied || reply.error == PeerRefused
  }

  ghost function Rows(r: Run): Run
    decreases |r.a.outbound| - r.i
  {
    if r.i >= |r.a.outbound| then r else Rows(RowStep(r))
  }

  const NOTHING := Stats(0, 0, 0, 0)

  ghost function PumpAll(a: Home, b: Home): (Run, Reply<Stats>) {
    var start := Run(a, b, 0, NOTHING, 0);
    if PeerRefuses(a, b.serverId) || PeerRefuses(b, a.serverId) then (start, Err(PeerRefused))
    else if b.serverId !in a.peers || a.serverId !in b.peers then (start, Err(NotPinned))
    else match EnsureHello(a, b)
         case (a1, b1, Err(e)) => (Run(a1, b1, 0, NOTHING, 0), Err(e))
         case (a1, b1, Ok(_)) => var r := Rows(Run(a1, b1, 0, NOTHING, 0)); (r, Ok(r.stats))
  }

  /** A pump between servers of which one refuses or does not know the other says so and changes nothing. */
  lemma RefusedPump(a: Home, b: Home)
    ensures var (r, reply) := PumpAll(a, b);
            && ((b.serverId in a.peers && a.peers[b.serverId].refused) || (a.serverId in b.peers && b.peers[a.serverId].refused)
                ==> r.a == a && r.b == b && reply == Err(PeerRefused))
            && (!Paired(a, b) ==> r.a == a && r.b == b && (reply == Err(PeerRefused) || reply == Err(NotPinned)))
  {
    hide EnsureHello, Rows;
  }

  predicate PeerRefuses(h: Home, peer: Key) {
    peer in h.peers && h.peers[peer].refused
  }

  // ---------------------------------------------------------------- what it does

  function Total(s: Stats): nat {
    s.delivered + s.failed + s.deferred + s.expired
  }

  /** Rows queued for one destination. */
  function Mine(rows: seq<OutboundRow>, dest: Key): seq<OutboundRow> {
    if rows == [] then []
    else (if rows[0].dest == dest then [rows[0]] else []) + Mine(rows[1..], dest)
  }

  function Others(rows: seq<OutboundRow>, dest: Key): seq<OutboundRow> {
    if rows == [] then []
    else (if rows[0].dest != dest then [rows[0]] else []) + Others(rows[1..], dest)
  }

  /**
   `kept` is what the loop leaves of `rows`: rows of other destinations untouched; a row of ours gone, or
   untouched because it is not due, or backed off because it was due and failed; everything in order.
   */
  ghost predicate Handled(rows: seq<OutboundRow>, kept: seq<OutboundRow>, dest: Key, now: nat)
    decreases |rows|
  {
    if rows == [] then kept == []
    else
      var row := rows[0];
      if row.dest != dest then kept != [] && kept[0] == row && Handled(rows[1..], kept[1..], dest, now)
      else if TooOld(row, now) then Handled(rows[1..], kept, dest, now)
      else if row.nextAttempt > now then kept != [] && kept[0] == row && Handled(rows[1..], kept[1..], dest, now)
      else
        || Handled(rows[1..], kept, dest, now)
        || (kept != [] && kept[0] == Backed(row, now) && Handled(rows[1..], kept[1..], dest, now))
  }

  /** How the links of a run move: never unpaired, in step stays in step without a gap, a gap puts them in step. */
  ghost predicate LinksMove(r: Run, q: Run) {
    && q.a.serverId == r.a.serverId && q.a.now == r.a.now && q.b.serverId == r.b.serverId
    && Paired(q.a, q.b) && r.gaps <= q.gaps
    && (InStep(r.a, r.b) ==> InStep(q.a, q.b) && q.gaps == r.gaps)
    && (q.gaps > r.gaps ==> InStep(q.a, q.b))
  }

  lemma SettleLinks(r: Run, f: (Home, Home, Reply<()>))
    requires r.i < |r.a.outbound| && Paired(r.a, r.b)
    requires SameQueue(r.a, f.0) && SameQueue(r.b, f.1) && Paired(f.0, f.1)
    requires InStep(r.a, r.b) ==> InStep(f.0, f.1) && f.2 != Err(CounterGap)
    ensures LinksMove(r, Settle(r, f))
  {
    Relink(f.0, f.1);
    hide ResetLink;
  }

  lemma Relink(a: Home, b: Home)
    requires Paired(a, b)
    ensures var a1, b1 := ResetLink(a, b.serverId), ResetLink(b, a.serverId);
            InStep(a1, b1) && SameQueue(a, a1) && SameQueue(b, b1)
  {
  }

  lemma RowStepLinks(r: Run)
    requires r.i < |r.a.outbound| && Paired(r.a, r.b)
    ensures LinksMove(r, RowStep(r))
  {
    hide ForwardOne, Settle;
    var payload := r.a.outbound[r.i].outer.payload;
    ForwardKeeps(r.a, r.b, payload);
    if InStep(r.a, r.b) { ForwardInStep(r.a, r.b, payload); }
    SettleLinks(r, ForwardOne(r.a, r.b, payload));
  }

  /** Everything one turn does to the queue and the tally. */
  lemma RowStepQueue(r: Run)
    requires r.i < |r.a.outbound|
    ensures var r' := RowStep(r); var row := r.a.outbound[r.i];
            && r.i <= r'.i <= r.i + 1
            && r'.a.outbound[..r'.i] == r.a.outbound[..r.i] + r'.a.outbound[r.i..r'.i]
            && r'.a.outbound[r'.i..] == r.a.outbound[r.i + 1..]
            && Total(r'.stats) == Total(r.stats) + (if row.dest == r.b.serverId then 1 else 0)
            && (r'.i == r.i ==> row.dest == r.b.serverId && (TooOld(row, r.a.now) || row.nextAttempt <= r.a.now))
            && (r'.i > r.i ==>
                  r'.a.outbound[r.i] ==
                  if row.dest == r.b.serverId && row.nextAttempt <= r.a.now then Backed(row, r.a.now) else row)
            && (r'.i > r.i && row.dest == r.b.serverId ==> !TooOld(row, r.a.now))
  {
    hide ForwardOne;
    ForwardKeeps(r.a, r.b, r.a.outbound[r.i].outer.payload);
  }

  lemma {:induction false} RowsLinks(r: Run)
    requires Paired(r.a, r.b)
    ensures LinksMove(r, Rows(r))
    decreases |r.a.outbound| - r.i
  {
    hide RowStep;
    if r.i < |r.a.outbound| {
      RowStepLinks(r);
      RowsLinks(RowStep(r));
    }
  }

  lemma {:induction false} RowsQueue(r: Run)
    requires r.i <= |r.a.outbound| && Paired(r.a, r.b)
    ensures var q := Rows(r);
            && |q.a.outbound| >= r.i && q.a.outbound[..r.i] == r.a.outbound[..r.i]
            && Handled(r.a.outbound[r.i..], q.a.outbound[r.i..], r.b.serverId, r.a.now)
            && Total(q.stats) == Total(r.stats) + |Mine(r.a.outbound[r.i..], r.b.serverId)|
    decreases |r.a.outbound| - r.i
  {
    hide RowStep;
    if r.i < |r.a.outbound| {
      RowStepLinks(r);
      RowStepQueue(r);
      var n := RowStep(r);
      RowsQueue(n);
      var q := Rows(n);
      assert r.a.outbound[r.i..][1..] == r.a.outbound[r.i + 1..];
      HandledOne(r, n, q);
    }
  }

  lemma HandledOne(r: Run, n: Run, q: Run)
    requires r.i < |r.a.outbound| && n == RowStep(r)
    requires n.i <= |q.a.outbound| && q.a.outbound[..n.i] == n.a.outbound[..n.i]
    requires Handled(n.a.outbound[n.i..], q.a.outbound[n.i..], r.b.serverId, r.a.now)
    ensures r.i <= |q.a.outbound| && q.a.outbound[..r.i] == r.a.outbound[..r.i]
    ensures Handled(r.a.outbound[r.i..], q.a.outbound[r.i..], r.b.serverId, r.a.now)
  {
    RowStepQueue(r);
    hide RowStep;
    var rows, kept := r.a.outbound[r.i..], q.a.outbound[r.i..];
    assert rows[0] == r.a.outbound[r.i] && rows[1..] == n.a.outbound[n.i..];
    assert q.a.outbound[..r.i] == q.a.outbound[..n.i][..r.i] == r.a.outbound[..r.i];
    if n.i > r.i {
      assert kept[0] == q.a.outbound[..n.i][r.i] == n.a.outbound[r.i];
      assert kept[1..] == q.a.outbound[n.i..];
    }
  }

  lemma {:induction false} HandledKeepsOthers(rows: seq<OutboundRow>, kept: seq<OutboundRow>, dest: Key, now: nat)
    requires Handled(rows, kept, dest, now)
    ensures Others(kept, dest) == Others(rows, dest)
    ensures |Mine(kept, dest)| <= |Mine(rows, dest)|
    ensures forall row :: row in Mine(kept, dest) ==>
              exists o :: o in Mine(rows, dest) && !TooOld(o, now)
                          && row == if o.nextAttempt > now then o else Backed(o, now)
    decreases |rows|
  {
    if rows != [] {
      if Handled(rows[1..], kept, dest, now) && rows[0].dest == dest {
        HandledKeepsOthers(rows[1..], kept, dest, now);
      } else {
        HandledKeepsOthers(rows[1..], kept[1..], dest, now);
      }
    }
  }

  /**
   The pump, on any two servers that are pinned and do not refuse each other and whose counters are in step:
   it succeeds, stays in step, meets no gap, accounts for every row of that destination exactly once, and leaves
   every other row untouched and in order.
   */
  lemma PumpCorrect(a: Home, b: Home)
    requires InStep(a, b)
    ensures var (q, r) := PumpAll(a, b);
            && r == Ok(q.stats) && InStep(q.a, q.b) && q.gaps == 0
            && Total(q.stats) == |Mine(a.outbound, b.serverId)|
            && Handled(a.outbound, q.a.outbound, b.serverId, a.now)
            && Others(q.a.outbound, b.serverId) == Others(a.outbound, b.serverId)
            && q.b.outbound == b.outbound
  {
    HelloInStep(a, b);
    HelloKeeps(a, b);
    var (a1, b1, _) := EnsureHello(a, b);
    hide EnsureHello;
    var s := Run(a1, b1, 0, NOTHING, 0);
    RowsLinks(s);
    RowsQueue(s);
    RowsOutbound(s);
    var q := Rows(s);
    assert s.a.outbound[0..] == a.outbound && q.a.outbound[0..] == q.a.outbound;
    HandledKeepsOthers(a.outbound, q.a.outbound, b.serverId, a.now);
  }

  lemma {:induction false} RowsOutbound(r: Run)
    ensures Rows(r).b.outbound == r.b.outbound
    decreases |r.a.outbound| - r.i
  {
    if r.i < |r.a.outbound| {
      ForwardKeeps(r.a, r.b, r.a.outbound[r.i].outer.payload);
      assert RowStep(r).b.outbound == r.b.outbound by { hide ForwardOne; }
      hide RowStep;
      RowsOutbound(RowStep(r));
    }
  }

  /** From counters in any state: the tally still adds up, and after any gap the link is back in step. */
  lemma PumpRecovers(a: Home, b: Home)
    requires Paired(a, b) && PumpAll(a, b).1.Ok?
    ensures var (q, r) := PumpAll(a, b);
            && Total(q.stats) == |Mine(a.outbound, b.serverId)|
            && Others(q.a.outbound, b.serverId) == Others(a.outbound, b.serverId)
            && (q.gaps > 0 ==> InStep(q.a, q.b))
  {
    HelloKeeps(a, b);
    var (a1, b1, _) := EnsureHello(a, b);
    hide EnsureHello;
    var s := Run(a1, b1, 0, NOTHING, 0);
    RowsLinks(s);
    RowsQueue(s);
    var q := Rows(s);
    assert s.a.outbound[0..] == a.outbound && q.a.outbound[0..] == q.a.outbound;
    HandledKeepsOthers(a.outbound, q.a.outbound, b.serverId, a.now);
  }

  // ------------------------------------------------------------------ the loop

  method Greet(src: HomeServer, dst: HomeServer) returns (r: Reply<()>)
    requires src != dst && Valid(src.View()) && Valid(dst.View())
    modifies src, dst
    ensures (src.View(), dst.View(), r) == EnsureHello(old(src.View()), old(dst.View()))
    ensures Valid(src.View()) && Valid(dst.View())
  {
    hide Valid, Step, AcceptFrame, TakeFrame;
    var a, b := src.serverId, dst.serverId;
    var aNeeds := b !in src.peers || !src.peers[b].helloDone;
    var bNeeds := a !in dst.peers || !dst.peers[a].helloDone;
    if !aNeeds && !bNeeds { return Ok(()); }
    TakeValid(src.View(), b, Hello(a, b));
    var fa := src.TakeNextFrame(b, Hello(a, b));
    if fa.Err? { return Err(fa.error); }
    TakeValid(dst.View(), a, Hello(b, a));
    var fb := dst.TakeNextFrame(a, Hello(b, a));
    if fb.Err? { return Err(fb.error); }
    AcceptValid(dst.View(), a, fa.value);
    var ra := dst.Accept(a, fa.value);
    if ra.Err? { return Err(ra.error); }
    AcceptValid(src.View(), b, fb.value);
    var rb := src.Accept(b, fb.value);
    if rb.Err? { return Err(rb.error); }
    HelloDoneValid(src.View(), b);
    HelloDoneValid(dst.View(), a);
    if b in src.peers { src.peers := src.peers[b := src.peers[b].(helloDone := true)]; }
    if a in dst.peers { dst.peers := dst.peers[a := dst.peers[a].(helloDone := true)]; }
    return Ok(());
  }

  lemma HelloDoneValid(h: Home, peer: Key)
    requires Valid(h)
    ensures Valid(HelloDone(h, peer))
  {
    hide MailboxesOk, TokensOk, DirectoryOk, PrekeysOk, MembershipsOk;
  }

  lemma TakeValid(h: Home, peer: Key, payload: Payload)
    requires Valid(h)
    ensures Valid(TakeFrame(h, peer, payload).0)
  {
    hide MailboxesOk, TokensOk, DirectoryOk, PrekeysOk, MembershipsOk;
  }

  lemma ResetValid(h: Home, peer: Key, rows: seq<OutboundRow>)
    requires Valid(h)
    ensures Valid(ResetLink(h, peer)) && Valid(SetOutbound(h, rows)) && Valid(SetOutbound(ResetLink(h, peer), rows))
  {
    hide MailboxesOk, TokensOk, DirectoryOk, PrekeysOk, MembershipsOk;
  }

  method Forward(src: HomeServer, dst: HomeServer, payload: Payload) returns (r: Reply<()>)
    requires src != dst && Valid(src.View()) && Valid(dst.View())
    modifies src, dst
    ensures (src.View(), dst.View(), r) == ForwardOne(old(src.View()), old(dst.View()), payload)
    ensures Valid(src.View()) && Valid(dst.View())
  {
    hide Valid, Step, AcceptFrame, TakeFrame;
    var a, b := src.serverId, dst.serverId;
    TakeValid(src.View(), b, payload);
    var f := src.TakeNextFrame(b, payload);
    if f.Err? { return Err(f.error); }
    AcceptValid(dst.View(), a, f.value);
    var reply := dst.Accept(a, f.value);
    if reply.Err? { return Err(reply.error); }
    TakeValid(dst.View(), a, reply.value);
    var back := dst.TakeNextFrame(a, reply.value);
    if back.Err? { return Err(back.error); }
    AcceptValid(src.View(), b, back.value);
    var answer := src.Accept(b, back.value);
    if answer.Err? { return Err(answer.error); }
    return if answer.value == Fail then Err(Denied) else Ok(());
  }

  /** Handle the row at position `i`, editing the queue in place. */
  method PumpRow(src: HomeServer, dst: HomeServer, i: nat, stats: Stats, ghost r: Run)
    returns (j: nat, s: Stats, ghost q: Run)
    requires src != dst && Valid(src.View()) && Valid(dst.View()) && i < |src.outbound|
    requires r.a == src.View() && r.b == dst.View() && r.i == i && r.stats == stats
    modifies src, dst
    ensures q == RowStep(r) && q.a == src.View() && q.b == dst.View() && q.i == j && q.stats == s
    ensures Valid(src.View()) && Valid(dst.View())
  {
    hide Valid, ForwardOne;
    q := RowStep(r);
    var row := src.outbound[i];
    if row.dest != dst.serverId { return i + 1, stats, q; }
    if SatSub(src.now, row.enqueuedAt) > OUTBOUND_MAX_AGE_SECS {
      ResetValid(src.View(), 0, RemoveAt(src.outbound, i));
      src.outbound := src.outbound[..i] + src.outbound[i + 1..];
      src.dirty := src.dirty.(outbound := true);
      return i, stats.(expired := stats.expired + 1), q;
    }
    if row.nextAttempt > src.now { return i + 1, stats.(deferred := stats.deferred + 1), q; }
    ForwardKeeps(r.a, r.b, row.outer.payload);
    var reply := Forward(src, dst, row.outer.payload);
    if reply.Ok? || reply.error == Denied || reply.error == PeerRefused {
      ResetValid(src.View(), 0, RemoveAt(src.outbound, i));
      src.outbound := src.outbound[..i] + src.outbound[i + 1..];
      src.dirty := src.dirty.(outbound := true);
      return i, (if reply.Ok? then stats.(delivered := stats.delivered + 1) else stats.(failed := stats.failed + 1)), q;
    }
    var back := Min(2 * src.outbound[i].backoff, BACKOFF_CAP_SECS);
    var rows := src.outbound[i := src.outbound[i].(backoff := back, nextAttempt := SatAdd(src.now, back))];
    ResetValid(src.View(), dst.serverId, rows);
    ResetValid(dst.View(), src.serverId, []);
    if reply.error == CounterGap {
      src.Reset(dst.serverId);
      dst.Reset(src.serverId);
    }
    src.outbound := rows;
    src.dirty := src.dirty.(outbound := true);
    return i + 1, stats.(failed := stats.failed + 1), q;
  }

  /** Send due rows from one server to the other. */
  method Pump(src: HomeServer, dst: HomeServer) returns (r: Reply<Stats>)
    requires src != dst && Valid(src.View()) && Valid(dst.View())
    modifies src, dst
    ensures Valid(src.View()) && Valid(dst.View())
    ensures var (q, reply) := PumpAll(old(src.View()), old(dst.View()));
            src.View() == q.a && dst.View() == q.b && r == reply
  {
    hide Valid, EnsureHello, RowStep;
    var a, b := src.serverId, dst.serverId;
    if (b in src.peers && src.peers[b].refused) || (a in dst.peers && dst.peers[a].refused) {
      return Err(PeerRefused);
    }
    if b !in src.peers || a !in dst.peers { return Err(NotPinned); }
    var hello := Greet(src, dst);
    if hello.Err? { return Err(hello.error); }
    var i, stats := 0, NOTHING;
    ghost var run := Run(src.View(), dst.View(), 0, NOTHING, 0);
    ghost var start := run;
    while i < |src.outbound|
      invariant Valid(src.View()) && Valid(dst.View())
      invariant run.a == src.View() && run.b == dst.View() && run.i == i && run.stats == stats
      invariant Rows(run) == Rows(start)
      decreases |src.outbound| - i
    {
      i, stats, run := PumpRow(src, dst, i, stats, run);
    }
    return Ok(stats);
  }
}
