/**
 What a delivered row is worth. A row counts as delivered when the exchange ends without an error, but a frame or a
 reply whose counter is behind is answered as a repeat. Here is exactly when delivered means processed.
 */
module Trust {
  import opened Basics
  import opened HomeState
  import opened HomeServers
  import opened Federation
  import opened Pumping

  // The four counters of a link, as both sides have them.
  datatype Counters = Counters(sent: nat, received: nat, replied: nat, heard: nat)

  function CountersOf(a: Home, b: Home): Counters
    requires Paired(a, b)
  {
    Counters(a.peers[b.serverId].nextTx, b.peers[a.serverId].lastRx, b.peers[a.serverId].nextTx, a.peers[b.serverId].lastRx)
  }

  /**
   Neither a frame taken for a repeat whose reply gets through, nor a fresh frame whose reply is taken for a repeat.
   Both servers can tell from their counters before the exchange.
   */
  predicate Trusted(c: Counters) {
    && !(c.sent <= c.received && c.replied <= c.heard + 1)
    && !(c.sent == c.received + 1 && c.replied <= c.heard)
  }

  /** What the receiver says to the next frame. */
  ghost function ReplyTo(a: Home, b: Home, payload: Payload): Reply<Payload>
    requires Paired(a, b)
  {
    AcceptFrame(b, a.serverId, Frame(a.peers[b.serverId].nextTx, payload)).1
  }

  /** The receiver acted on this frame and answered with a sequence number. */
  ghost predicate Processed(a: Home, b: Home, payload: Payload)
    requires Paired(a, b)
  {
    var c := CountersOf(a, b);
    c.sent == c.received + 1 && ReplyTo(a, b, payload).Ok? && ReplyTo(a, b, payload).value.OkSeq?
  }

  // ------------------------------------------------------------------ one exchange

  lemma AcceptStale(h: Home, from: Key, frame: Frame)
    requires from in h.peers && !h.peers[from].refused && frame.counter <= h.peers[from].lastRx
    ensures AcceptFrame(h, from, frame) == (h, Ok(OkSeq(0)))
  {
  }

  lemma AcceptGap(h: Home, from: Key, frame: Frame)
    requires from in h.peers && !h.peers[from].refused && frame.counter > h.peers[from].lastRx + 1
    ensures AcceptFrame(h, from, frame) == (h, Err(CounterGap))
  {
  }

  /** Where one accepted, repeated or refused frame leaves the receive counter. */
  lemma AcceptCounts(h: Home, from: Key, frame: Frame)
    requires from in h.peers && !h.peers[from].refused
    ensures var (h1, r) := AcceptFrame(h, from, frame); var rx := h.peers[from].lastRx;
            && from in h1.peers && h1.serverId == h.serverId && !h1.peers[from].refused
            && h1.peers[from].nextTx == h.peers[from].nextTx
            && h1.peers[from].lastRx == (if frame.counter == rx + 1 then rx + 1 else rx)
            && (r == Err(CounterGap) <==> frame.counter > rx + 1)
            && (frame.counter <= rx ==> h1 == h && r == Ok(OkSeq(0)))
  {
    if frame.counter <= h.peers[from].lastRx {
      AcceptStale(h, from, frame);
    } else if frame.counter == h.peers[from].lastRx + 1 {
      AcceptInStep(h, from, frame);
    } else {
      AcceptGap(h, from, frame);
    }
    hide AcceptFrame;
  }

  /** The outcome of an exchange, in terms of the counters and of what the receiver says. */
  ghost predicate Outcome(c: Counters, reply: Reply<Payload>, r: Reply<()>) {
    if c.sent > c.received + 1 then r == Err(CounterGap)
    else if reply.Err? then r.Err? && r != Err(CounterGap)
    else if c.replied > c.heard + 1 then r == Err(CounterGap)
    else if c.replied <= c.heard then r == Ok(())
    else r == if reply.value.OkSeq? then Ok(()) else Err(Denied)
  }

  /** Where an exchange that met no gap leaves the counters. */
  function Advance(c: Counters, answered: bool): Counters {
    Counters(c.sent + 1, if c.sent == c.received + 1 then c.sent else c.received,
             if answered then c.replied + 1 else c.replied,
             if answered && c.replied == c.heard + 1 then c.replied else c.heard)
  }

  lemma ForwardOutcome(a: Home, b: Home, payload: Payload)
    requires Paired(a, b)
    ensures var (a1, b1, r) := ForwardOne(a, b, payload); var c := CountersOf(a, b); var reply := ReplyTo(a, b, payload);
            && Paired(a1, b1) && a1.serverId == a.serverId && b1.serverId == b.serverId
            && Outcome(c, reply, r)
            && (r != Err(CounterGap) ==> CountersOf(a1, b1) == Advance(c, reply.Ok?))
            && (c.sent <= c.received ==> reply == Ok(OkSeq(0)))
  {
    hide TakeFrame, AcceptFrame;
    ForwardKeeps(a, b, payload);
    TakeInStep(a, b.serverId, payload);
    var (a1, f) := TakeFrame(a, b.serverId, payload);
    AcceptCounts(b, a.serverId, f.value);
    var (b1, reply) := AcceptFrame(b, a.serverId, f.value);
    ReplyKinds(a, b, payload);
    if reply.Ok? {
      TakeInStep(b1, a.serverId, reply.value);
      var (b2, back) := TakeFrame(b1, a.serverId, reply.value);
      AcceptCounts(a1, b.serverId, back.value);
      if back.value.counter == a1.peers[b.serverId].lastRx + 1 { AcceptInStep(a1, b.serverId, back.value); }
    }
  }

  /** The receiver never reports a gap for a frame that is due, and only answers in three ways. */
  lemma ReplyKinds(a: Home, b: Home, payload: Payload)
    requires Paired(a, b)
    ensures var c, reply := CountersOf(a, b), ReplyTo(a, b, payload);
            && (c.sent <= c.received + 1 ==> reply != Err(CounterGap))
            && (reply.Ok? ==> reply.value.OkSeq? || reply.value.Fail? || reply.value == Ciphertext(None, None))
  {
    var f := Frame(a.peers[b.serverId].nextTx, payload);
    if f.counter == b.peers[a.serverId].lastRx + 1 { AcceptInStep(b, a.serverId, f); }
    AcceptCounts(b, a.serverId, f);
    hide AcceptFrame;
  }

  /**
   Delivered means processed. On any two servers that are pinned and do not refuse each other: every payload that the
   exchange reports as delivered was processed by the receiver and answered with a sequence number, exactly when the
   counters are trusted.
   */
  lemma DeliveredMeansProcessed(a: Home, b: Home)
    requires Paired(a, b)
    ensures (forall payload :: ForwardOne(a, b, payload).2.Ok? ==> Processed(a, b, payload)) <==> Trusted(CountersOf(a, b))
  {
    hide ForwardOne, ReplyTo;
    if Trusted(CountersOf(a, b)) {
      forall payload | ForwardOne(a, b, payload).2.Ok? ensures Processed(a, b, payload) { ForwardOutcome(a, b, payload); }
    } else {
      var c := CountersOf(a, b);
      var nothing := Ciphertext(None, None);
      if c.sent <= c.received { StaleFrameIsLost(a, b, nothing); } else { StaleReplyIsBelieved(a, b); }
      assert ForwardOne(a, b, nothing).2.Ok? && !Processed(a, b, nothing);
    }
  }

  /** A frame behind the receiver's counter, whose reply is not ahead: reported delivered, and no mailbox ever sees it. */
  lemma StaleFrameIsLost(a: Home, b: Home, payload: Payload)
    requires Paired(a, b) && CountersOf(a, b).sent <= CountersOf(a, b).received && CountersOf(a, b).replied <= CountersOf(a, b).heard + 1
    ensures var (a1, b1, r) := ForwardOne(a, b, payload); r == Ok(()) && b1.mailboxes == b.mailboxes
    ensures !Processed(a, b, payload)
  {
    ForwardOutcome(a, b, payload);
    TakeInStep(a, b.serverId, payload);
    AcceptStale(b, a.serverId, Frame(a.peers[b.serverId].nextTx, payload));
    TakeKeepsMail(b, a.serverId, OkSeq(0));
    hide TakeFrame, AcceptFrame;
  }

  lemma TakeKeepsMail(h: Home, peer: Key, payload: Payload)
    ensures TakeFrame(h, peer, payload).0.mailboxes == h.mailboxes
  {
  }

  /** A frame that is due, whose reply is behind the sender's counter: the refusal is taken for a repeated success. */
  lemma StaleReplyIsBelieved(a: Home, b: Home)
    requires Paired(a, b) && CountersOf(a, b).sent == CountersOf(a, b).received + 1 && CountersOf(a, b).replied <= CountersOf(a, b).heard
    ensures ReplyTo(a, b, Ciphertext(None, None)) == Ok(Fail)
    ensures ForwardOne(a, b, Ciphertext(None, None)).2 == Ok(())
    ensures !Processed(a, b, Ciphertext(None, None))
  {
    AcceptInStep(b, a.serverId, Frame(a.peers[b.serverId].nextTx, Ciphertext(None, None)));
    hide AcceptFrame;
    ForwardOutcome(a, b, Ciphertext(None, None));
    hide ForwardOne;
  }

  // ---------------------------------------------------------------------- the pump

  /** The row at the pump's position is forwarded in this turn. */
  predicate Forwards(r: Run)
    requires r.i < |r.a.outbound|
  {
    var row := r.a.outbound[r.i];
    row.dest == r.b.serverId && !TooOld(row, r.a.now) && row.nextAttempt <= r.a.now
  }

  /** Rows counted as delivered that the receiver processed, from here to the end of the queue. */
  ghost function Genuine(r: Run): nat
    requires Paired(r.a, r.b)
    decreases |r.a.outbound| - r.i
  {
    if r.i >= |r.a.outbound| then 0
    else
      RowStepLinks(r);
      var payload := r.a.outbound[r.i].outer.payload;
      (if Forwards(r) && ForwardOne(r.a, r.b, payload).2.Ok? && Processed(r.a, r.b, payload) then 1 else 0)
      + Genuine(RowStep(r))
  }

  /** One turn counts a delivery exactly when the exchange succeeded, and trust is kept. */
  lemma TurnCounts(r: Run)
    requires r.i < |r.a.outbound| && Paired(r.a, r.b)
    ensures var r' := RowStep(r); var payload := r.a.outbound[r.i].outer.payload;
            && r'.stats.delivered == r.stats.delivered
                                     + (if Forwards(r) && ForwardOne(r.a, r.b, payload).2.Ok? then 1 else 0)
  {
    hide ForwardOne;
    ForwardKeeps(r.a, r.b, r.a.outbound[r.i].outer.payload);
  }

  lemma TurnKeepsTrust(r: Run)
    requires r.i < |r.a.outbound| && Paired(r.a, r.b) && Trusted(CountersOf(r.a, r.b))
    ensures Paired(RowStep(r).a, RowStep(r).b) && Trusted(CountersOf(RowStep(r).a, RowStep(r).b))
  {
    RowStepLinks(r);
    TurnCounters(r);
    if Forwards(r) { ForwardOutcome(r.a, r.b, r.a.outbound[r.i].outer.payload); }
    hide RowStep, ReplyTo, ForwardOne;
  }

  /** A turn leaves the counters where its exchange left them, unless it met a gap. */
  lemma TurnCounters(r: Run)
    requires r.i < |r.a.outbound| && Paired(r.a, r.b)
    ensures var r', f := RowStep(r), ForwardOne(r.a, r.b, r.a.outbound[r.i].outer.payload);
            && Paired(r'.a, r'.b) && Paired(f.0, f.1)
            && (!Forwards(r) ==> CountersOf(r'.a, r'.b) == CountersOf(r.a, r.b))
            && (Forwards(r) && f.2 == Err(CounterGap) ==> r'.gaps > r.gaps)
            && (Forwards(r) && f.2 != Err(CounterGap) ==> CountersOf(r'.a, r'.b) == CountersOf(f.0, f.1))
  {
    RowStepLinks(r);
    hide ForwardOne, ResetLink;
    ForwardKeeps(r.a, r.b, r.a.outbound[r.i].outer.payload);
    if Forwards(r) { SettleCounters(r, ForwardOne(r.a, r.b, r.a.outbound[r.i].outer.payload)); }
    hide Settle;
  }

  lemma SettleCounters(r: Run, f: (Home, Home, Reply<()>))
    requires r.i < |r.a.outbound| && f.0.outbound == r.a.outbound
    ensures var q := Settle(r, f);
            if f.2 == Err(CounterGap) then q.gaps == r.gaps + 1
            else q.a.peers == f.0.peers && q.a.serverId == f.0.serverId && q.b == f.1
  {
  }

  lemma {:induction false} RowsTrust(r: Run)
    requires Paired(r.a, r.b)
    ensures Rows(r).stats.delivered >= r.stats.delivered + Genuine(r)
    ensures Trusted(CountersOf(r.a, r.b)) ==> Rows(r).stats.delivered == r.stats.delivered + Genuine(r)
    decreases |r.a.outbound| - r.i
  {
    if r.i < |r.a.outbound| {
      RowStepLinks(r);
      TurnCounts(r);
      if Trusted(CountersOf(r.a, r.b)) {
        TurnKeepsTrust(r);
        DeliveredMeansProcessed(r.a, r.b);
      }
      hide RowStep, ForwardOne, Processed, Trusted;
      RowsTrust(RowStep(r));
    }
  }

  /** The pump after its hello, with a queue of the caller's choice. */
  ghost function Start(a: Home, b: Home, queue: seq<OutboundRow>): Run {
    Run(a.(outbound := queue), b, 0, NOTHING, 0)
  }

  lemma StartPaired(a: Home, b: Home, queue: seq<OutboundRow>)
    requires Paired(a, b)
    ensures var s := Start(a, b, queue); Paired(s.a, s.b) && CountersOf(s.a, s.b) == CountersOf(a, b)
  {
  }

  /**
   The delivered count of the loop, for every queue: it is the number of rows the receiver processed, exactly when
   the counters the loop starts with are trusted; otherwise a queue of one row already miscounts.
   */
  lemma DeliveredCountIsExact(a: Home, b: Home)
    requires Paired(a, b)
    ensures (forall queue :: Paired(Start(a, b, queue).a, Start(a, b, queue).b)
                             && Rows(Start(a, b, queue)).stats.delivered == Genuine(Start(a, b, queue)))
            <==> Trusted(CountersOf(a, b))
  {
    if Trusted(CountersOf(a, b)) {
      forall queue
        ensures Paired(Start(a, b, queue).a, Start(a, b, queue).b)
        ensures Rows(Start(a, b, queue)).stats.delivered == Genuine(Start(a, b, queue))
      {
        StartPaired(a, b, queue);
        RowsTrust(Start(a, b, queue));
      }
    } else {
      var nothing := Ciphertext(None, None);
      var row := OutboundRow(b.serverId, Outer(b.serverId, nothing, None, None), a.now, a.now, 1);
      StartPaired(a, b, [row]);
      OneRowMiscounts(a, b, row);
    }
  }

  lemma OneRowMiscounts(a: Home, b: Home, row: OutboundRow)
    requires Paired(a, b) && !Trusted(CountersOf(a, b))
    requires row == OutboundRow(b.serverId, Outer(b.serverId, Ciphertext(None, None), None, None), a.now, a.now, 1)
    ensures var s := Start(a, b, [row]);
            Paired(s.a, s.b) && Rows(s).stats.delivered == 1 && Genuine(s) == 0
  {
    var s := Start(a, b, [row]);
    var nothing := Ciphertext(None, None);
    StartPaired(a, b, [row]);
    var c := CountersOf(s.a, s.b);
    if c.sent <= c.received { StaleFrameIsLost(s.a, s.b, nothing); } else { StaleReplyIsBelieved(s.a, s.b); }
    RowStepLinks(s);
    TurnCounts(s);
    RowStepQueue(s);
    hide ForwardOne, Processed, RowStep;
    var t := RowStep(s);
    assert Forwards(s) && s.a.outbound[0] == row;
    assert t.stats.delivered == 1;
    DeliveredRemoves(s);
    assert t.i >= |t.a.outbound|;
    assert Rows(t) == t && Genuine(t) == 0;
  }

  lemma DeliveredRemoves(r: Run)
    requires r.i < |r.a.outbound| && Forwards(r) && ForwardOne(r.a, r.b, r.a.outbound[r.i].outer.payload).2.Ok?
    ensures RowStep(r).i == r.i && |RowStep(r).a.outbound| == |r.a.outbound| - 1
  {
    hide ForwardOne;
    ForwardKeeps(r.a, r.b, r.a.outbound[r.i].outer.payload);
  }

  // ------------------------------------------------------------------ with the hello

  /** What a caller can check before a pump: the counters, one step short on either side if hellos are due. */
  predicate CallerTrusts(a: Home, b: Home)
    requires Paired(a, b)
  {
    var c := CountersOf(a, b);
    if NeedsHello(a, b.serverId) || NeedsHello(b, a.serverId) then c.received <= c.sent && c.heard <= c.replied
    else Trusted(c)
  }

  /** The hello exchange moves each pair of counters by one, so it can mend a pair that is one step behind. */
  lemma HelloTrust(a: Home, b: Home)
    requires Paired(a, b) && EnsureHello(a, b).2.Ok?
    ensures var (a1, b1, _) := EnsureHello(a, b);
            Paired(a1, b1) && a1.serverId == a.serverId && b1.serverId == b.serverId
            && (Trusted(CountersOf(a1, b1)) <==> CallerTrusts(a, b))
  {
    hide TakeFrame, AcceptFrame;
    HelloKeeps(a, b);
    TakeInStep(a, b.serverId, Hello(a.serverId, b.serverId));
    TakeInStep(b, a.serverId, Hello(b.serverId, a.serverId));
    var (a1, fa) := TakeFrame(a, b.serverId, Hello(a.serverId, b.serverId));
    var (b1, fb) := TakeFrame(b, a.serverId, Hello(b.serverId, a.serverId));
    AcceptCounts(b1, a.serverId, fa.value);
    AcceptCounts(a1, b.serverId, fb.value);
  }

  lemma TakeIgnoresQueue(h: Home, peer: Key, payload: Payload, queue: seq<OutboundRow>)
    ensures TakeFrame(h.(outbound := queue), peer, payload)
            == (TakeFrame(h, peer, payload).0.(outbound := queue), TakeFrame(h, peer, payload).1)
  {
  }

  lemma HelloFrameIgnoresQueue(h: Home, from: Key, frame: Frame, queue: seq<OutboundRow>)
    requires frame.payload.Hello?
    ensures AcceptFrame(h.(outbound := queue), from, frame)
            == (AcceptFrame(h, from, frame).0.(outbound := queue), AcceptFrame(h, from, frame).1)
  {
    hide HandleCiphertext, MarkPeer;
    if from in h.peers { MarkIgnoresQueue(h, from, h.peers[from].(lastRx := frame.counter), queue); }
  }

  lemma MarkIgnoresQueue(h: Home, id: Key, p: Peer, queue: seq<OutboundRow>)
    ensures MarkPeer(h.(outbound := queue), id, p) == MarkPeer(h, id, p).(outbound := queue)
  {
  }

  lemma HelloIgnoresQueue(a: Home, b: Home, queue: seq<OutboundRow>)
    ensures var (a1, b1, r) := EnsureHello(a, b); EnsureHello(a.(outbound := queue), b) == (a1.(outbound := queue), b1, r)
  {
    hide TakeFrame, AcceptFrame;
    TakeKinds(a, b.serverId, Hello(a.serverId, b.serverId));
    TakeKinds(b, a.serverId, Hello(b.serverId, a.serverId));
    TakeIgnoresQueue(a, b.serverId, Hello(a.serverId, b.serverId), queue);
    var (a1, fa) := TakeFrame(a, b.serverId, Hello(a.serverId, b.serverId));
    var (b1, fb) := TakeFrame(b, a.serverId, Hello(b.serverId, a.serverId));
    if fa.Ok? && fb.Ok? { HelloFrameIgnoresQueue(a1, b.serverId, fb.value, queue); }
  }

  lemma TakeKinds(h: Home, peer: Key, payload: Payload)
    ensures TakeFrame(h, peer, payload).1.Ok? ==> TakeFrame(h, peer, payload).1.value.payload == payload
  {
  }

  /**
   The pump's delivered count, for every queue of the sender: it is the number of rows the receiver processed,
   exactly when the caller could trust the counters before the call. In step they always can be trusted.
   */
  lemma PumpCountIsExact(a: Home, b: Home)
    requires Paired(a, b) && EnsureHello(a, b).2.Ok?
    ensures var (a1, b1, _) := EnsureHello(a, b);
            && Paired(a1, b1)
            && (forall queue :: PumpAll(a.(outbound := queue), b) == (Rows(Start(a1, b1, queue)), Ok(Rows(Start(a1, b1, queue)).stats)))
            && ((forall queue :: Paired(Start(a1, b1, queue).a, Start(a1, b1, queue).b)
                                 && Rows(Start(a1, b1, queue)).stats.delivered == Genuine(Start(a1, b1, queue)))
                <==> CallerTrusts(a, b))
    ensures InStep(a, b) ==> CallerTrusts(a, b)
  {
    var (a1, b1, _) := EnsureHello(a, b);
    HelloTrust(a, b);
    forall queue ensures PumpAll(a.(outbound := queue), b) == (Rows(Start(a1, b1, queue)), Ok(Rows(Start(a1, b1, queue)).stats)) {
      HelloIgnoresQueue(a, b, queue);
      PumpOf(a, b, queue);
    }
    hide EnsureHello, PumpAll, Rows, Genuine, Start, Trusted;
    DeliveredCountIsExact(a1, b1);
  }

  lemma PumpOf(a: Home, b: Home, queue: seq<OutboundRow>)
    requires Paired(a, b) && EnsureHello(a, b).2.Ok?
    requires var (a1, b1, r) := EnsureHello(a, b); EnsureHello(a.(outbound := queue), b) == (a1.(outbound := queue), b1, r)
    ensures var (a1, b1, _) := EnsureHello(a, b);
            PumpAll(a.(outbound := queue), b) == (Rows(Start(a1, b1, queue)), Ok(Rows(Start(a1, b1, queue)).stats))
  {
    hide EnsureHello, Rows;
  }
}
