/** Server-to-server links: frame counters, in-order exactly-once processing over a lossy network, and the back-off. */
module Federation {
  import opened Basics
  import opened HomeState
  import opened HomeRun

  const OUTBOUND_MAX_AGE_SECS: nat := 14 * 24 * 3600

  // ------------------------------------------------------- what frames change

  /** Everything a link relies on stays put while a frame is handled, except the counter that moves. */
  ghost predicate SameLinks(h: Home, h': Home) {
    SameQueue(h, h') && SamePeers(h.peers, h'.peers)
  }

  predicate SameQueue(h: Home, h': Home) {
    h'.serverId == h.serverId && h'.now == h.now && h'.outbound == h.outbound
  }

  ghost predicate SamePeers(a: map<Key, Peer>, b: map<Key, Peer>) {
    b.Keys == a.Keys && forall p :: p in a ==> SameLink(a[p], b[p])
  }

  predicate SameLink(p: Peer, q: Peer) {
    q.refused == p.refused && q.nextTx == p.nextTx && q.lastRx == p.lastRx && q.helloDone == p.helloDone
  }

  lemma AuthorizeFrame(h: Home, token: Key)
    ensures var h1 := AuthorizeAppend(h, token).0; SameQueue(h, h1) && h1.peers == h.peers
  {
  }

  lemma AppendFrame(h: Home, inner: Inner)
    ensures var h1 := AppendInner(h, inner).0; SameQueue(h, h1) && h1.peers == h.peers
  {
    hide AuthorizeAppend, Store, BurnIfShare, Gc;
    AuthorizeFrame(h, inner.capability);
    var (h1, r) := AuthorizeAppend(h, inner.capability);
    if r.Ok? && r.value in h1.mailboxes && PaddedLen(inner).Some? {
      StoreFrame(h1, r.value, inner, PaddedLen(inner).value);
      var h2 := Store(h1, r.value, inner, PaddedLen(inner).value);
      BurnFrame(h2, inner.capability);
      GcFrame(BurnIfShare(h2, inner.capability), r.value);
    }
  }

  lemma StoreFrame(h: Home, owner: Key, inner: Inner, size: nat)
    requires owner in h.mailboxes
    ensures var h1 := Store(h, owner, inner, size); SameQueue(h, h1) && h1.peers == h.peers
  {
  }

  lemma BurnFrame(h: Home, token: Key)
    ensures var h1 := BurnIfShare(h, token); SameQueue(h, h1) && h1.peers == h.peers
  {
  }

  lemma GcFrame(h: Home, owner: Key)
    ensures var h1 := Gc(h, owner); SameQueue(h, h1) && h1.peers == h.peers
  {
    hide Retained, Trim, Keyed;
  }

  lemma IngestFrame(h: Home, enc: Option<Key>, plain: Option<Inner>)
    ensures var h1 := Ingest(h, enc, plain).0; SameQueue(h, h1) && h1.peers == h.peers
  {
    hide AppendInner;
    if plain.Some? { AppendFrame(h, plain.value); }
  }

  lemma SetPeer(peers: map<Key, Peer>, id: Key, q: Peer)
    requires id in peers && SameLink(peers[id], q)
    ensures SamePeers(peers, peers[id := q])
  {
  }

  lemma HandleQueue(h: Home, from: Key, enc: Option<Key>, plain: Option<Inner>)
    requires from in h.peers
    ensures SameQueue(h, HandleCiphertext(h, from, enc, plain).0)
  {
    hide Ingest;
    IngestFrame(h.(peers := h.peers[from := Windowed(h.peers[from], h.now)]), enc, plain);
  }

  lemma HandlePeers(h: Home, from: Key, enc: Option<Key>, plain: Option<Inner>) returns (p: Peer)
    requires from in h.peers
    ensures SameLink(h.peers[from], p) && HandleCiphertext(h, from, enc, plain).0.peers == h.peers[from := p]
  {
    p := h.peers[from];
    assert h.peers == h.peers[from := p];
    if enc.Some? {
      p := Windowed(h.peers[from], h.now);
      var h1 := h.(peers := h.peers[from := p]);
      IngestFrame(h1, enc, plain);
      var r := Ingest(h1, enc, plain).1;
      if p.windowOk < PEER_RATE_PER_SEC && enc.value !in p.seen && r.Ok? {
        var q := Noted(p, enc.value, r.value);
        assert h1.peers[from := q] == h.peers[from := q];
        p := q;
      }
      hide Ingest, Windowed, Noted;
    }
  }

  lemma HandleFrame(h: Home, from: Key, enc: Option<Key>, plain: Option<Inner>)
    requires from in h.peers
    ensures SameLinks(h, HandleCiphertext(h, from, enc, plain).0)
  {
    hide HandleCiphertext;
    HandleQueue(h, from, enc, plain);
    var p := HandlePeers(h, from, enc, plain);
    SetPeer(h.peers, from, p);
  }

  /** A frame with the next counter moves the receive counter by one, whatever becomes of its payload. */
  lemma AcceptMoves(h: Home, from: Key, frame: Frame)
    requires from in h.peers && !h.peers[from].refused && frame.counter == h.peers[from].lastRx + 1
    ensures SameLinks(h.(peers := h.peers[from := h.peers[from].(lastRx := frame.counter)]), AcceptFrame(h, from, frame).0)
    ensures AcceptFrame(h, from, frame).1 != Err(CounterGap)
    ensures AcceptFrame(h, from, frame).1 != Err(PeerRefused)
  {
    hide HandleCiphertext;
    if frame.payload.Ciphertext? {
      HandleFrame(MarkPeer(h, from, h.peers[from].(lastRx := frame.counter)), from, frame.payload.enc, frame.payload.plain);
    }
  }

  /** Any other frame changes nothing at all. */
  lemma AcceptRefuses(h: Home, from: Key, frame: Frame)
    requires from !in h.peers || h.peers[from].refused || frame.counter != h.peers[from].lastRx + 1
    ensures AcceptFrame(h, from, frame).0 == h
  {
  }

  /** Framing for a peer: refused unless it is pinned and not refused; otherwise the next number goes to this frame. */
  lemma TakeExactly(h: Home, peer: Key, payload: Payload)
    ensures var (h', r) := TakeFrame(h, peer, payload);
            if peer !in h.peers then h' == h && r == Err(NotPinned)
            else if h.peers[peer].refused then h' == h && r == Err(PeerRefused)
            else && r == Ok(Frame(h.peers[peer].nextTx, payload)) && SameQueue(h, h') && h'.mailboxes == h.mailboxes
                 && h'.peers == h.peers[peer := h.peers[peer].(nextTx := h.peers[peer].nextTx + 1)]
  {
  }

  /** The next frame, if it holds no ciphertext: the counter moves, nothing else, and the answer is by what it holds. */
  lemma FrameAnswers(h: Home, from: Key, frame: Frame)
    requires from in h.peers && !h.peers[from].refused && frame.counter == h.peers[from].lastRx + 1 && !frame.payload.Ciphertext?
    ensures var (h', r) := AcceptFrame(h, from, frame);
            && SameQueue(h, h') && h'.mailboxes == h.mailboxes && h'.tokens == h.tokens
            && h'.peers == h.peers[from := h.peers[from].(lastRx := frame.counter)]
            && r == match frame.payload
                    case Malformed => Err(Wire)
                    case Hello(sender, receiver) =>
                      if sender == from && receiver == h.serverId then Ok(Ciphertext(None, None)) else Err(HelloMismatch)
                    case reply => Ok(reply)
  {
  }

  /** A link that is reset starts over: both counters, and the hello is to be said again. */
  lemma ResetExactly(h: Home, id: Key)
    ensures var h' := ResetLink(h, id);
            && SameQueue(h, h') && h'.mailboxes == h.mailboxes && h'.peers.Keys == h.peers.Keys
            && (forall p :: p in h.peers && p != id ==> h'.peers[p] == h.peers[p])
            && (id in h.peers ==> var q, q' := h.peers[id], h'.peers[id];
                                  q'.lastRx == 0 && q'.nextTx == 1 && !q'.helloDone && q'.bundle == q.bundle && q'.refused == q.refused)
  {
  }

  // --------------------------------------------------------- lossy, reordering

  // One direction of a link between resets: the receiver's record of its peer, what the sender framed, what the
  // receiver processed, and every frame the network may still deliver, in any order, any number of times.
  datatype Link = Link(
    sender: Home, receiver: Home, a: Key, b: Key,
    framed: seq<Payload>, processed: seq<Payload>, network: set<Frame>)

  datatype LinkEvent =
    | Send(payload: Payload)
    | Deliver(frame: Frame)
    | Lose(frame: Frame)
    | AtSender(op: Op)
    | AtReceiver(op: Op)

  /** The op neither frames anything for `peer` nor resets the link to it. */
  predicate SparesSending(op: Op, peer: Key) {
    op != OpResetLink(peer) && !(op.OpTakeFrame? && op.peer == peer)
  }

  /** The op neither accepts a frame from `peer` nor resets the link to it. */
  predicate SparesReceiving(op: Op, peer: Key) {
    op != OpResetLink(peer) && !(op.OpAcceptFrame? && op.peer == peer)
  }

  ghost predicate LinkNext(k: Link, e: LinkEvent, k': Link) {
    match e
    case Send(payload) =>
      var (h, r) := TakeFrame(k.sender, k.b, payload);
      k' == if r.Ok? then k.(sender := h, framed := k.framed + [payload], network := k.network + {r.value})
            else k.(sender := h)
    case Deliver(frame) =>
      && frame in k.network
      && k' == k.(receiver := AcceptFrame(k.receiver, k.a, frame).0,
                  processed := if Processes(k.receiver, k.a, frame) then k.processed + [frame.payload] else k.processed)
    case Lose(frame) => k' == k.(network := k.network - {frame})
    case AtSender(op) => SparesSending(op, k.b) && k' == k.(sender := Step(k.sender, op))
    case AtReceiver(op) => SparesReceiving(op, k.a) && k' == k.(receiver := Step(k.receiver, op))
  }

  /** The receiver acts on the payload (rather than answering a duplicate or refusing). */
  predicate Processes(h: Home, from: Key, frame: Frame) {
    from in h.peers && !h.peers[from].refused && frame.counter == h.peers[from].lastRx + 1
  }

  ghost predicate LinkOk(k: Link, base: nat) {
    && k.b in k.sender.peers && k.a in k.receiver.peers
    && k.sender.peers[k.b].nextTx == base + 1 + |k.framed|
    && k.receiver.peers[k.a].lastRx == base + |k.processed|
    && k.processed <= k.framed
    && forall f :: f in k.network ==> base < f.counter <= base + |k.framed| && f.payload == k.framed[f.counter - base - 1]
  }

  predicate IsPeerOp(op: Op) {
    op.OpPin? || op.OpRefuse? || op.OpRotateSign? || op.OpResetLink? || op.OpTakeFrame? || op.OpAcceptFrame?
    || op.OpHelloDone?
  }

  lemma DisableKeepsPeers(h: Home, id: Key)
    ensures Disable(h, id).peers == h.peers
  {
    hide WithoutOwner, Trim;
  }

  lemma IdentityOpsKeepPeers(h: Home, op: Op)
    requires op.OpTick? || op.OpRegister? || op.OpRegisterCard? || op.OpObserveBinding? || op.OpNoteMembership?
             || op.OpRevoke?
    ensures Step(h, op).peers == h.peers
  {
    hide Register, RegisterFromCard, NoteMembership, ObserveBinding, IngestRevocation;
    hide AcceptFrame, RegisterShare, MintContact, RotateContact, PublishPrekey, FetchPrekey, SweepFor, Sweep;
    hide Ingest, AppendInner, Gc, Ack, Enqueue, DeferOutbound, SetOutbound, Pin, Refuse, RotateSign, ResetLink, TakeFrame;
    match op
    case OpRegister(id, pk) => RegistersKeepPeers(h, id, pk, 0);
    case OpNoteMembership(id, g) => RegistersKeepPeers(h, id, 0, g);
    case OpRegisterCard(card, v) => CardKeepsPeers(h, card, v);
    case OpObserveBinding(id, binding, v) => ObserveKeepsPeers(h, id, binding, v);
    case OpRevoke(id, stmt, v) => RevokeKeepsPeers(h, id, stmt, v);
    case _ =>
  }

  lemma RegistersKeepPeers(h: Home, id: Key, pk: Key, group: Key)
    ensures Register(h, id, pk).0.peers == h.peers && NoteMembership(h, id, group).peers == h.peers
  {
  }

  lemma CardKeepsPeers(h: Home, card: Card, verified: bool)
    ensures RegisterFromCard(h, card, verified).0.peers == h.peers
  {
  }

  lemma ObserveKeepsPeers(h: Home, id: Key, binding: Binding, verified: bool)
    ensures ObserveBinding(h, id, binding, verified).0.peers == h.peers
  {
    forall h1 ensures Disable(h1, id).peers == h1.peers { DisableKeepsPeers(h1, id); }
    hide Disable;
  }

  lemma RevokeKeepsPeers(h: Home, id: Key, stmt: Blob, verified: bool)
    ensures IngestRevocation(h, id, stmt, verified).0.peers == h.peers
  {
    forall h1 ensures Disable(h1, id).peers == h1.peers { DisableKeepsPeers(h1, id); }
    hide Disable;
  }

  lemma TokenOpsKeepPeers(h: Home, op: Op)
    requires op.OpRegisterShare? || op.OpMintContact? || op.OpRotateContact? || op.OpPublishPrekey?
             || op.OpFetchPrekey? || op.OpSweepFor? || op.OpSweep?
    ensures Step(h, op).peers == h.peers
  {
    hide Step;
    if op.OpRegisterShare? || op.OpMintContact? || op.OpRotateContact? {
      MintOpsKeepPeers(h, op);
    } else {
      PrekeyOpsKeepPeers(h, op);
    }
  }

  lemma MintOpsKeepPeers(h: Home, op: Op)
    requires op.OpRegisterShare? || op.OpMintContact? || op.OpRotateContact?
    ensures Step(h, op).peers == h.peers
  {
    hide RotateContact, DeadFor, Without;
    match op
    case OpRotateContact(o, a, c, t) => RotateKeepsPeers(h, o, a, c, t);
    case _ =>
  }

  lemma RotateKeepsPeers(h: Home, owner: Key, oldToken: Key, confirm: bool, token: Key)
    ensures RotateContact(h, owner, oldToken, confirm, token).0.peers == h.peers
  {
    hide DeadFor, Without, LastIndex, SetKind;
  }

  lemma PrekeyOpsKeepPeers(h: Home, op: Op)
    requires op.OpPublishPrekey? || op.OpFetchPrekey? || op.OpSweepFor? || op.OpSweep?
    ensures Step(h, op).peers == h.peers
  {
    hide DeadFor, DeadTokens, Without, LastIndex, ShareUsable, SetKind;
  }

  lemma MailOpsKeepPeers(h: Home, op: Op)
    requires op.OpIngest? || op.OpAppend? || op.OpFetch? || op.OpAck? || op.OpEnqueue? || op.OpDeferOutbound?
             || op.OpEditOutbound?
    ensures Step(h, op).peers == h.peers
  {
    hide Ingest, AppendInner, Gc, Ack, Enqueue, DeferOutbound, AcceptFrame;
    hide Register, RegisterFromCard, ObserveBinding, NoteMembership, IngestRevocation, Pin, Refuse, RotateSign, ResetLink, TakeFrame;
    hide RegisterShare, MintContact, RotateContact, PublishPrekey, FetchPrekey, SweepFor, Sweep;
    match op
    case OpIngest(enc, plain) => IngestFrame(h, enc, plain);
    case OpEnqueue(outer) => EnqueueKeepsPeers(h, outer);
    case OpAppend(inner) => AppendFrame(h, inner);
    case OpFetch(owner) => GcFrame(h, owner);
    case OpAck(owner, upTo) => AckKeepsPeers(h, owner, upTo);
    case OpDeferOutbound(until) => DeferKeepsPeers(h, until);
    case OpEditOutbound(_) =>
  }

  lemma EnqueueKeepsPeers(h: Home, outer: Outer)
    ensures Enqueue(h, outer).peers == h.peers
  {
    IngestFrame(h, outer.enc, outer.plain);
    hide Ingest;
  }

  lemma AckKeepsPeers(h: Home, owner: Key, upTo: U64)
    ensures Ack(h, owner, upTo).0.peers == h.peers
  {
    hide AckRows;
  }

  lemma DeferKeepsPeers(h: Home, until: nat)
    ensures DeferOutbound(h, until).peers == h.peers
  {
  }

  ghost predicate Spared(h: Home, h': Home, peer: Key, tx: bool, rx: bool)
    requires peer in h.peers
  {
    && peer in h'.peers
    && (tx ==> h'.peers[peer].nextTx == h.peers[peer].nextTx)
    && (rx ==> h'.peers[peer].lastRx == h.peers[peer].lastRx)
  }

  lemma PinSpares(h: Home, id: Key, bundle: Blob, verified: bool, peer: Key)
    requires peer in h.peers
    ensures Spared(h, Pin(h, id, bundle, verified), peer, true, true)
    ensures Spared(h, RotateSign(h, id, bundle, verified), peer, true, true)
    ensures Spared(h, Refuse(h, id), peer, true, true)
  {
  }

  lemma CountersSpare(h: Home, id: Key, payload: Payload, peer: Key)
    requires peer in h.peers
    ensures Spared(h, TakeFrame(h, id, payload).0, peer, peer != id, true)
    ensures Spared(h, ResetLink(h, id), peer, peer != id, peer != id)
  {
  }

  lemma PeerOpsSpareLink(h: Home, op: Op, peer: Key)
    requires peer in h.peers && IsPeerOp(op) && !op.OpAcceptFrame?
    ensures Spared(h, Step(h, op), peer, SparesSending(op, peer), SparesReceiving(op, peer))
  {
    hide Register, RegisterFromCard, ObserveBinding, NoteMembership, IngestRevocation, RegisterShare, MintContact, RotateContact;
    hide PublishPrekey, FetchPrekey, SweepFor, Sweep, Ingest, AppendInner, Gc, Ack, Enqueue, DeferOutbound, SetOutbound, AcceptFrame;
    hide Pin, RotateSign, Refuse, TakeFrame, ResetLink, Spared;
    if op.OpHelloDone? {
      hide Step;
      HelloSpares(h, op.peer, peer);
    } else {
      match op
      case OpPin(p, bundle, v) => PinSpares(h, p, bundle, v, peer);
      case OpRefuse(p) => PinSpares(h, p, 0, false, peer);
      case OpRotateSign(p, bundle, v) => PinSpares(h, p, bundle, v, peer);
      case OpResetLink(p) => CountersSpare(h, p, Fail, peer);
      case OpTakeFrame(p, payload) => CountersSpare(h, p, payload, peer);
    }
  }

  lemma HelloSpares(h: Home, p: Key, peer: Key)
    requires peer in h.peers
    ensures Spared(h, Step(h, OpHelloDone(p)), peer, true, true)
  {
  }

  lemma StepSparesLink(h: Home, op: Op, peer: Key)
    requires peer in h.peers
    ensures Spared(h, Step(h, op), peer, SparesSending(op, peer), SparesReceiving(op, peer))
  {
    if op.OpAcceptFrame? {
      AcceptSparesLink(h, op.peer, op.frame, peer);
      assert Step(h, op) == AcceptFrame(h, op.peer, op.frame).0 by {
        hide AcceptFrame, Register, RegisterFromCard, ObserveBinding, NoteMembership, IngestRevocation, Pin, Refuse, RotateSign, ResetLink, TakeFrame;
        hide RegisterShare, MintContact, RotateContact, PublishPrekey, FetchPrekey, SweepFor, Sweep, Ingest, AppendInner, Gc, Ack, Enqueue, DeferOutbound, SetOutbound;
      }
    }
    hide Step, AcceptFrame;
    match op
    case OpTick(_) => IdentityOpsKeepPeers(h, op);
    case OpRegister(_, _) => IdentityOpsKeepPeers(h, op);
    case OpRegisterCard(_, _) => IdentityOpsKeepPeers(h, op);
    case OpObserveBinding(_, _, _) => IdentityOpsKeepPeers(h, op);
    case OpNoteMembership(_, _) => IdentityOpsKeepPeers(h, op);
    case OpRevoke(_, _, _) => IdentityOpsKeepPeers(h, op);
    case OpRegisterShare(_, _, _) => TokenOpsKeepPeers(h, op);
    case OpMintContact(_, _) => TokenOpsKeepPeers(h, op);
    case OpRotateContact(_, _, _, _) => TokenOpsKeepPeers(h, op);
    case OpPublishPrekey(_, _) => TokenOpsKeepPeers(h, op);
    case OpFetchPrekey(_) => TokenOpsKeepPeers(h, op);
    case OpSweepFor(_) => TokenOpsKeepPeers(h, op);
    case OpSweep => TokenOpsKeepPeers(h, op);
    case OpAcceptFrame(_, _) =>
    case OpPin(_, _, _) => PeerOpsSpareLink(h, op, peer);
    case OpRefuse(_) => PeerOpsSpareLink(h, op, peer);
    case OpRotateSign(_, _, _) => PeerOpsSpareLink(h, op, peer);
    case OpResetLink(_) => PeerOpsSpareLink(h, op, peer);
    case OpTakeFrame(_, _) => PeerOpsSpareLink(h, op, peer);
    case OpHelloDone(_) => PeerOpsSpareLink(h, op, peer);
    case _ => MailOpsKeepPeers(h, op);
  }

  lemma AcceptSparesLink(h: Home, from: Key, frame: Frame, peer: Key)
    requires peer in h.peers
    ensures var h' := AcceptFrame(h, from, frame).0;
            && peer in h'.peers && h'.peers[peer].nextTx == h.peers[peer].nextTx
            && (peer != from ==> h'.peers[peer].lastRx == h.peers[peer].lastRx)
  {
    if Processes(h, from, frame) {
      AcceptMoves(h, from, frame);
    } else {
      AcceptRefuses(h, from, frame);
    }
    hide AcceptFrame;
  }

  lemma LinkStep(k: Link, e: LinkEvent, k': Link, base: nat)
    requires LinkOk(k, base) && LinkNext(k, e, k')
    ensures LinkOk(k', base)
    ensures k.processed <= k'.processed && k.framed <= k'.framed
  {
    match e
    case Send(payload) =>
    case Lose(_) =>
    case AtSender(op) => StepSparesLink(k.sender, op, k.b); hide Step;
    case AtReceiver(op) => StepSparesLink(k.receiver, op, k.a); hide Step;
    case Deliver(frame) =>
      if Processes(k.receiver, k.a, frame) {
        AcceptMoves(k.receiver, k.a, frame);
        var i := frame.counter - base - 1;
        assert i == |k.processed| < |k.framed|;
        assert k.framed[..i] + [k.framed[i]] == k.framed[..i + 1];
      } else {
        AcceptRefuses(k.receiver, k.a, frame);
      }
      hide AcceptFrame;
  }

  /**
   Between resets, with frames lost, repeated and reordered at will and both servers doing anything else in
   between, what the receiver has processed is at every point a prefix of what the sender has framed: each
   payload once, in order, none skipped.
   */
  lemma {:induction false} ProcessedIsPrefix(ks: seq<Link>, es: seq<LinkEvent>, base: nat)
    requires |ks| == |es| + 1 && LinkOk(ks[0], base)
    requires forall i :: 0 <= i < |es| ==> LinkNext(ks[i], es[i], ks[i + 1])
    ensures forall i :: 0 <= i < |ks| ==> LinkOk(ks[i], base) && ks[i].processed <= ks[i].framed
  {
    hide LinkNext;
    if |es| > 0 {
      var n := |es| - 1;
      ProcessedIsPrefix(ks[..n + 1], es[..n], base);
      assert forall i :: 0 <= i < n + 1 ==> ks[..n + 1][i] == ks[i];
      LinkStep(ks[n], es[n], ks[n + 1], base);
    }
  }

  // ------------------------------------------------------------------ backoff

  function Pow2(n: nat): nat {
    if n == 0 then 1 else 2 * Pow2(n - 1)
  }

  function NextBackoff(backoff: nat): nat {
    Min(2 * backoff, BACKOFF_CAP_SECS)
  }

  /** Backoff of a row after `failures` failed attempts, starting from the one second it was enqueued with. */
  function Backoff(failures: nat): nat {
    if failures == 0 then 1 else NextBackoff(Backoff(failures - 1))
  }

  lemma {:induction false} BackoffIsCappedPower(n: nat)
    ensures Backoff(n) == Min(Pow2(n), BACKOFF_CAP_SECS)
  {
    if n > 0 { BackoffIsCappedPower(n - 1); }
  }
}
