/**
 Repeated ciphertexts and busy or refused peers. The window of seen ciphertexts, on the server and per peer, over whole
 runs: what a repetition is answered and for how long, how many ciphertexts one peer gets in per second, and that a
 refused peer gets nothing in.
 */
module Replays {
  import opened Basics
  import opened HomeState
  import opened HomeRun
  import opened HomeJournal
  import opened Retention
  import opened Federation
  import opened TokenMoves
  import opened Lifetimes
  import TokenLives

  // ---------------------------------------------------------------- the server's window

  /** The ciphertext an operation brings in. */
  function KeyOf(op: Op): Option<Key> {
    match op
    case OpIngest(enc, _) => enc
    case OpEnqueue(outer) => outer.enc
    case OpAcceptFrame(_, frame) => if frame.payload.Ciphertext? then frame.payload.enc else None
    case _ => None
  }

  /** The number under which an operation files a ciphertext that was not in the window. */
  ghost function Files(h: Home, op: Op): Option<nat> {
    var inner := Attempt(h, op);
    if KeyOf(op).None? || inner.None? then None
    else match AppendInner(h, inner.value).1
         case Ok(s) => Some(s)
         case Err(_) => None
  }

  /** The window after filing: it holds 1024 and then starts over. */
  function Filed(seen: map<Key, nat>, enc: Key, s: nat): map<Key, nat> {
    if |seen| < 1024 then seen[enc := s] else map[enc := s]
  }

  ghost predicate SeenMoves(h: Home, h': Home, enc: Option<Key>, filed: Option<nat>) {
    h'.seen == if filed.Some? && enc.Some? then Filed(h.seen, enc.value, filed.value) else h.seen
  }

  lemma IngestSeen(h: Home, enc: Option<Key>, plain: Option<Inner>)
    ensures var inner := Reaches(h, enc, plain);
            SeenMoves(h, Ingest(h, enc, plain).0, enc,
                      if inner.Some? && AppendInner(h, inner.value).1.Ok? then Some(AppendInner(h, inner.value).1.value) else None)
  {
    if plain.Some? { AppendKeepsSeen(h, plain.value); }
    hide AppendInner;
  }

  /** Appends answer by capabilities, mailboxes and the clock alone. */
  lemma SameAnswer(h: Home, h1: Home, inner: Inner)
    requires h1.tokens == h.tokens && h1.mailboxes == h.mailboxes && h1.now == h.now && Valid(h) && Valid(h1)
    ensures AppendInner(h1, inner).1 == AppendInner(h, inner).1
  {
    SameAuthority(h, h1, inner);
    var r := AuthorizeAppend(h, inner.capability).1;
    if r.Ok? {
      AppendReply(h, inner, r.value);
      AppendReply(h1, inner, r.value);
      hide AppendInner, AuthorizeAppend, Valid;
    } else {
      hide AuthorizeAppend, Valid;
    }
  }

  lemma PeersOnlyValid(h: Home, peers: map<Key, Peer>, dirty: HomeDirty)
    requires Valid(h)
    ensures Valid(h.(peers := peers, dirty := dirty))
  {
    hide MailboxesOk, TokensOk, DirectoryOk, PrekeysOk, MembershipsOk;
  }

  /** Every number of the window of a new ciphertext comes from the append it led to. */
  lemma HandleSeen(h: Home, from: Key, enc: Option<Key>, plain: Option<Inner>)
    requires Valid(h) && from in h.peers
    ensures var p := h.peers[from];
            var inner := if enc.Some? && Windowed(p, h.now).windowOk < PEER_RATE_PER_SEC && enc.value !in p.seen
                         then Reaches(h, enc, plain) else None;
            SeenMoves(h, HandleCiphertext(h, from, enc, plain).0, enc,
                      if inner.Some? && AppendInner(h, inner.value).1.Ok? then Some(AppendInner(h, inner.value).1.value) else None)
  {
    hide Valid, Ingest, AppendInner;
    if enc.Some? {
      var h1 := h.(peers := h.peers[from := Windowed(h.peers[from], h.now)]);
      IngestSeen(h1, enc, plain);
      if plain.Some? {
        PeersOnlyValid(h, h1.peers, h.dirty);
        SameAnswer(h, h1, plain.value);
      }
    }
  }

  lemma AcceptSeen(h: Home, from: Key, frame: Frame)
    requires Valid(h)
    ensures var op := OpAcceptFrame(from, frame); SeenMoves(h, AcceptFrame(h, from, frame).0, KeyOf(op), Files(h, op))
  {
    hide Valid, HandleCiphertext, AppendInner;
    if from in h.peers && frame.payload.Ciphertext? {
      var h1 := MarkPeer(h, from, h.peers[from].(lastRx := frame.counter));
      PeersOnlyValid(h, h1.peers, h1.dirty);
      HandleSeen(h1, from, frame.payload.enc, frame.payload.plain);
      if frame.payload.plain.Some? { SameAnswer(h, h1, frame.payload.plain.value); }
    }
  }

  lemma AppendsSeen(h: Home, op: Op)
    requires Valid(h) && Appends(op)
    ensures SeenMoves(h, Step(h, op), KeyOf(op), Files(h, op))
  {
    hide Valid, AppendInner, Ingest, AcceptFrame, Enqueue, SeenMoves;
    match op
    case OpAppend(inner) => PlainSeen(h, inner);
    case OpIngest(enc, plain) => IngestSeen(h, enc, plain);
    case OpEnqueue(outer) => EnqueueSeen(h, outer);
    case OpAcceptFrame(p, frame) => AcceptSeen(h, p, frame); hide Files;
  }

  lemma PlainSeen(h: Home, inner: Inner)
    ensures SeenMoves(h, AppendInner(h, inner).0, None, None)
  {
    AppendKeepsSeen(h, inner);
    hide AppendInner;
  }

  lemma EnqueueSeen(h: Home, outer: Outer)
    ensures SeenMoves(h, Enqueue(h, outer), outer.enc, Files(h, OpEnqueue(outer)))
  {
    if outer.dest == h.serverId { IngestSeen(h, outer.enc, outer.plain); }
    hide Ingest, AppendInner;
  }

  /** Nothing else touches the window. */
  lemma OthersSeen(h: Home, op: Op)
    requires !Appends(op)
    ensures Step(h, op).seen == h.seen && KeyOf(op).None?
  {
    hide Step;
    if op.OpRegisterShare? || op.OpMintContact? || op.OpRotateContact? || op.OpPublishPrekey? || op.OpFetchPrekey?
       || op.OpSweepFor? || op.OpSweep? {
      TokenOpsSeen(h, op);
    } else if op.OpPin? || op.OpRefuse? || op.OpRotateSign? || op.OpResetLink? || op.OpTakeFrame? || op.OpHelloDone? {
      PeerOpsSeen(h, op);
    } else {
      RestSeen(h, op);
    }
  }

  lemma TokenOpsSeen(h: Home, op: Op)
    requires op.OpRegisterShare? || op.OpMintContact? || op.OpRotateContact? || op.OpPublishPrekey? || op.OpFetchPrekey?
             || op.OpSweepFor? || op.OpSweep?
    ensures Step(h, op).seen == h.seen
  {
    hide Step;
    if op.OpRegisterShare? || op.OpMintContact? || op.OpRotateContact? { MintsSeen(h, op); } else { PrekeysSeen(h, op); }
  }

  lemma MintsSeen(h: Home, op: Op)
    requires op.OpRegisterShare? || op.OpMintContact? || op.OpRotateContact?
    ensures Step(h, op).seen == h.seen
  {
    hide RotateContact, DeadFor, Without;
    match op
    case OpRotateContact(o, a, c, t) => RotateSeen(h, o, a, c, t);
    case _ =>
  }

  lemma PrekeysSeen(h: Home, op: Op)
    requires op.OpPublishPrekey? || op.OpFetchPrekey? || op.OpSweepFor? || op.OpSweep?
    ensures Step(h, op).seen == h.seen
  {
    hide DeadFor, DeadTokens, Without, LastIndex, ShareUsable, SetKind;
  }

  lemma RotateSeen(h: Home, owner: Key, oldToken: Key, confirm: bool, token: Key)
    ensures RotateContact(h, owner, oldToken, confirm, token).0.seen == h.seen
  {
    hide DeadFor, Without, LastIndex, SetKind;
  }

  lemma PeerOpsSeen(h: Home, op: Op)
    requires op.OpPin? || op.OpRefuse? || op.OpRotateSign? || op.OpResetLink? || op.OpTakeFrame? || op.OpHelloDone?
    ensures Step(h, op).seen == h.seen
  {
    hide Step;
    if op.OpPin? || op.OpRefuse? || op.OpRotateSign? { PinsSeen(h, op); } else { LinksSeen(h, op); }
  }

  lemma PinsSeen(h: Home, op: Op)
    requires op.OpPin? || op.OpRefuse? || op.OpRotateSign?
    ensures Step(h, op).seen == h.seen
  {
    hide Register, RegisterFromCard, ObserveBinding, NoteMembership, IngestRevocation, RegisterShare, MintContact, RotateContact;
    hide PublishPrekey, FetchPrekey, SweepFor, Sweep, Ingest, AppendInner, Gc, Ack, Enqueue, DeferOutbound, SetOutbound, AcceptFrame;
    hide Pin, Refuse, RotateSign, ResetLink, TakeFrame;
    match op
    case OpPin(id, b, v) => PinSeen(h, id, b, v);
    case OpRefuse(id) => RefuseSeen(h, id);
    case OpRotateSign(id, b, v) => SignSeen(h, id, b, v);
  }

  lemma PinSeen(h: Home, id: Key, b: Blob, v: bool)
    ensures Pin(h, id, b, v).seen == h.seen
  {
  }

  lemma RefuseSeen(h: Home, id: Key)
    ensures Refuse(h, id).seen == h.seen
  {
  }

  lemma SignSeen(h: Home, id: Key, b: Blob, v: bool)
    ensures RotateSign(h, id, b, v).seen == h.seen
  {
  }

  lemma LinksSeen(h: Home, op: Op)
    requires op.OpResetLink? || op.OpTakeFrame? || op.OpHelloDone?
    ensures Step(h, op).seen == h.seen
  {
    hide Register, RegisterFromCard, ObserveBinding, NoteMembership, IngestRevocation, RegisterShare, MintContact, RotateContact;
    hide PublishPrekey, FetchPrekey, SweepFor, Sweep, Ingest, AppendInner, Gc, Ack, Enqueue, DeferOutbound, SetOutbound, AcceptFrame;
  }

  lemma RestSeen(h: Home, op: Op)
    requires op.OpTick? || op.OpRegister? || op.OpRegisterCard? || op.OpObserveBinding? || op.OpNoteMembership? || op.OpRevoke?
             || op.OpFetch? || op.OpAck? || op.OpDeferOutbound? || op.OpEditOutbound?
    ensures Step(h, op).seen == h.seen
  {
    hide Step;
    if op.OpFetch? || op.OpAck? || op.OpDeferOutbound? || op.OpEditOutbound? || op.OpTick? { MailSeen(h, op); } else { IdentitySeen(h, op); }
  }

  lemma MailSeen(h: Home, op: Op)
    requires op.OpFetch? || op.OpAck? || op.OpDeferOutbound? || op.OpEditOutbound? || op.OpTick?
    ensures Step(h, op).seen == h.seen
  {
    hide Gc, Ack, DeferOutbound;
    match op
    case OpFetch(o) => GcSeen(h, o);
    case OpAck(o, u) => AckSeen(h, o, u);
    case OpDeferOutbound(until) => DeferSeen(h, until);
    case _ =>
  }

  lemma AckSeen(h: Home, o: Key, u: U64)
    ensures Ack(h, o, u).0.seen == h.seen
  {
    hide AckRows;
  }

  lemma DeferSeen(h: Home, until: nat)
    ensures DeferOutbound(h, until).seen == h.seen
  {
  }

  lemma IdentitySeen(h: Home, op: Op)
    requires op.OpRegister? || op.OpRegisterCard? || op.OpObserveBinding? || op.OpNoteMembership? || op.OpRevoke?
    ensures Step(h, op).seen == h.seen
  {
    hide Register, RegisterFromCard, NoteMembership, ObserveBinding, IngestRevocation;
    match op
    case OpObserveBinding(id, b, v) => ObserveSeen(h, id, b, v);
    case OpRevoke(id, stmt, v) => RevokeSeen(h, id, stmt, v);
    case OpRegister(id, pk) => RegisterSeen(h, id, pk, 0);
    case OpNoteMembership(id, g) => RegisterSeen(h, id, 0, g);
    case OpRegisterCard(card, v) => CardSeen(h, card, v);
  }

  lemma RegisterSeen(h: Home, id: Key, pk: Key, group: Key)
    ensures Register(h, id, pk).0.seen == h.seen && NoteMembership(h, id, group).seen == h.seen
  {
  }

  lemma CardSeen(h: Home, card: Card, verified: bool)
    ensures RegisterFromCard(h, card, verified).0.seen == h.seen
  {
  }

  lemma ObserveSeen(h: Home, id: Key, b: Binding, v: bool)
    ensures ObserveBinding(h, id, b, v).0.seen == h.seen
  {
    forall h1 ensures Disable(h1, id).seen == h1.seen { DisableSeen(h1, id); }
    hide Disable;
  }

  lemma RevokeSeen(h: Home, id: Key, stmt: Blob, v: bool)
    ensures IngestRevocation(h, id, stmt, v).0.seen == h.seen
  {
    forall h1 ensures Disable(h1, id).seen == h1.seen { DisableSeen(h1, id); }
    hide Disable;
  }

  lemma DisableSeen(h: Home, id: Key)
    ensures Disable(h, id).seen == h.seen
  {
  }

  lemma GcSeen(h: Home, o: Key)
    ensures Gc(h, o).seen == h.seen
  {
    hide Retained, Trim, Keyed;
  }

  lemma StepSeen(h: Home, op: Op)
    requires Valid(h)
    ensures SeenMoves(h, Step(h, op), KeyOf(op), Files(h, op))
  {
    hide Valid, Step, AppendInner;
    if Appends(op) { AppendsSeen(h, op); } else { OthersSeen(h, op); }
  }

  /** The window started over. */
  ghost predicate StartsOver(h: Home, op: Op) {
    Files(h, op).Some? && |h.seen| >= 1024
  }

  lemma FilesNew(h: Home, op: Op)
    requires Files(h, op).Some?
    ensures KeyOf(op).Some? && KeyOf(op).value !in h.seen
  {
    hide AppendInner;
  }

  /** One operation on a ciphertext in the window: it stays, with its number, unless the window starts over. */
  lemma SeenStays(h: Home, op: Op, enc: Key)
    requires Valid(h) && enc in h.seen
    ensures Get(Step(h, op).seen, enc) == if StartsOver(h, op) then None else Some(h.seen[enc])
  {
    StepSeen(h, op);
    if Files(h, op).Some? { FilesNew(h, op); }
    hide Valid, Step, Files;
  }

  /** The window never holds more than 1024. */
  lemma WindowBounded(h: Home, op: Op)
    requires Valid(h) && |h.seen| <= 1024
    ensures |Step(h, op).seen| <= 1024
  {
    StepSeen(h, op);
    hide Valid, Step, Files;
  }

  lemma {:induction false} SeenLasts(hs: seq<Home>, ops: seq<Op>, enc: Key, i: nat, j: nat)
    requires IsRun(hs, ops) && Valid(hs[0]) && i <= j < |hs| && enc in hs[i].seen
    requires forall k :: i <= k < j ==> !StartsOver(hs[k], ops[k])
    ensures Get(hs[j].seen, enc) == Some(hs[i].seen[enc])
    decreases j
  {
    hide Valid, Step, Admissible, StartsOver;
    if j > i {
      SeenLasts(hs, ops, enc, i, j - 1);
      RunValid(hs, ops);
      SeenStays(hs[j - 1], ops[j - 1], enc);
    }
  }

  /**
   Repeating a ciphertext. Once one was filed under a number, bringing it in again is answered with that number and
   changes nothing at all, whatever it would open to, for as long as the window does not start over; and when it does,
   the ciphertext is forgotten.
   */
  lemma CiphertextReplay(hs: seq<Home>, ops: seq<Op>, i: nat, j: nat, plain: Option<Inner>)
    requires IsRun(hs, ops) && Valid(hs[0]) && i < j < |hs| && Files(hs[i], ops[i]).Some?
    requires forall k :: i < k < j ==> !StartsOver(hs[k], ops[k])
    ensures KeyOf(ops[i]).Some?
    ensures Ingest(hs[j], KeyOf(ops[i]), plain) == (hs[j], Ok(Files(hs[i], ops[i]).value))
    ensures j < |ops| && StartsOver(hs[j], ops[j]) && KeyOf(ops[j]) != KeyOf(ops[i]) ==> KeyOf(ops[i]).value !in hs[j + 1].seen
  {
    RunValid(hs, ops);
    FilesNew(hs[i], ops[i]);
    StepSeen(hs[i], ops[i]);
    var enc := KeyOf(ops[i]).value;
    hide Valid, Step, Admissible, Files, StartsOver;
    assert Get(hs[i + 1].seen, enc) == Files(hs[i], ops[i]);
    SeenLasts(hs, ops, enc, i + 1, j);
    hide AppendInner;
    if j < |ops| { SeenStays(hs[j], ops[j], enc); }
  }

  // -------------------------------------------------------------------- peers

  /** A frame that is next in turn from a peer that is not refused, with a ciphertext in it. */
  predicate NextFrame(h: Home, op: Op, p: Key) {
    && op.OpAcceptFrame? && op.peer == p && p in h.peers && !h.peers[p].refused
    && op.frame.counter == h.peers[p].lastRx + 1 && op.frame.payload.Ciphertext? && op.frame.payload.enc.Some?
  }

  /** How many this peer got in during this second so far. */
  function SoFar(p: Peer, now: nat): nat {
    if p.windowSec == now then p.windowOk else 0
  }

  /** The number under which a new ciphertext of this peer was taken in. */
  ghost function TakenIn(h: Home, op: Op, p: Key): Option<nat> {
    if NextFrame(h, op, p) && SoFar(h.peers[p], h.now) < 100 && op.frame.payload.enc.value !in h.peers[p].seen then
      match Ingest(h, op.frame.payload.enc, op.frame.payload.plain).1
      case Ok(s) => Some(s)
      case Err(_) => None
    else None
  }

  /** What an operation does to a peer's per-second count and to its table of ciphertexts. */
  ghost predicate PeerMoves(h: Home, op: Op, q: Peer, q': Peer, p: Key) {
    var taken := TakenIn(h, op, p);
    if NextFrame(h, op, p) then
      && q'.windowSec == h.now && q'.windowOk == SoFar(q, h.now) + (if taken.Some? then 1 else 0)
      && q'.seen == if taken.Some? then Filed(q.seen, op.frame.payload.enc.value, taken.value) else q.seen
    else q'.windowSec == q.windowSec && q'.windowOk == q.windowOk && q'.seen == q.seen
  }

  /** What the peer is told. */
  ghost function Told(h: Home, op: Op, p: Key): Payload
    requires NextFrame(h, op, p)
  {
    var enc := op.frame.payload.enc.value;
    if SoFar(h.peers[p], h.now) >= 100 then Fail
    else if enc in h.peers[p].seen then OkSeq(h.peers[p].seen[enc])
    else match TakenIn(h, op, p)
         case Some(s) => OkSeq(s)
         case None => Fail
  }

  lemma SameIngest(h: Home, h1: Home, enc: Option<Key>, plain: Option<Inner>)
    requires h1.tokens == h.tokens && h1.mailboxes == h.mailboxes && h1.now == h.now && h1.seen == h.seen && Valid(h) && Valid(h1)
    ensures Ingest(h1, enc, plain).1 == Ingest(h, enc, plain).1
  {
    if plain.Some? { SameAnswer(h, h1, plain.value); }
    hide Valid, AppendInner;
  }

  /** Handling a ciphertext: the peer's record afterwards, and the reply. */
  lemma HandleLaw(h: Home, p: Key, enc: Key, plain: Option<Inner>)
    requires Valid(h) && p in h.peers
    ensures var (h', reply) := HandleCiphertext(h, p, Some(enc), plain); var q := h.peers[p];
            var r := Ingest(h, Some(enc), plain).1;
            var fresh_ := SoFar(q, h.now) < 100 && enc !in q.seen;
            && p in h'.peers
            && h'.peers[p].windowSec == h.now
            && h'.peers[p].windowOk == SoFar(q, h.now) + (if fresh_ && r.Ok? then 1 else 0)
            && h'.peers[p].seen == (if fresh_ && r.Ok? then Filed(q.seen, enc, r.value) else q.seen)
            && reply == (if SoFar(q, h.now) >= 100 then Fail
                         else if enc in q.seen then OkSeq(q.seen[enc])
                         else if r.Ok? then OkSeq(r.value) else Fail)
            && (!fresh_ ==> h'.mailboxes == h.mailboxes)
            && (forall x :: x in h.peers && x != p ==> x in h'.peers && h'.peers[x] == h.peers[x])
  {
    hide Valid, Ingest, HandleCiphertext, Windowed, Noted, SoFar, Filed;
    var q1 := Windowed(h.peers[p], h.now);
    var h1 := h.(peers := h.peers[p := q1]);
    HandleIs(h, p, Some(enc), plain);
    PeersOnlyValid(h, h1.peers, h.dirty);
    SameIngest(h, h1, Some(enc), plain);
    IngestFrame(h1, Some(enc), plain);
    WindowIs(h.peers[p], h.now);
    var r := Ingest(h1, Some(enc), plain).1;
    if r.Ok? { NoteIs(q1, enc, r.value); }
  }

  lemma WindowIs(q: Peer, now: nat)
    ensures var q1 := Windowed(q, now); q1.windowSec == now && q1.windowOk == SoFar(q, now) && q1.seen == q.seen
  {
  }

  lemma NoteIs(q: Peer, enc: Key, s: nat)
    ensures var q1 := Noted(q, enc, s); q1.windowSec == q.windowSec && q1.windowOk == q.windowOk + 1 && q1.seen == Filed(q.seen, enc, s)
  {
  }

  lemma NextFrameLaw(h: Home, op: Op, p: Key)
    requires Valid(h) && NextFrame(h, op, p)
    ensures var (h', r) := AcceptFrame(h, p, op.frame);
            && p in h'.peers && PeerMoves(h, op, h.peers[p], h'.peers[p], p)
            && r == Ok(Told(h, op, p))
            && (SoFar(h.peers[p], h.now) >= 100 || op.frame.payload.enc.value in h.peers[p].seen ==> h'.mailboxes == h.mailboxes)
            && (forall x :: x in h.peers && x != p ==> x in h'.peers && h'.peers[x] == h.peers[x])
  {
    hide Valid, Ingest, HandleCiphertext, MarkPeer, Filed;
    var enc, plain := op.frame.payload.enc.value, op.frame.payload.plain;
    var q := h.peers[p].(lastRx := op.frame.counter);
    var h1 := MarkPeer(h, p, q);
    MarkedIs(h, p, q);
    PeersOnlyValid(h, h1.peers, h1.dirty);
    SameIngest(h, h1, Some(enc), plain);
    HandleLaw(h1, p, enc, plain);
    AcceptIsHandle(h, p, op.frame);
    hide AcceptFrame;
  }

  lemma MarkedIs(h: Home, p: Key, q: Peer)
    ensures var h1 := MarkPeer(h, p, q); h1 == h.(peers := h.peers[p := q], dirty := h1.dirty)
  {
  }

  lemma AcceptIsHandle(h: Home, p: Key, frame: Frame)
    requires p in h.peers && !h.peers[p].refused && frame.counter == h.peers[p].lastRx + 1 && frame.payload.Ciphertext?
    ensures var h1 := MarkPeer(h, p, h.peers[p].(lastRx := frame.counter));
            && p in h1.peers
            && var (h2, reply) := HandleCiphertext(h1, p, frame.payload.enc, frame.payload.plain);
               AcceptFrame(h, p, frame) == (h2, Ok(reply))
  {
    hide HandleCiphertext;
  }

  /** The window and the table are as before. */
  predicate SameTable(q: Peer, q': Peer) {
    q'.windowSec == q.windowSec && q'.windowOk == q.windowOk && q'.seen == q.seen
  }

  lemma OtherFrames(h: Home, op: Op, p: Key)
    requires Valid(h) && p in h.peers && op.OpAcceptFrame? && !NextFrame(h, op, p)
    ensures var h' := AcceptFrame(h, op.peer, op.frame).0; p in h'.peers && SameTable(h.peers[p], h'.peers[p])
  {
    hide Valid;
    if NextFrame(h, op, op.peer) {
      NextFrameLaw(h, op, op.peer);
      hide AcceptFrame;
    } else {
      hide Ingest;
    }
  }

  lemma PeerOpsTable(h: Home, op: Op, p: Key)
    requires p in h.peers && (op.OpPin? || op.OpRefuse? || op.OpRotateSign? || op.OpResetLink? || op.OpTakeFrame? || op.OpHelloDone?)
    ensures p in Step(h, op).peers && SameTable(h.peers[p], Step(h, op).peers[p])
  {
    PeerOpsEdit(h, op, p);
    hide Step;
  }

  /** Peers after an operation on links: those of before, and the named one pinned anew or with its window and table. */
  lemma PeerOpsEdit(h: Home, op: Op, p: Key)
    requires op.OpPin? || op.OpRefuse? || op.OpRotateSign? || op.OpResetLink? || op.OpTakeFrame? || op.OpHelloDone?
    ensures Edited(h.peers, Step(h, op).peers, p)
  {
    hide Edited, Pin, Refuse, RotateSign, ResetLink, TakeFrame;
    hide Register, RegisterFromCard, ObserveBinding, NoteMembership, IngestRevocation, RegisterShare, MintContact, RotateContact;
    hide PublishPrekey, FetchPrekey, SweepFor, Sweep, Ingest, AppendInner, Gc, Ack, Enqueue, DeferOutbound, SetOutbound, AcceptFrame;
    match op
    case OpPin(id, b, v) => PinEdit(h, id, b, v, p);
    case OpRefuse(id) => RefuseEdit(h, id, p);
    case OpRotateSign(id, b, v) => RotateSignEdit(h, id, b, v, p);
    case OpResetLink(id) => ResetEdit(h, id, p);
    case OpTakeFrame(id, payload) => TakeEdit(h, id, payload, p);
    case OpHelloDone(id) => HelloEdit(h, id, p); hide Step;
  }

  predicate Edited(a: map<Key, Peer>, b: map<Key, Peer>, p: Key) {
    && (p in a ==> p in b && SameTable(a[p], b[p]))
    && (p !in a && p in b ==> b[p].windowSec == 0 && b[p].windowOk == 0)
  }

  lemma PutEdit(peers: map<Key, Peer>, id: Key, q: Peer, p: Key)
    requires if id in peers then SameTable(peers[id], q) else q.windowSec == 0 && q.windowOk == 0
    ensures Edited(peers, peers[id := q], p)
  {
  }

  lemma PinEdit(h: Home, id: Key, b: Blob, v: bool, p: Key)
    ensures Edited(h.peers, Pin(h, id, b, v).peers, p)
  {
    PutEdit(h.peers, id, if id in h.peers then h.peers[id].(bundle := b) else Peer(b, false, 0, 1, false, 0, 0, map[]), p);
  }

  lemma RefuseEdit(h: Home, id: Key, p: Key)
    ensures Edited(h.peers, Refuse(h, id).peers, p)
  {
    if id in h.peers { PutEdit(h.peers, id, h.peers[id].(refused := true), p); }
  }

  lemma RotateSignEdit(h: Home, id: Key, b: Blob, v: bool, p: Key)
    ensures Edited(h.peers, RotateSign(h, id, b, v).peers, p)
  {
    if id in h.peers { PutEdit(h.peers, id, h.peers[id].(bundle := b), p); }
  }

  lemma ResetEdit(h: Home, id: Key, p: Key)
    ensures Edited(h.peers, ResetLink(h, id).peers, p)
  {
    if id in h.peers { PutEdit(h.peers, id, h.peers[id].(lastRx := 0, nextTx := 1, helloDone := false), p); }
  }

  lemma TakeEdit(h: Home, id: Key, payload: Payload, p: Key)
    ensures Edited(h.peers, TakeFrame(h, id, payload).0.peers, p)
  {
    if id in h.peers { PutEdit(h.peers, id, h.peers[id].(nextTx := h.peers[id].nextTx + 1), p); }
  }

  lemma HelloEdit(h: Home, id: Key, p: Key)
    ensures Edited(h.peers, Step(h, OpHelloDone(id)).peers, p)
  {
    if id in h.peers { PutEdit(h.peers, id, h.peers[id].(helloDone := true), p); }
  }

  lemma FrameStep(h: Home, op: Op)
    requires op.OpAcceptFrame?
    ensures Step(h, op) == AcceptFrame(h, op.peer, op.frame).0
  {
    hide AcceptFrame;
  }

  /** Every operation moves every peer's record as told. */
  lemma StepPeer(h: Home, op: Op, p: Key)
    requires Valid(h) && p in h.peers
    ensures p in Step(h, op).peers && PeerMoves(h, op, h.peers[p], Step(h, op).peers[p], p)
  {
    hide Valid, Step, AcceptFrame, TakenIn;
    if op.OpAcceptFrame? {
      FrameStep(h, op);
      if NextFrame(h, op, p) { NextFrameLaw(h, op, p); } else { OtherFrames(h, op, p); }
    } else if op.OpPin? || op.OpRefuse? || op.OpRotateSign? || op.OpResetLink? || op.OpTakeFrame? || op.OpHelloDone? {
      PeerOpsTable(h, op, p);
    } else if op.OpTick? || op.OpRegister? || op.OpRegisterCard? || op.OpObserveBinding? || op.OpNoteMembership? || op.OpRevoke? {
      IdentityOpsKeepPeers(h, op);
    } else if op.OpRegisterShare? || op.OpMintContact? || op.OpRotateContact? || op.OpPublishPrekey? || op.OpFetchPrekey?
              || op.OpSweepFor? || op.OpSweep? {
      TokenOpsKeepPeers(h, op);
    } else {
      MailOpsKeepPeers(h, op);
    }
  }

  // ------------------------------------------------------------------ peers over runs

  /** How many ciphertexts of peer `p` were taken in during second `sec`, in the first `n` operations. */
  ghost function Taken(hs: seq<Home>, ops: seq<Op>, p: Key, sec: nat, n: nat): nat
    requires n <= |ops| <= |hs|
    decreases n
  {
    if n == 0 then 0
    else Taken(hs, ops, p, sec, n - 1) + (if TakenIn(hs[n - 1], ops[n - 1], p).Some? && hs[n - 1].now == sec then 1 else 0)
  }

  ghost predicate RateKept(hs: seq<Home>, ops: seq<Op>, p: Key, n: nat)
    requires n <= |ops| && |hs| == |ops| + 1
  {
    && (forall sec :: Taken(hs, ops, p, sec, n) <= 100)
    && (p in hs[n].peers ==>
          && Taken(hs, ops, p, hs[n].peers[p].windowSec, n) <= hs[n].peers[p].windowOk
          && (forall sec :: sec > hs[n].peers[p].windowSec ==> Taken(hs, ops, p, sec, n) == 0))
    && (p !in hs[n].peers ==> forall sec :: Taken(hs, ops, p, sec, n) == 0)
  }

  lemma NewPeer(h: Home, op: Op, p: Key)
    requires p !in h.peers
    ensures TakenIn(h, op, p).None?
  {
  }

  lemma {:induction false} RateHolds(hs: seq<Home>, ops: seq<Op>, p: Key, n: nat)
    requires IsRun(hs, ops) && Valid(hs[0]) && TokenLives.Clocked(hs) && n <= |ops|
    requires p in hs[0].peers ==> hs[0].peers[p].windowSec <= hs[0].now
    ensures RateKept(hs, ops, p, n) && (p in hs[n].peers ==> hs[n].peers[p].windowSec <= hs[n].now)
    decreases n
  {
    hide Valid, Step, Admissible;
    if n > 0 {
      RateHolds(hs, ops, p, n - 1);
      RunValid(hs, ops);
      assert hs[n - 1].now <= hs[n].now;
      if p in hs[n - 1].peers {
        StepPeer(hs[n - 1], ops[n - 1], p);
        RateStep(hs, ops, p, n);
      } else {
        NewPeer(hs[n - 1], ops[n - 1], p);
        FreshPeer(hs[n - 1], ops[n - 1], p);
        hide TakenIn, NextFrame;
        forall sec ensures Taken(hs, ops, p, sec, n) == 0 {
          assert Taken(hs, ops, p, sec, n - 1) == 0;
        }
      }
    }
  }

  /** A peer that is pinned starts with nothing on its account. */
  lemma FreshPeer(h: Home, op: Op, p: Key)
    requires p !in h.peers
    ensures p in Step(h, op).peers ==> Step(h, op).peers[p].windowSec == 0 && Step(h, op).peers[p].windowOk == 0
  {
    hide Step, AcceptFrame;
    if op.OpAcceptFrame? {
      FrameStep(h, op);
      FramesPinNobody(h, op.peer, op.frame, p);
    } else if op.OpPin? || op.OpRefuse? || op.OpRotateSign? || op.OpResetLink? || op.OpTakeFrame? || op.OpHelloDone? {
      PeerOpsEdit(h, op, p);
    } else if op.OpTick? || op.OpRegister? || op.OpRegisterCard? || op.OpObserveBinding? || op.OpNoteMembership? || op.OpRevoke? {
      IdentityOpsKeepPeers(h, op);
    } else if op.OpRegisterShare? || op.OpMintContact? || op.OpRotateContact? || op.OpPublishPrekey? || op.OpFetchPrekey?
              || op.OpSweepFor? || op.OpSweep? {
      TokenOpsKeepPeers(h, op);
    } else {
      MailOpsKeepPeers(h, op);
    }
  }

  lemma FramesPinNobody(h: Home, from: Key, frame: Frame, p: Key)
    requires p !in h.peers
    ensures p !in AcceptFrame(h, from, frame).0.peers
  {
    if from in h.peers && !h.peers[from].refused && frame.counter == h.peers[from].lastRx + 1 {
      AcceptMoves(h, from, frame);
    } else {
      AcceptRefuses(h, from, frame);
    }
    hide AcceptFrame;
  }

  lemma RateStep(hs: seq<Home>, ops: seq<Op>, p: Key, n: nat)
    requires 0 < n <= |ops| && |hs| == |ops| + 1 && RateKept(hs, ops, p, n - 1)
    requires p in hs[n - 1].peers && p in hs[n].peers && hs[n - 1].peers[p].windowSec <= hs[n - 1].now <= hs[n].now
    requires PeerMoves(hs[n - 1], ops[n - 1], hs[n - 1].peers[p], hs[n].peers[p], p)
    ensures RateKept(hs, ops, p, n) && hs[n].peers[p].windowSec <= hs[n].now
  {
    var h, q, q' := hs[n - 1], hs[n - 1].peers[p], hs[n].peers[p];
    var taken := TakenIn(h, ops[n - 1], p).Some?;
    TakenRoom(h, ops[n - 1], p);
    hide TakenIn, NextFrame;
    forall sec ensures Taken(hs, ops, p, sec, n) == Taken(hs, ops, p, sec, n - 1) + (if taken && h.now == sec then 1 else 0) {
    }
    hide Taken;
    assert Taken(hs, ops, p, h.now, n - 1) <= SoFar(q, h.now);
  }

  lemma TakenRoom(h: Home, op: Op, p: Key)
    ensures TakenIn(h, op, p).Some? ==> NextFrame(h, op, p) && SoFar(h.peers[p], h.now) < 100
  {
    hide Ingest;
  }

  /** No peer gets more than a hundred ciphertexts in during any one second, in any run. */
  lemma PeerRateBound(hs: seq<Home>, ops: seq<Op>, p: Key, sec: nat)
    requires IsRun(hs, ops) && Valid(hs[0]) && TokenLives.Clocked(hs)
    requires p in hs[0].peers ==> hs[0].peers[p].windowSec <= hs[0].now
    ensures Taken(hs, ops, p, sec, |ops|) <= 100
  {
    RateHolds(hs, ops, p, |ops|);
    hide Valid, Step, Admissible;
  }

  /** The peer's table starts over. */
  ghost predicate TableStartsOver(h: Home, op: Op, p: Key) {
    p in h.peers && TakenIn(h, op, p).Some? && |h.peers[p].seen| >= 1024
  }

  lemma {:induction false} TableLasts(hs: seq<Home>, ops: seq<Op>, p: Key, enc: Key, i: nat, j: nat)
    requires IsRun(hs, ops) && Valid(hs[0]) && i <= j < |hs| && p in hs[i].peers && enc in hs[i].peers[p].seen
    requires forall k :: i <= k < j ==> !TableStartsOver(hs[k], ops[k], p)
    ensures p in hs[j].peers && Get(hs[j].peers[p].seen, enc) == Some(hs[i].peers[p].seen[enc])
    decreases j
  {
    hide Valid, Step, Admissible;
    if j > i {
      TableLasts(hs, ops, p, enc, i, j - 1);
      RunValid(hs, ops);
      StepPeer(hs[j - 1], ops[j - 1], p);
      TakenNew(hs[j - 1], ops[j - 1], p);
      hide TakenIn;
    }
  }

  lemma TakenNew(h: Home, op: Op, p: Key)
    ensures TakenIn(h, op, p).Some? ==> NextFrame(h, op, p) && op.frame.payload.enc.value !in h.peers[p].seen
  {
    hide Ingest;
  }

  /**
   A peer repeating a ciphertext, in a new frame that is next in turn: it is told the number from the first time and no
   mailbox moves, for as long as its table does not start over; only a peer over its hundred per second is refused.
   */
  lemma FrameReplay(hs: seq<Home>, ops: seq<Op>, p: Key, i: nat, j: nat)
    requires IsRun(hs, ops) && Valid(hs[0]) && i < j < |ops| && TakenIn(hs[i], ops[i], p).Some?
    requires NextFrame(hs[j], ops[j], p) && ops[i].OpAcceptFrame? && ops[i].frame.payload.Ciphertext?
    requires ops[j].frame.payload.enc == ops[i].frame.payload.enc
    requires forall k :: i < k < j ==> !TableStartsOver(hs[k], ops[k], p)
    ensures var (h', r) := AcceptFrame(hs[j], p, ops[j].frame);
            && r == Ok(if SoFar(hs[j].peers[p], hs[j].now) >= 100 then Fail else OkSeq(TakenIn(hs[i], ops[i], p).value))
            && h'.mailboxes == hs[j].mailboxes
  {
    RunValid(hs, ops);
    TakenNew(hs[i], ops[i], p);
    StepPeer(hs[i], ops[i], p);
    NextFrameLaw(hs[j], ops[j], p);
    var enc := ops[i].frame.payload.enc.value;
    hide Valid, Step, Admissible, AcceptFrame, TakenIn, TableStartsOver;
    assert Get(hs[i + 1].peers[p].seen, enc) == TakenIn(hs[i], ops[i], p);
    TableLasts(hs, ops, p, enc, i + 1, j);
  }

  // ---------------------------------------------------------------- pinning and refusing

  /** A verified bundle for a pinned peer: pinned again, or its signing key rotated. */
  predicate Bundles(h: Home, op: Op, p: Key) {
    (op.OpPin? && op.peer == p && op.verified && p != h.serverId) || (op.OpRotateSign? && op.peer == p && op.verified)
  }

  predicate PinMoves(h: Home, op: Op, q: Peer, q': Peer, p: Key) {
    && q'.refused == (q.refused || op == OpRefuse(p))
    && q'.bundle == if Bundles(h, op, p) then op.bundle else q.bundle
  }

  predicate SamePin(q: Peer, q': Peer) {
    q'.refused == q.refused && q'.bundle == q.bundle
  }

  lemma HandlePin(h: Home, from: Key, enc: Option<Key>, plain: Option<Inner>, p: Key)
    requires from in h.peers && p in h.peers
    ensures var h' := HandleCiphertext(h, from, enc, plain).0; p in h'.peers && SamePin(h.peers[p], h'.peers[p])
  {
    if enc.Some? {
      var h1 := h.(peers := h.peers[from := Windowed(h.peers[from], h.now)]);
      HandleIs(h, from, enc, plain);
      IngestFrame(h1, enc, plain);
      hide HandleCiphertext, Ingest;
    }
  }

  lemma FramePin(h: Home, from: Key, frame: Frame, p: Key)
    requires p in h.peers
    ensures var h' := AcceptFrame(h, from, frame).0; p in h'.peers && SamePin(h.peers[p], h'.peers[p])
  {
    hide HandleCiphertext;
    if from in h.peers && frame.payload.Ciphertext? {
      HandlePin(MarkPeer(h, from, h.peers[from].(lastRx := frame.counter)), from, frame.payload.enc, frame.payload.plain, p);
    }
  }

  lemma PinOpsPin(h: Home, op: Op, p: Key)
    requires p in h.peers && (op.OpPin? || op.OpRefuse? || op.OpRotateSign?)
    ensures p in Step(h, op).peers && PinMoves(h, op, h.peers[p], Step(h, op).peers[p], p)
  {
    hide Register, RegisterFromCard, ObserveBinding, NoteMembership, IngestRevocation, RegisterShare, MintContact, RotateContact;
    hide PublishPrekey, FetchPrekey, SweepFor, Sweep, Ingest, AppendInner, Gc, Ack, Enqueue, DeferOutbound, SetOutbound, AcceptFrame;
    hide Pin, Refuse, RotateSign, ResetLink, TakeFrame;
    match op
    case OpPin(id, b, v) => PinIs(h, id, b, v);
    case OpRefuse(id) => RefuseIs(h, id);
    case OpRotateSign(id, b, v) => RotateIs(h, id, b, v);
  }

  lemma PinIs(h: Home, id: Key, b: Blob, v: bool)
    ensures Pin(h, id, b, v).peers
            == if !v || id == h.serverId then h.peers
               else h.peers[id := if id in h.peers then h.peers[id].(bundle := b) else Peer(b, false, 0, 1, false, 0, 0, map[])]
  {
    MarkIs(h, id, if id in h.peers then h.peers[id].(bundle := b) else Peer(b, false, 0, 1, false, 0, 0, map[]));
    hide MarkPeer;
  }

  lemma MarkIs(h: Home, id: Key, q: Peer)
    ensures MarkPeer(h, id, q).peers == h.peers[id := q]
  {
  }

  lemma RefuseIs(h: Home, id: Key)
    ensures Refuse(h, id).peers == if id in h.peers then h.peers[id := h.peers[id].(refused := true)] else h.peers
  {
  }

  lemma RotateIs(h: Home, id: Key, b: Blob, v: bool)
    ensures RotateSign(h, id, b, v).peers == if id in h.peers && v then h.peers[id := h.peers[id].(bundle := b)] else h.peers
  {
  }

  lemma LinkOpsPin(h: Home, op: Op, p: Key)
    requires p in h.peers && (op.OpResetLink? || op.OpTakeFrame? || op.OpHelloDone?)
    ensures p in Step(h, op).peers && SamePin(h.peers[p], Step(h, op).peers[p])
  {
    hide Register, RegisterFromCard, ObserveBinding, NoteMembership, IngestRevocation, RegisterShare, MintContact, RotateContact;
    hide PublishPrekey, FetchPrekey, SweepFor, Sweep, Ingest, AppendInner, Gc, Ack, Enqueue, DeferOutbound, SetOutbound, AcceptFrame;
    hide Pin, Refuse, RotateSign, ResetLink, TakeFrame;
    match op
    case OpResetLink(id) => ResetPin(h, id, p);
    case OpTakeFrame(id, payload) => TakePin(h, id, payload, p);
    case OpHelloDone(id) => HelloPin(h, id, p); hide Step;
  }

  lemma ResetPin(h: Home, id: Key, p: Key)
    requires p in h.peers
    ensures p in ResetLink(h, id).peers && SamePin(h.peers[p], ResetLink(h, id).peers[p])
  {
  }

  lemma TakePin(h: Home, id: Key, payload: Payload, p: Key)
    requires p in h.peers
    ensures p in TakeFrame(h, id, payload).0.peers && SamePin(h.peers[p], TakeFrame(h, id, payload).0.peers[p])
  {
  }

  lemma HelloPin(h: Home, id: Key, p: Key)
    requires p in h.peers
    ensures var h' := Step(h, OpHelloDone(id)); p in h'.peers && SamePin(h.peers[p], h'.peers[p])
  {
    hide Register, RegisterFromCard, ObserveBinding, NoteMembership, IngestRevocation, RegisterShare, MintContact, RotateContact;
    hide PublishPrekey, FetchPrekey, SweepFor, Sweep, Ingest, AppendInner, Gc, Ack, Enqueue, DeferOutbound, SetOutbound, AcceptFrame;
    hide Pin, Refuse, RotateSign, ResetLink, TakeFrame;
  }

  lemma StepPin(h: Home, op: Op, p: Key)
    requires p in h.peers
    ensures p in Step(h, op).peers && PinMoves(h, op, h.peers[p], Step(h, op).peers[p], p)
  {
    hide Step, AcceptFrame;
    if op.OpAcceptFrame? {
      FrameStep(h, op);
      FramePin(h, op.peer, op.frame, p);
    } else if op.OpPin? || op.OpRefuse? || op.OpRotateSign? {
      PinOpsPin(h, op, p);
    } else if op.OpResetLink? || op.OpTakeFrame? || op.OpHelloDone? {
      LinkOpsPin(h, op, p);
    } else if op.OpTick? || op.OpRegister? || op.OpRegisterCard? || op.OpObserveBinding? || op.OpNoteMembership? || op.OpRevoke? {
      IdentityOpsKeepPeers(h, op);
    } else if op.OpRegisterShare? || op.OpMintContact? || op.OpRotateContact? || op.OpPublishPrekey? || op.OpFetchPrekey?
              || op.OpSweepFor? || op.OpSweep? {
      TokenOpsKeepPeers(h, op);
    } else {
      MailOpsKeepPeers(h, op);
    }
  }

  /**
   A peer is refused exactly if it was or somebody refused it since, and then for good: whatever frame it sends from then
   on is turned away and changes nothing. Its bundle is the last verified one.
   */
  lemma {:induction false} RefusedForGood(hs: seq<Home>, ops: seq<Op>, p: Key, i: nat, j: nat, frame: Frame)
    requires IsRun(hs, ops) && i <= j < |hs| && p in hs[i].peers
    ensures p in hs[j].peers
    ensures hs[j].peers[p].refused <==> hs[i].peers[p].refused || OpRefuse(p) in ops[i..j]
    ensures hs[j].peers[p].refused ==> AcceptFrame(hs[j], p, frame) == (hs[j], Err(PeerRefused))
    ensures (forall k :: i <= k < j ==> !Bundles(hs[k], ops[k], p)) ==> hs[j].peers[p].bundle == hs[i].peers[p].bundle
    ensures j > i && Bundles(hs[j - 1], ops[j - 1], p) ==> hs[j].peers[p].bundle == ops[j - 1].bundle
    decreases j
  {
    hide Step, Admissible;
    if j > i {
      RefusedForGood(hs, ops, p, i, j - 1, frame);
      StepPin(hs[j - 1], ops[j - 1], p);
      assert ops[i..j] == ops[i..j - 1] + [ops[j - 1]];
    }
    hide HandleCiphertext;
  }
}
