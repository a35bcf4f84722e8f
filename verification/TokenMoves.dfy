/** What one step of the server can do to one capability and to one prekey queue. */
module TokenMoves {
  import opened Basics
  import opened HomeState
  import opened HomeRun
  import opened HomeJournal

  /** The envelope that this step tries to append, if it gets that far. */
  function Attempt(h: Home, op: Op): Option<Inner> {
    match op
    case OpAppend(inner) => Some(inner)
    case OpIngest(enc, plain) => Reaches(h, enc, plain)
    case OpEnqueue(outer) => if outer.dest == h.serverId then Reaches(h, outer.enc, outer.plain) else None
    case OpAcceptFrame(peer, frame) =>
      if peer in h.peers && !h.peers[peer].refused && frame.counter == h.peers[peer].lastRx + 1
         && frame.payload.Ciphertext? && frame.payload.enc.Some?
         && Windowed(h.peers[peer], h.now).windowOk < PEER_RATE_PER_SEC
         && frame.payload.enc.value !in h.peers[peer].seen
      then Reaches(h, frame.payload.enc, frame.payload.plain) else None
    case _ => None
  }

  function Reaches(h: Home, enc: Option<Key>, plain: Option<Inner>): Option<Inner> {
    if enc.Some? && enc.value !in h.seen then plain else None
  }

  /** Would this envelope end up as a new row? */
  predicate StoresRow(h: Home, inner: Inner) {
    var r := AuthorizeAppend(h, inner.capability).1;
    r.Ok? && r.value in h.mailboxes && inner.idem !in h.mailboxes[r.value].idem && PaddedLen(inner).Some?
  }

  /** A contact capability after an authorised append. */
  function Charged(kind: TokenKind, now: nat): TokenKind
    requires kind.Contact?
  {
    if SatSub(now, kind.windowStart) >= 60 then kind.(windowStart := now, windowCount := 1)
    else kind.(windowCount := kind.windowCount + 1)
  }

  predicate Chargeable(kind: TokenKind, now: nat) {
    && kind.Contact?
    && !(kind.graceUntil.Some? && now >= kind.graceUntil.value)
    && (SatSub(now, kind.windowStart) >= 60 || kind.windowCount < RATE_PER_MIN)
  }

  /** What an append attempt does to the capability it names. */
  function AppendKind(h: Home, inner: Inner, t: Key, kind: TokenKind): TokenKind {
    if inner.capability != t then kind
    else if kind.Share? then (if StoresRow(h, inner) then kind.(burned := true) else kind)
    else if Chargeable(kind, h.now) then Charged(kind, h.now)
    else kind
  }

  /** What one step does to a capability that survives it. */
  function NextKind(h: Home, op: Op, t: Key, kind: TokenKind): TokenKind {
    match op
    case OpFetchPrekey(token) =>
      if token == t && ShareUsable(kind, h.now) && kind.reserved.None?
         && kind.mailbox in h.prekeys && h.prekeys[kind.mailbox] != []
      then kind.(reserved := Some(h.prekeys[kind.mailbox][0])) else kind
    case OpRotateContact(owner, oldToken, confirm, _) =>
      if t == oldToken && confirm && kind.Contact? && kind.mailbox == owner && Enabled(h, owner)
      then kind.(graceUntil := Some(h.now + CONTACT_GRACE_SECS)) else kind
    case _ => match Attempt(h, op) case Some(inner) => AppendKind(h, inner, t, kind) case None => kind
  }

  /** The capability a step creates. */
  function Mints(h: Home, op: Op): Option<TokenRow> {
    match op
    case OpRegisterShare(o, t, ttl) =>
      if RegisterShare(h, o, t, ttl).1.Ok?
      then Some(TokenRow(t, Share(o, h.now + (if ttl.Some? then ttl.value else SHARE_TTL_DEFAULT), false, None))) else None
    case OpRegisterCard(card, v) =>
      if v && card.binding.serverId == h.serverId && card.id !in h.mailboxes
      then Some(TokenRow(card.shareToken, Share(card.id, h.now + SHARE_TTL_DEFAULT, false, None))) else None
    case OpMintContact(o, t) => if Enabled(h, o) then Some(TokenRow(t, Contact(o, None, h.now, 0))) else None
    case OpRotateContact(o, replaced, confirm, t) =>
      if !Enabled(h, o) then None
      else Some(TokenRow(t, Contact(o, if confirm && replaced == t then Some(h.now + CONTACT_GRACE_SECS) else None, h.now, 0)))
    case _ => None
  }

  /** How a capability's row may change in a step. */
  ghost predicate Moves(h: Home, op: Op, t: Key, before: Option<TokenKind>, after: Option<TokenKind>) {
    match after
    case None => true
    case Some(kind) =>
      if before.Some? then kind == NextKind(h, op, t, before.value)
      else Mints(h, op) == Some(TokenRow(t, kind))
  }

  lemma MemTokenSet(ts: seq<TokenRow>, i: nat, kind: TokenKind, t: Key)
    requires DistinctTokens(ts) && i < |ts|
    ensures MemToken(SetKind(ts, i, kind), t) == if t == ts[i].token then Some(kind) else MemToken(ts, t)
    ensures DistinctTokens(SetKind(ts, i, kind))
  {
    var us := SetKind(ts, i, kind);
    if t == ts[i].token {
      MemTokenAt(us, i);
    } else {
      forall x: TokenRow | x.token == t ensures x in ts <==> x in us {
        if x in ts { var k :| 0 <= k < |ts| && ts[k] == x; assert us[k] == x; }
      }
      MemTokenSame(ts, us, t);
    }
  }

  lemma MemTokenPush(ts: seq<TokenRow>, row: TokenRow, t: Key)
    requires DistinctTokens(ts) && row.token !in Held(ts)
    ensures MemToken(ts + [row], t) == if t == row.token then Some(row.kind) else MemToken(ts, t)
    ensures DistinctTokens(ts + [row])
    ensures MemToken(ts, row.token) == None
  {
    assert forall i :: 0 <= i < |ts| ==> ts[i].token in Held(ts);
    assert DistinctTokens(ts + [row]);
    if t == row.token { MemTokenAt(ts + [row], |ts|); } else { MemTokenSame(ts, ts + [row], t); }
  }

  /** The two ends of the list agree when tokens are distinct. */
  lemma LastIsFirst(ts: seq<TokenRow>, t: Key)
    requires DistinctTokens(ts)
    ensures var i := LastIndex(ts, t);
            (i >= 0 ==> MemToken(ts, t) == Some(ts[i].kind)) && (i < 0 ==> MemToken(ts, t) == None)
  {
    var i := LastIndex(ts, t);
    if i >= 0 { MemTokenAt(ts, i); }
  }

  // ---------------------------------------------------------------- appending

  lemma AuthorizeToken(h: Home, token: Key, t: Key)
    requires DistinctTokens(h.tokens)
    ensures MemToken(AuthorizeAppend(h, token).0.tokens, t)
            == match MemToken(h.tokens, t)
               case None => None
               case Some(k) => Some(if t == token && k.Contact? && Chargeable(k, h.now) then Charged(k, h.now) else k)
    ensures DistinctTokens(AuthorizeAppend(h, token).0.tokens)
  {
    LastIsFirst(h.tokens, token);
    var i := LastIndex(h.tokens, token);
    if i >= 0 && Chargeable(h.tokens[i].kind, h.now) {
      MemTokenSet(h.tokens, i, Charged(h.tokens[i].kind, h.now), t);
    }
    hide LastIndex, MemToken;
  }

  lemma BurnToken(h: Home, token: Key, t: Key)
    requires DistinctTokens(h.tokens)
    ensures MemToken(BurnIfShare(h, token).tokens, t)
            == match MemToken(h.tokens, t)
               case None => None
               case Some(k) => Some(if t == token && k.Share? then k.(burned := true) else k)
    ensures DistinctTokens(BurnIfShare(h, token).tokens)
  {
    LastIsFirst(h.tokens, token);
    var i := LastIndex(h.tokens, token);
    if i >= 0 && h.tokens[i].kind.Share? {
      MemTokenSet(h.tokens, i, h.tokens[i].kind.(burned := true), t);
    }
    hide LastIndex, MemToken;
  }

  lemma GcTokens(h: Home, owner: Key)
    ensures Gc(h, owner).tokens == h.tokens && Gc(h, owner).prekeys == h.prekeys && Gc(h, owner).now == h.now
  {
    hide Retained, Trim, Keyed;
  }

  lemma AppendToken(h: Home, inner: Inner, t: Key)
    requires Valid(h)
    ensures var h1 := AppendInner(h, inner).0;
            && MemToken(h1.tokens, t) == (match MemToken(h.tokens, t)
                                          case None => None
                                          case Some(k) => Some(AppendKind(h, inner, t, k)))
            && h1.prekeys == h.prekeys && h1.now == h.now
  {
    hide MailboxesOk, DirectoryOk, PrekeysOk, MembershipsOk, MemToken, LastIndex, Gc, BurnIfShare, Store;
    AuthorizeValid(h, inner.capability);
    AuthorizeToken(h, inner.capability, t);
    AuthorizeShape(h, inner.capability);
    var (h1, r) := AuthorizeAppend(h, inner.capability);
    hide AuthorizeAppend;
    if r.Ok? && inner.idem !in h1.mailboxes[r.value].idem && PaddedLen(inner).Some? {
      var h2 := Store(h1, r.value, inner, PaddedLen(inner).value);
      StoreShape(h1, r.value, inner, PaddedLen(inner).value);
      BurnToken(h2, inner.capability, t);
      BurnShape(h2, inner.capability);
      GcTokens(BurnIfShare(h2, inner.capability), r.value);
    }
  }

  lemma StoreShape(h: Home, owner: Key, inner: Inner, size: nat)
    requires owner in h.mailboxes
    ensures var h1 := Store(h, owner, inner, size); h1.tokens == h.tokens && h1.prekeys == h.prekeys && h1.now == h.now
  {
  }

  lemma BurnShape(h: Home, token: Key)
    ensures var h1 := BurnIfShare(h, token); h1.prekeys == h.prekeys && h1.now == h.now
  {
    hide LastIndex;
  }

  lemma AuthorizeShape(h: Home, token: Key)
    ensures var h1 := AuthorizeAppend(h, token).0; h1.prekeys == h.prekeys && h1.now == h.now && h1.mailboxes == h.mailboxes
  {
    hide LastIndex;
  }

  /** Capabilities and queues after a step that appends, whichever way the envelope came in. */
  ghost predicate Appended(h: Home, h': Home, attempt: Option<Inner>, t: Key) {
    && h'.prekeys == h.prekeys
    && h'.now == h.now
    && MemToken(h'.tokens, t) == match MemToken(h.tokens, t)
                                 case None => None
                                 case Some(k) => Some(if attempt.Some? then AppendKind(h, attempt.value, t, k) else k)
  }

  lemma IngestToken(h: Home, enc: Option<Key>, plain: Option<Inner>, t: Key)
    requires Valid(h)
    ensures Appended(h, Ingest(h, enc, plain).0, Reaches(h, enc, plain), t)
  {
    hide Valid, AppendInner, MemToken, AppendKind;
    if enc.Some? && enc.value !in h.seen && plain.Some? { AppendToken(h, plain.value, t); }
  }

  /** Append attempts look only at capabilities, mailboxes and the clock. */
  lemma AppendKindFrame(h: Home, h1: Home, inner: Inner, t: Key, kind: TokenKind)
    requires h1.tokens == h.tokens && h1.mailboxes == h.mailboxes && h1.now == h.now
    ensures AppendKind(h1, inner, t, kind) == AppendKind(h, inner, t, kind)
  {
    hide LastIndex;
  }

  lemma HandleToken(h: Home, from: Key, enc: Option<Key>, plain: Option<Inner>, t: Key)
    requires Valid(h) && from in h.peers
    ensures var p := h.peers[from];
            Appended(h, HandleCiphertext(h, from, enc, plain).0,
                     if enc.Some? && Windowed(p, h.now).windowOk < PEER_RATE_PER_SEC && enc.value !in p.seen
                     then Reaches(h, enc, plain) else None, t)
  {
    hide MailboxesOk, Ingest, MemToken, AppendKind;
    if enc.Some? {
      var h1 := h.(peers := h.peers[from := Windowed(h.peers[from], h.now)]);
      IngestToken(h1, enc, plain, t);
      if plain.Some? && MemToken(h.tokens, t).Some? {
        AppendKindFrame(h, h1, plain.value, t, MemToken(h.tokens, t).value);
      }
    }
  }

  lemma AcceptToken(h: Home, from: Key, frame: Frame, t: Key)
    requires Valid(h)
    ensures Appended(h, AcceptFrame(h, from, frame).0, Attempt(h, OpAcceptFrame(from, frame)), t)
  {
    hide MailboxesOk, HandleCiphertext, MemToken, AppendKind;
    if from in h.peers && frame.payload.Ciphertext? {
      var h1 := MarkPeer(h, from, h.peers[from].(lastRx := frame.counter));
      HandleToken(h1, from, frame.payload.enc, frame.payload.plain, t);
      if frame.payload.plain.Some? && MemToken(h.tokens, t).Some? {
        AppendKindFrame(h, h1, frame.payload.plain.value, t, MemToken(h.tokens, t).value);
      }
    }
  }

  predicate Appends(op: Op) {
    op.OpAppend? || op.OpIngest? || op.OpEnqueue? || op.OpAcceptFrame?
  }

  lemma AppendStepToken(h: Home, op: Op, t: Key)
    requires Valid(h) && Appends(op)
    ensures Appended(h, Step(h, op), Attempt(h, op), t)
  {
    hide Valid, AppendInner, Ingest, AcceptFrame, MemToken, AppendKind, Reaches;
    match op
    case OpAppend(inner) => AppendToken(h, inner, t);
    case OpIngest(enc, plain) => IngestToken(h, enc, plain, t);
    case OpEnqueue(outer) => IngestToken(h, outer.enc, outer.plain, t);
    case OpAcceptFrame(p, frame) => AcceptToken(h, p, frame, t);
  }

  // ------------------------------------------------------------------ minting

  lemma MintToken(h: Home, owner: Key, token: Key, t: Key)
    requires Valid(h) && token !in Held(h.tokens) && Enabled(h, owner)
    ensures var m := MemToken(MintContact(h, owner, token).0.tokens, t);
            if t == token then m == Some(Contact(owner, None, h.now, 0)) && MemToken(h.tokens, t) == None
            else m == None || m == MemToken(h.tokens, t)
    ensures MintContact(h, owner, token).0.prekeys == h.prekeys && MintContact(h, owner, token).0.now == h.now
    ensures DistinctTokens(MintContact(h, owner, token).0.tokens)
  {
    hide MailboxesOk, MemToken, DeadFor;
    var gone := DeadFor(h, owner);
    HeldWithout(h, gone);
    TokensWithout(h.tokens, gone);
    MemTokenWithout(h.tokens, gone, t);
    MemTokenPush(Without(h.tokens, gone), TokenRow(token, Contact(owner, None, h.now, 0)), t);
    MemTokenPush(h.tokens, TokenRow(token, Contact(owner, None, h.now, 0)), t);
    hide Without, Held;
  }

  lemma RotateToken(h: Home, owner: Key, oldToken: Key, confirm: bool, token: Key, t: Key)
    requires Valid(h) && token !in Held(h.tokens)
    ensures var h1 := RotateContact(h, owner, oldToken, confirm, token).0;
            && Moves(h, OpRotateContact(owner, oldToken, confirm, token), t, MemToken(h.tokens, t), MemToken(h1.tokens, t))
            && h1.prekeys == h.prekeys && h1.now == h.now
  {
    hide Valid, Held, MemToken, MintContact, LastIndex;
    if Enabled(h, owner) {
      MintToken(h, owner, token, t);
      MintToken(h, owner, token, oldToken);
      var h1 := MintContact(h, owner, token).0;
      LastIsFirst(h1.tokens, oldToken);
      var i := LastIndex(h1.tokens, oldToken);
      if i >= 0 && h1.tokens[i].kind.Contact? {
        MemTokenSet(h1.tokens, i, h1.tokens[i].kind.(graceUntil := Some(h1.now + CONTACT_GRACE_SECS)), t);
      }
      MintOk(h, owner, token);
    } else {
      MintDenied(h, owner, token);
    }
  }

  lemma MintOk(h: Home, owner: Key, token: Key)
    requires Enabled(h, owner)
    ensures MintContact(h, owner, token).1 == Ok(())
  {
  }

  lemma MintDenied(h: Home, owner: Key, token: Key)
    requires !Enabled(h, owner)
    ensures MintContact(h, owner, token) == (h, Err(Denied))
  {
  }

  lemma PushMoves(h: Home, op: Op, row: TokenRow, t: Key)
    requires Valid(h) && row.token !in Held(h.tokens) && Mints(h, op) == Some(row)
    requires MemToken(h.tokens, t).Some? ==> NextKind(h, op, t, MemToken(h.tokens, t).value) == MemToken(h.tokens, t).value
    ensures Moves(h, op, t, MemToken(h.tokens, t), MemToken(h.tokens + [row], t))
  {
    hide MailboxesOk, DirectoryOk, PrekeysOk, MembershipsOk, MemToken, Mints, NextKind;
    MemTokenPush(h.tokens, row, t);
  }

  lemma FetchToken(h: Home, token: Key, t: Key)
    requires Valid(h)
    ensures Moves(h, OpFetchPrekey(token), t, MemToken(h.tokens, t), MemToken(FetchPrekey(h, token).0.tokens, t))
  {
    hide MailboxesOk, DirectoryOk, MembershipsOk, MemToken;
    LastIsFirst(h.tokens, token);
    var i := LastIndex(h.tokens, token);
    if i >= 0 && h.tokens[i].kind.Share? {
      var kind := h.tokens[i].kind;
      if kind.mailbox in h.prekeys && h.prekeys[kind.mailbox] != [] {
        MemTokenSet(h.tokens, i, kind.(reserved := Some(h.prekeys[kind.mailbox][0])), t);
      }
    }
    hide LastIndex;
  }

  lemma DisableToken(h: Home, owner: Key, t: Key)
    requires DistinctTokens(h.tokens)
    ensures var m := MemToken(Disable(h, owner).tokens, t); m == None || m == MemToken(h.tokens, t)
  {
    hide Trim, MemToken;
    MemTokenWithoutOwner(h.tokens, owner, t);
  }

  lemma ObserveToken(h: Home, id: Key, b: Binding, v: bool, t: Key)
    requires DistinctTokens(h.tokens)
    ensures var m := MemToken(ObserveBinding(h, id, b, v).0.tokens, t); m == None || m == MemToken(h.tokens, t)
  {
    hide MemToken, Disable;
    if id in h.directory || id in h.mailboxes {
      var row := if id in h.directory then h.directory[id].(binding := b, bindingSeq := b.seqNo)
                 else DirectoryRow(h.mailboxes[id].ownerPk, 0, b, b.seqNo, None);
      DisableToken(h.(directory := h.directory[id := row],
                      dirty := h.dirty.(identities := h.dirty.identities + {id})), id, t);
    }
  }

  lemma RevokeToken(h: Home, id: Key, stmt: Blob, v: bool, t: Key)
    requires DistinctTokens(h.tokens)
    ensures var m := MemToken(IngestRevocation(h, id, stmt, v).0.tokens, t); m == None || m == MemToken(h.tokens, t)
  {
    hide MemToken, Disable;
    if id in h.directory {
      DisableToken(h.(directory := h.directory[id := h.directory[id].(revocation := Some(stmt))],
                      dirty := h.dirty.(identities := h.dirty.identities + {id})), id, t);
    }
  }

  predicate KeepsTokens(op: Op) {
    op.OpTick? || op.OpRegister? || op.OpNoteMembership? || op.OpPublishPrekey? || op.OpFetch? || op.OpAck?
    || op.OpPin? || op.OpRefuse? || op.OpRotateSign? || op.OpResetLink? || op.OpTakeFrame? || op.OpHelloDone?
    || op.OpDeferOutbound? || op.OpEditOutbound?
  }

  lemma QuietTokenStep(h: Home, op: Op)
    requires KeepsTokens(op)
    ensures Step(h, op).tokens == h.tokens
  {
    hide Gc, AckRows, NewMailbox;
    if op.OpPin? || op.OpRefuse? || op.OpRotateSign? || op.OpResetLink? || op.OpTakeFrame? || op.OpHelloDone? {
      PeerStepQuiet(h, op);
      hide Step;
    } else if op.OpFetch? {
      GcTokens(h, op.owner);
    }
  }

  predicate SameStores(h: Home, h': Home) {
    h'.tokens == h.tokens && h'.prekeys == h.prekeys && h'.now == h.now && h'.mailboxes == h.mailboxes
  }

  lemma PinQuiet(h: Home, id: Key, bundle: Blob, verified: bool)
    ensures SameStores(h, Pin(h, id, bundle, verified))
    ensures SameStores(h, Refuse(h, id))
    ensures SameStores(h, RotateSign(h, id, bundle, verified))
  {
  }

  lemma PinStepQuiet(h: Home, op: Op)
    requires op.OpPin? || op.OpRefuse? || op.OpRotateSign?
    ensures SameStores(h, Step(h, op))
  {
    hide Register, RegisterFromCard, ObserveBinding, NoteMembership, IngestRevocation, RegisterShare, MintContact, RotateContact;
    hide PublishPrekey, FetchPrekey, SweepFor, Sweep, Ingest, AppendInner, Gc, Ack, Enqueue, DeferOutbound, AcceptFrame;
    hide Pin, Refuse, RotateSign, ResetLink, TakeFrame, SetOutbound;
    match op
    case OpPin(p, bundle, v) => PinQuiet(h, p, bundle, v);
    case OpRefuse(p) => PinQuiet(h, p, 0, false);
    case OpRotateSign(p, bundle, v) => PinQuiet(h, p, bundle, v);
  }

  lemma LinkStepQuiet(h: Home, op: Op)
    requires op.OpResetLink? || op.OpTakeFrame? || op.OpHelloDone?
    ensures Step(h, op).tokens == h.tokens && Step(h, op).prekeys == h.prekeys && Step(h, op).now == h.now
    ensures Step(h, op).mailboxes == h.mailboxes
  {
    hide Register, RegisterFromCard, ObserveBinding, NoteMembership, IngestRevocation, RegisterShare, MintContact, RotateContact;
    hide PublishPrekey, FetchPrekey, SweepFor, Sweep, Ingest, AppendInner, Gc, Ack, Enqueue, DeferOutbound, AcceptFrame;
  }

  lemma PeerStepQuiet(h: Home, op: Op)
    requires op.OpPin? || op.OpRefuse? || op.OpRotateSign? || op.OpResetLink? || op.OpTakeFrame? || op.OpHelloDone?
    ensures Step(h, op).tokens == h.tokens && Step(h, op).prekeys == h.prekeys && Step(h, op).now == h.now
    ensures Step(h, op).mailboxes == h.mailboxes
  {
    hide Step;
    if op.OpPin? || op.OpRefuse? || op.OpRotateSign? { PinStepQuiet(h, op); } else { LinkStepQuiet(h, op); }
  }

  lemma SweepToken(h: Home, op: Op, t: Key)
    requires Valid(h) && (op.OpSweepFor? || op.OpSweep?)
    ensures var m := MemToken(Step(h, op).tokens, t); m == None || m == MemToken(h.tokens, t)
  {
    hide MailboxesOk, MemToken, DeadFor, DeadTokens;
    match op
    case OpSweepFor(o) => MemTokenWithout(h.tokens, DeadFor(h, o), t);
    case OpSweep => MemTokenWithout(h.tokens, DeadTokens(h), t);
  }

  lemma MintStepMoves(h: Home, op: Op, t: Key)
    requires Valid(h) && Admissible(h, op)
    requires op.OpRegisterShare? || op.OpMintContact? || op.OpRotateContact? || op.OpRegisterCard?
    ensures Moves(h, op, t, MemToken(h.tokens, t), MemToken(Step(h, op).tokens, t))
  {
    hide Valid, Held, MemToken, MintContact, RotateContact;
    match op
    case OpRegisterShare(o, x, ttl) =>
      if Mints(h, op).Some? { PushMoves(h, op, Mints(h, op).value, t); }
    case OpRegisterCard(card, v) =>
      if Mints(h, op).Some? { PushMoves(h, op, Mints(h, op).value, t); }
    case OpMintContact(o, x) =>
      if Enabled(h, o) { MintToken(h, o, x, t); } else { MintDenied(h, o, x); }
    case OpRotateContact(o, a, c, x) => RotateToken(h, o, a, c, x, t);
  }

  lemma ShedStepMoves(h: Home, op: Op, t: Key)
    requires Valid(h)
    requires op.OpFetchPrekey? || op.OpObserveBinding? || op.OpRevoke? || op.OpSweepFor? || op.OpSweep?
    ensures Moves(h, op, t, MemToken(h.tokens, t), MemToken(Step(h, op).tokens, t))
  {
    ValidDistinct(h);
    hide Valid, MemToken, FetchPrekey, ObserveBinding, IngestRevocation;
    match op
    case OpFetchPrekey(x) => FetchToken(h, x, t);
    case OpObserveBinding(id, b, v) => ObserveToken(h, id, b, v, t);
    case OpRevoke(id, stmt, v) => RevokeToken(h, id, stmt, v, t);
    case OpSweepFor(_) => hide Step; SweepToken(h, op, t);
    case OpSweep => hide Step; SweepToken(h, op, t);
  }

  /** Every step either drops a capability, moves it as `NextKind` says, or mints it. */
  lemma TokenStep(h: Home, op: Op, t: Key)
    requires Valid(h) && Admissible(h, op)
    ensures Moves(h, op, t, MemToken(h.tokens, t), MemToken(Step(h, op).tokens, t))
  {
    hide Step, MemToken, AppendKind, Valid, Admissible;
    if op.OpRegisterShare? || op.OpMintContact? || op.OpRotateContact? || op.OpRegisterCard? {
      MintStepMoves(h, op, t);
    } else if Appends(op) {
      AppendStepToken(h, op, t);
    } else if KeepsTokens(op) {
      QuietTokenStep(h, op);
    } else {
      ShedStepMoves(h, op, t);
    }
  }

  // ------------------------------------------------------------- prekey queues

  function QueueOf(h: Home, o: Key): seq<Blob> {
    if o in h.prekeys then h.prekeys[o] else []
  }

  datatype Handout = Handout(owner: Key, token: Key, blob: Blob)

  /** The reservation a step makes: a usable share token without one takes the head of its owner's queue. */
  function Reserves(h: Home, op: Op): Option<Handout> {
    if !op.OpFetchPrekey? then None
    else match MemToken(h.tokens, op.token)
         case None => None
         case Some(kind) =>
           if ShareUsable(kind, h.now) && kind.reserved.None? && QueueOf(h, kind.mailbox) != []
           then Some(Handout(kind.mailbox, op.token, QueueOf(h, kind.mailbox)[0])) else None
  }

  function NextQueue(h: Home, op: Op, o: Key): seq<Blob> {
    match op
    case OpPublishPrekey(owner, blob) => if owner == o && Enabled(h, o) then QueueOf(h, o) + [blob] else QueueOf(h, o)
    case OpFetchPrekey(_) =>
      (match Reserves(h, op)
       case Some(r) => if r.owner == o then QueueOf(h, o)[1..] else QueueOf(h, o)
       case None => QueueOf(h, o))
    case _ => QueueOf(h, o)
  }

  lemma DisableQueue(h: Home, owner: Key, o: Key)
    ensures Enabled(Disable(h, owner), o) ==> QueueOf(Disable(h, owner), o) == QueueOf(h, o)
    ensures Enabled(Disable(h, owner), o) ==> Enabled(h, o)
  {
    hide Trim, WithoutOwner;
  }

  lemma ObserveQueue(h: Home, id: Key, b: Binding, v: bool, o: Key)
    ensures Enabled(ObserveBinding(h, id, b, v).0, o) ==> QueueOf(ObserveBinding(h, id, b, v).0, o) == QueueOf(h, o)
  {
    hide Disable;
    if id in h.directory || id in h.mailboxes {
      var row := if id in h.directory then h.directory[id].(binding := b, bindingSeq := b.seqNo)
                 else DirectoryRow(h.mailboxes[id].ownerPk, 0, b, b.seqNo, None);
      DisableQueue(h.(directory := h.directory[id := row],
                      dirty := h.dirty.(identities := h.dirty.identities + {id})), id, o);
    }
  }

  lemma RevokeQueue(h: Home, id: Key, stmt: Blob, v: bool, o: Key)
    ensures Enabled(IngestRevocation(h, id, stmt, v).0, o) ==> QueueOf(IngestRevocation(h, id, stmt, v).0, o) == QueueOf(h, o)
  {
    hide Disable;
    if id in h.directory {
      DisableQueue(h.(directory := h.directory[id := h.directory[id].(revocation := Some(stmt))],
                      dirty := h.dirty.(identities := h.dirty.identities + {id})), id, o);
    }
  }

  lemma FetchQueue(h: Home, token: Key, o: Key)
    requires Valid(h)
    ensures QueueOf(FetchPrekey(h, token).0, o) == NextQueue(h, OpFetchPrekey(token), o)
    ensures FetchPrekey(h, token).1.Ok? ==>
              MemToken(FetchPrekey(h, token).0.tokens, token).Some?
              && MemToken(FetchPrekey(h, token).0.tokens, token).value.Share?
              && MemToken(FetchPrekey(h, token).0.tokens, token).value.reserved == Some(FetchPrekey(h, token).1.value)
  {
    FetchMovesQueue(h, token, o);
    FetchNotes(h, token);
    hide FetchPrekey, NextQueue, QueueOf, MemToken;
  }

  lemma FetchMovesQueue(h: Home, token: Key, o: Key)
    requires Valid(h)
    ensures QueueOf(FetchPrekey(h, token).0, o) == NextQueue(h, OpFetchPrekey(token), o)
  {
    FetchTakesHead(h, token);
    hide FetchPrekey, Reserves, Valid;
  }

  lemma FetchTakesHead(h: Home, token: Key)
    requires Valid(h)
    ensures var r := Reserves(h, OpFetchPrekey(token)); var after := FetchPrekey(h, token).0.prekeys;
            && (r.None? ==> after == h.prekeys)
            && (r.Some? ==> r.value.owner in h.prekeys && h.prekeys[r.value.owner] != []
                            && after == h.prekeys[r.value.owner := h.prekeys[r.value.owner][1..]])
  {
    LastIsFirst(h.tokens, token);
    hide MailboxesOk, DirectoryOk, MembershipsOk, TokensOk, MemToken, LastIndex, ShareUsable, SetKind;
  }

  /** What a successful fetch returns is what the token holds in reserve afterwards. */
  lemma FetchNotes(h: Home, token: Key)
    requires Valid(h)
    ensures FetchPrekey(h, token).1.Ok? ==>
              MemToken(FetchPrekey(h, token).0.tokens, token).Some?
              && MemToken(FetchPrekey(h, token).0.tokens, token).value.Share?
              && MemToken(FetchPrekey(h, token).0.tokens, token).value.reserved == Some(FetchPrekey(h, token).1.value)
  {
    hide MailboxesOk, DirectoryOk, MembershipsOk, MemToken;
    LastIsFirst(h.tokens, token);
    var i := LastIndex(h.tokens, token);
    hide LastIndex;
    if i >= 0 && h.tokens[i].kind.Share? {
      var kind := h.tokens[i].kind;
      if kind.mailbox in h.prekeys && h.prekeys[kind.mailbox] != [] {
        MemTokenSet(h.tokens, i, kind.(reserved := Some(h.prekeys[kind.mailbox][0])), token);
      }
    }
  }

  predicate KeepsQueues(op: Op) {
    !(op.OpPublishPrekey? || op.OpFetchPrekey? || op.OpObserveBinding? || op.OpRevoke? || Appends(op))
  }

  lemma QuietQueueTokens(h: Home, op: Op)
    requires op.OpRegisterShare? || op.OpMintContact? || op.OpRotateContact? || op.OpSweepFor? || op.OpSweep?
             || op.OpRegisterCard? || op.OpRegister?
    ensures Step(h, op).prekeys == h.prekeys
  {
    hide DeadFor, DeadTokens, Without, NewMailbox, RotateContact, RegisterFromCard, MintContact;
    hide ObserveBinding, NoteMembership, IngestRevocation, Pin, Refuse, RotateSign, ResetLink, TakeFrame, AcceptFrame;
    hide PublishPrekey, FetchPrekey, Ingest, AppendInner, Gc, Ack, Enqueue, DeferOutbound, SetOutbound;
    match op
    case OpRotateContact(o, a, c, t) => RotateShape(h, o, a, c, t);
    case OpMintContact(o, t) => MintShape(h, o, t);
    case OpRegisterCard(card, v) => CardShape(h, card, v);
    case _ =>
  }

  lemma MintShape(h: Home, owner: Key, token: Key)
    ensures MintContact(h, owner, token).0.prekeys == h.prekeys
  {
    hide DeadFor, Without;
  }

  lemma CardShape(h: Home, card: Card, verified: bool)
    ensures RegisterFromCard(h, card, verified).0.prekeys == h.prekeys
  {
  }

  lemma RotateShape(h: Home, owner: Key, oldToken: Key, confirm: bool, token: Key)
    ensures RotateContact(h, owner, oldToken, confirm, token).0.prekeys == h.prekeys
  {
    hide DeadFor, Without, LastIndex;
  }

  lemma QuietQueueStep(h: Home, op: Op)
    requires KeepsQueues(op)
    ensures Step(h, op).prekeys == h.prekeys
  {
    hide Gc, AckRows, NewMailbox, LastIndex;
    if op.OpPin? || op.OpRefuse? || op.OpRotateSign? || op.OpResetLink? || op.OpTakeFrame? || op.OpHelloDone? {
      PeerStepQuiet(h, op);
      hide Step;
    } else if op.OpFetch? {
      GcTokens(h, op.owner);
    } else if op.OpTick? || op.OpNoteMembership? || op.OpAck? || op.OpDeferOutbound? || op.OpEditOutbound? {
    } else {
      hide Step;
      QuietQueueTokens(h, op);
    }
  }

  /** Every step moves the queue of a mailbox that stays enabled as `NextQueue` says. */
  lemma QueueStep(h: Home, op: Op, o: Key)
    requires Valid(h) && Enabled(Step(h, op), o)
    ensures QueueOf(Step(h, op), o) == NextQueue(h, op, o)
  {
    hide Step;
    if KeepsQueues(op) {
      QuietQueueStep(h, op);
    } else if Appends(op) {
      AppendStepToken(h, op, 0);
    } else {
      QueueStepMoves(h, op, o);
    }
  }

  lemma QueueStepMoves(h: Home, op: Op, o: Key)
    requires Valid(h) && Enabled(Step(h, op), o) && !KeepsQueues(op) && !Appends(op)
    ensures QueueOf(Step(h, op), o) == NextQueue(h, op, o)
  {
    hide Valid, MemToken, FetchPrekey, ObserveBinding, IngestRevocation, Register, RegisterFromCard, NoteMembership;
    hide RegisterShare, MintContact, RotateContact, SweepFor, Sweep, Ingest, AppendInner, Gc, Ack, Enqueue, AcceptFrame;
    hide Pin, Refuse, RotateSign, ResetLink, TakeFrame, DeferOutbound, SetOutbound;
    match op
    case OpPublishPrekey(_, _) =>
    case OpFetchPrekey(x) => FetchQueue(h, x, o);
    case OpObserveBinding(id, b, v) => ObserveQueue(h, id, b, v, o);
    case OpRevoke(id, stmt, v) => RevokeQueue(h, id, stmt, v, o);
  }
}
