/**
 Runs of the home server: one constructor per mutator, the step function, and the memory
 invariant that every step keeps whatever its arguments are.
 */
module HomeRun {
  import opened Basics
  import opened HomeState

  datatype Op =
    | OpTick(time: nat)
    | OpRegister(id: Key, pk: Key)
    | OpRegisterCard(card: Card, verified: bool)
    | OpObserveBinding(id: Key, binding: Binding, verified: bool)
    | OpNoteMembership(id: Key, group: Key)
    | OpRevoke(id: Key, stmt: Blob, verified: bool)
    | OpRegisterShare(owner: Key, token: Key, ttl: Option<nat>)
    | OpMintContact(owner: Key, token: Key)
    | OpRotateContact(owner: Key, oldToken: Key, confirm: bool, token: Key)
    | OpPublishPrekey(owner: Key, blob: Blob)
    | OpFetchPrekey(token: Key)
    | OpIngest(enc: Option<Key>, plain: Option<Inner>)
    | OpAppend(inner: Inner)
    | OpFetch(owner: Key)
    | OpAck(owner: Key, upTo: U64)
    | OpSweepFor(owner: Key)
    | OpSweep
    | OpPin(peer: Key, bundle: Blob, verified: bool)
    | OpRefuse(peer: Key)
    | OpRotateSign(peer: Key, bundle: Blob, verified: bool)
    | OpResetLink(peer: Key)
    | OpTakeFrame(peer: Key, payload: Payload)
    | OpAcceptFrame(peer: Key, frame: Frame)
    | OpHelloDone(peer: Key)
    | OpEnqueue(outer: Outer)
    | OpDeferOutbound(until: nat)
    | OpEditOutbound(rows: seq<OutboundRow>)

  ghost function Step(h: Home, op: Op): Home {
    match op
    case OpTick(time) => h.(now := time)
    case OpRegister(id, pk) => Register(h, id, pk).0
    case OpRegisterCard(card, v) => RegisterFromCard(h, card, v).0
    case OpObserveBinding(id, b, v) => ObserveBinding(h, id, b, v).0
    case OpNoteMembership(id, g) => NoteMembership(h, id, g)
    case OpRevoke(id, stmt, v) => IngestRevocation(h, id, stmt, v).0
    case OpRegisterShare(o, t, ttl) => RegisterShare(h, o, t, ttl).0
    case OpMintContact(o, t) => MintContact(h, o, t).0
    case OpRotateContact(o, old_, c, t) => RotateContact(h, o, old_, c, t).0
    case OpPublishPrekey(o, b) => PublishPrekey(h, o, b).0
    case OpFetchPrekey(t) => FetchPrekey(h, t).0
    case OpIngest(enc, plain) => Ingest(h, enc, plain).0
    case OpAppend(inner) => AppendInner(h, inner).0
    case OpFetch(o) => Gc(h, o)
    case OpAck(o, u) => Ack(h, o, u).0
    case OpSweepFor(o) => SweepFor(h, o)
    case OpSweep => Sweep(h)
    case OpPin(p, b, v) => Pin(h, p, b, v)
    case OpRefuse(p) => Refuse(h, p)
    case OpRotateSign(p, b, v) => RotateSign(h, p, b, v)
    case OpResetLink(p) => ResetLink(h, p)
    case OpTakeFrame(p, payload) => TakeFrame(h, p, payload).0
    case OpAcceptFrame(p, frame) => AcceptFrame(h, p, frame).0
    case OpHelloDone(p) =>
      if p in h.peers then h.(peers := h.peers[p := h.peers[p].(helloDone := true)]) else h
    case OpEnqueue(outer) => Enqueue(h, outer)
    case OpDeferOutbound(until) => DeferOutbound(h, until)
    case OpEditOutbound(rows) => SetOutbound(h, rows)
  }

  /**
   What memory needs of a caller: tokens are new to this server (the source mints them at random, or takes
   them from a card, and never checks), and a membership names an identity that is registered here.
   */
  ghost predicate Admissible(h: Home, op: Op) {
    match op
    case OpRegisterCard(card, _) => card.shareToken !in Held(h.tokens)
    case OpRegisterShare(_, t, _) => t !in Held(h.tokens)
    case OpMintContact(_, t) => t !in Held(h.tokens)
    case OpRotateContact(_, _, _, t) => t !in Held(h.tokens)
    case OpNoteMembership(id, _) => id in h.mailboxes
    case _ => true
  }

  // ------------------------------------------------------------------ validity

  ghost predicate TokensOk(ts: seq<TokenRow>, mb: map<Key, Mailbox>) {
    && DistinctTokens(ts)
    && forall i :: 0 <= i < |ts| ==> ts[i].kind.mailbox in mb && !mb[ts[i].kind.mailbox].disabled
  }

  ghost predicate MailboxesOk(mb: map<Key, Mailbox>) {
    forall o :: o in mb ==> MailboxOk(mb[o])
  }

  ghost predicate DirectoryOk(dir: map<Key, DirectoryRow>, mb: map<Key, Mailbox>) {
    forall id :: id in dir ==>
      id in mb && dir[id].identityPk == mb[id].ownerPk && dir[id].bindingSeq == dir[id].binding.seqNo
  }

  ghost predicate PrekeysOk(pre: map<Key, seq<Blob>>, mb: map<Key, Mailbox>) {
    forall o :: o in pre ==> o in mb && !mb[o].disabled
  }

  ghost predicate MembershipsOk(mem: map<Key, seq<Key>>, mb: map<Key, Mailbox>) {
    forall o :: o in mem ==> o in mb && NoDup(mem[o])
  }

  ghost predicate Valid(h: Home) {
    && MailboxesOk(h.mailboxes)
    && TokensOk(h.tokens, h.mailboxes)
    && DirectoryOk(h.directory, h.mailboxes)
    && PrekeysOk(h.prekeys, h.mailboxes)
    && MembershipsOk(h.memberships, h.mailboxes)
  }

  // -------------------------------------------------------------- byte counts

  lemma {:induction false} BytesRemove(rows: map<nat, StoredEnvelope>, s: nat)
    requires s in rows
    ensures Bytes(rows) == RowSize(rows[s]) + Bytes(rows - {s})
    decreases |rows|
  {
    var p :| p in rows && Bytes(rows) == RowSize(rows[p]) + Bytes(rows - {p});
    if p != s {
      BytesRemove(rows - {p}, s);
      BytesRemove(rows - {s}, p);
      assert rows - {p} - {s} == rows - {s} - {p};
    }
  }

  lemma BytesAdd(rows: map<nat, StoredEnvelope>, s: nat, row: StoredEnvelope)
    requires s !in rows
    ensures Bytes(rows[s := row]) == Bytes(rows) + RowSize(row)
  {
    BytesRemove(rows[s := row], s);
    assert rows[s := row] - {s} == rows;
  }

  lemma {:induction false} BytesMonotone(a: map<nat, StoredEnvelope>, b: map<nat, StoredEnvelope>)
    requires forall s :: s in a ==> s in b && b[s] == a[s]
    ensures Bytes(a) <= Bytes(b)
    decreases |a|
  {
    if a != map[] {
      var s :| s in a;
      BytesRemove(a, s);
      BytesRemove(b, s);
      BytesMonotone(a - {s}, b - {s});
    } else {
      assert Bytes(a) == 0;
    }
  }

  lemma StoreRowOk(m: Mailbox, now: nat, lim: Limits, inner: Inner, size: nat)
    requires MailboxOk(m) && !m.disabled && PaddedLen(inner) == Some(size) && inner.idem !in m.idem
    ensures MailboxOk(StoreRow(m, now, lim, inner, size))
  {
    var row := StoredEnvelope(m.nextSeq, now, EnvelopeExpiry(now, inner.ttl, lim.maxAge), inner);
    BytesAdd(m.rows, m.nextSeq, row);
  }

  lemma TrimOk(m: Mailbox, keep: set<nat>)
    requires MailboxOk(m)
    ensures MailboxOk(Trim(m, keep))
  {
  }

  lemma TokensWithout(ts: seq<TokenRow>, gone: set<Key>)
    requires DistinctTokens(ts)
    ensures DistinctTokens(Without(ts, gone))
  {
    if ts != [] {
      TokensWithout(ts[1..], gone);
      var r := Without(ts[1..], gone);
      assert forall j :: 0 <= j < |r| ==> r[j] in ts[1..];
    }
  }

  lemma TokensWithoutOwner(ts: seq<TokenRow>, owner: Key)
    requires DistinctTokens(ts)
    ensures DistinctTokens(WithoutOwner(ts, owner))
  {
    if ts != [] {
      TokensWithoutOwner(ts[1..], owner);
      var r := WithoutOwner(ts[1..], owner);
      assert forall j :: 0 <= j < |r| ==> r[j] in ts[1..];
    }
  }

  // ----------------------------------------------------- steps keep validity

  /** Replacing one mailbox by a sound one that keeps its key and stays as enabled as it was. */
  lemma PutMailboxValid(h: Home, h1: Home, owner: Key, m: Mailbox)
    requires Valid(h) && MailboxOk(m) && owner in h.mailboxes
    requires m.ownerPk == h.mailboxes[owner].ownerPk && m.disabled == h.mailboxes[owner].disabled
    requires h1 == h.(mailboxes := h.mailboxes[owner := m], dirty := h1.dirty)
    ensures Valid(h1)
  {
    hide MailboxOk;
  }

  lemma TouchTokenValid(h: Home, i: nat, kind: TokenKind)
    requires Valid(h) && i < |h.tokens| && kind.mailbox == h.tokens[i].kind.mailbox
    ensures Valid(TouchToken(h, i, kind))
  {
    hide MailboxOk;
  }

  lemma PushTokenValid(h: Home, token: Key, kind: TokenKind)
    requires Valid(h) && Enabled(h, kind.mailbox) && token !in Held(h.tokens)
    ensures Valid(PushToken(h, token, kind))
  {
    hide MailboxOk;
    assert forall i :: 0 <= i < |h.tokens| ==> h.tokens[i].token in Held(h.tokens);
  }

  lemma DisableValid(h: Home, owner: Key)
    requires Valid(h)
    ensures Valid(Disable(h, owner))
  {
    DisableMailboxesOk(h, owner);
    DisableTokensOk(h, owner);
    hide MailboxOk, MailboxesOk, TokensOk, Trim;
  }

  lemma DisableTokensOk(h: Home, owner: Key)
    requires Valid(h)
    ensures TokensOk(Disable(h, owner).tokens, Disable(h, owner).mailboxes)
  {
    TokensWithoutOwner(h.tokens, owner);
    var h1 := Disable(h, owner);
    assert forall i :: 0 <= i < |h1.tokens| ==> h1.tokens[i] in h.tokens;
    hide MailboxOk, MailboxesOk, DirectoryOk, PrekeysOk, MembershipsOk, Trim;
  }

  lemma DisableMailboxesOk(h: Home, owner: Key)
    requires MailboxesOk(h.mailboxes)
    ensures MailboxesOk(Disable(h, owner).mailboxes)
  {
    hide MailboxOk, Trim, WithoutOwner;
    if owner in h.mailboxes { EmptiedOk(h.mailboxes[owner]); }
  }

  lemma EmptiedOk(m: Mailbox)
    requires MailboxOk(m)
    ensures MailboxOk(Trim(m, {}).(disabled := true))
  {
    assert Restrict(m.rows, {}) == map[];
  }

  lemma DropTokensValid(h: Home, gone: set<Key>)
    requires Valid(h)
    ensures Valid(DropTokens(h, gone))
  {
    hide MailboxOk;
    TokensWithout(h.tokens, gone);
    var h1 := DropTokens(h, gone);
    assert forall i :: 0 <= i < |h1.tokens| ==> h1.tokens[i] in h.tokens;
  }

  lemma HeldWithout(h: Home, gone: set<Key>)
    ensures Held(Without(h.tokens, gone)) <= Held(h.tokens)
  {
    var r := Without(h.tokens, gone);
    assert forall i :: 0 <= i < |r| ==> r[i] in h.tokens;
  }

  lemma MintValid(h: Home, owner: Key, token: Key)
    requires Valid(h) && token !in Held(h.tokens)
    ensures Valid(MintContact(h, owner, token).0)
  {
    hide Valid, DeadFor;
    if Enabled(h, owner) {
      DropTokensValid(h, DeadFor(h, owner));
      HeldWithout(h, DeadFor(h, owner));
      PushTokenValid(SweepFor(h, owner), token, Contact(owner, None, h.now, 0));
    }
  }

  lemma RotateValid(h: Home, owner: Key, oldToken: Key, confirm: bool, token: Key)
    requires Valid(h) && token !in Held(h.tokens)
    ensures Valid(RotateContact(h, owner, oldToken, confirm, token).0)
  {
    hide Valid, MintContact;
    MintValid(h, owner, token);
    var (h1, r) := MintContact(h, owner, token);
    var i := LastIndex(h1.tokens, oldToken);
    if r.Ok? && confirm && i >= 0 && h1.tokens[i].kind.Contact? {
      TouchTokenValid(h1, i, h1.tokens[i].kind.(graceUntil := Some(h1.now + CONTACT_GRACE_SECS)));
    }
  }

  lemma AuthorizeValid(h: Home, token: Key)
    requires Valid(h)
    ensures Valid(AuthorizeAppend(h, token).0)
    ensures AuthorizeAppend(h, token).0.mailboxes == h.mailboxes
    ensures var r := AuthorizeAppend(h, token).1; r.Ok? ==> r.value in h.mailboxes && !h.mailboxes[r.value].disabled
  {
    hide MailboxOk;
    var i := LastIndex(h.tokens, token);
    if i >= 0 && h.tokens[i].kind.Contact? {
      var kind := h.tokens[i].kind;
      var reset := SatSub(h.now, kind.windowStart) >= 60;
      TouchTokenValid(h, i, Contact(kind.mailbox, kind.graceUntil, if reset then h.now else kind.windowStart,
                                    (if reset then 0 else kind.windowCount) + 1));
    }
  }

  lemma BurnValid(h: Home, token: Key)
    requires Valid(h)
    ensures Valid(BurnIfShare(h, token))
  {
    hide Valid;
    var i := LastIndex(h.tokens, token);
    if i >= 0 && h.tokens[i].kind.Share? {
      TouchTokenValid(h, i, h.tokens[i].kind.(burned := true));
    }
  }

  lemma GcValid(h: Home, owner: Key)
    requires Valid(h)
    ensures Valid(Gc(h, owner))
  {
    hide MailboxOk, Retained, Keyed;
    if owner in h.mailboxes {
      var m := h.mailboxes[owner];
      var keep := m.rows.Keys - (m.rows.Keys - Retained(m.rows, h.now, h.limits));
      TrimOk(m, keep);
      if Gc(h, owner) != h { PutMailboxValid(h, Gc(h, owner), owner, Trim(m, keep)); }
    }
  }

  lemma AppendValid(h: Home, inner: Inner)
    requires Valid(h)
    ensures Valid(AppendInner(h, inner).0)
  {
    hide MailboxOk, BurnIfShare, Gc;
    AuthorizeValid(h, inner.capability);
    var (h1, r) := AuthorizeAppend(h, inner.capability);
    if r.Ok? {
      var m := h1.mailboxes[r.value];
      if inner.idem !in m.idem && PaddedLen(inner).Some? {
        var size := PaddedLen(inner).value;
        StoreRowOk(m, h1.now, h1.limits, inner, size);
        var h2 := Store(h1, r.value, inner, size);
        PutMailboxValid(h1, h2, r.value, StoreRow(m, h1.now, h1.limits, inner, size));
        BurnValid(h2, inner.capability);
        GcValid(BurnIfShare(h2, inner.capability), r.value);
      }
    }
  }

  lemma IngestValid(h: Home, enc: Option<Key>, plain: Option<Inner>)
    requires Valid(h)
    ensures Valid(Ingest(h, enc, plain).0)
  {
    hide MailboxOk, AppendInner;
    if plain.Some? { AppendValid(h, plain.value); }
  }

  lemma AckValid(h: Home, owner: Key, upTo: U64)
    requires Valid(h)
    ensures Valid(Ack(h, owner, upTo).0)
  {
    if owner in h.mailboxes && Ack(h, owner, upTo).0 != h {
      PutMailboxValid(h, Ack(h, owner, upTo).0, owner, AckRows(h.mailboxes[owner], upTo));
    }
  }

  lemma ObserveValid(h: Home, id: Key, b: Binding, verified: bool)
    requires Valid(h)
    ensures Valid(ObserveBinding(h, id, b, verified).0)
  {
    hide MailboxOk, Disable;
    if (id in h.directory || id in h.mailboxes) && verified {
      var row := if id in h.directory
                 then h.directory[id].(binding := b, bindingSeq := b.seqNo)
                 else DirectoryRow(h.mailboxes[id].ownerPk, 0, b, b.seqNo, None);
      DisableValid(h.(directory := h.directory[id := row],
                      dirty := h.dirty.(identities := h.dirty.identities + {id})), id);
    }
  }

  lemma RevokeValid(h: Home, id: Key, stmt: Blob, verified: bool)
    requires Valid(h)
    ensures Valid(IngestRevocation(h, id, stmt, verified).0)
  {
    hide MailboxOk, Disable;
    if id in h.directory {
      DisableValid(h.(directory := h.directory[id := h.directory[id].(revocation := Some(stmt))],
                      dirty := h.dirty.(identities := h.dirty.identities + {id})), id);
    }
  }

  lemma AcceptValid(h: Home, from: Key, frame: Frame)
    requires Valid(h)
    ensures Valid(AcceptFrame(h, from, frame).0)
  {
    hide MailboxOk, Ingest;
    if from in h.peers && frame.payload.Ciphertext? {
      var h1 := MarkPeer(h, from, h.peers[from].(lastRx := frame.counter));
      var q := h1.peers[from];
      var q1 := Windowed(q, h1.now);
      IngestValid(h1.(peers := h1.peers[from := q1]), frame.payload.enc, frame.payload.plain);
    }
  }

  /** Handling a ciphertext, branch by branch. */
  lemma HandleIs(h: Home, from: Key, enc: Option<Key>, plain: Option<Inner>)
    requires from in h.peers
    ensures var p1 := Windowed(h.peers[from], h.now);
            var h1 := h.(peers := h.peers[from := p1]);
            var (h2, r) := Ingest(h1, enc, plain);
            HandleCiphertext(h, from, enc, plain)
            == if enc.None? then (h, Fail)
               else if p1.windowOk >= PEER_RATE_PER_SEC then (h1, Fail)
               else if enc.value in p1.seen then (h1, OkSeq(p1.seen[enc.value]))
               else if r.Err? then (h2, Fail)
               else (h2.(peers := h2.peers[from := Noted(p1, enc.value, r.value)]), OkSeq(r.value))
  {
    hide Ingest;
  }

  lemma RegisterValid(h: Home, id: Key, pk: Key)
    requires Valid(h)
    ensures Valid(Register(h, id, pk).0)
  {
    assert MailboxOk(NewMailbox(pk));
    hide MailboxOk;
  }

  lemma RegisterCardValid(h: Home, card: Card, verified: bool)
    requires Valid(h) && card.shareToken !in Held(h.tokens)
    ensures Valid(RegisterFromCard(h, card, verified).0)
  {
    hide MailboxOk;
    RegisterValid(h, card.id, card.identityPk);
    var (h1, r) := Register(h, card.id, card.identityPk);
    if r.Ok? {
      var row := DirectoryRow(card.identityPk, card.revocationPk, card.binding, card.binding.seqNo, None);
      var h2 := h1.(directory := h1.directory[card.id := row]);
      PushTokenValid(h2, card.shareToken, Share(card.id, h2.now + SHARE_TTL_DEFAULT, false, None));
    }
  }

  lemma NoteMembershipValid(h: Home, id: Key, group: Key)
    requires Valid(h) && id in h.mailboxes
    ensures Valid(NoteMembership(h, id, group))
  {
    hide MailboxesOk, TokensOk, DirectoryOk, PrekeysOk;
  }

  lemma PublishValid(h: Home, owner: Key, blob: Blob)
    requires Valid(h)
    ensures Valid(PublishPrekey(h, owner, blob).0)
  {
    hide MailboxesOk, TokensOk, DirectoryOk, MembershipsOk;
  }

  lemma FetchPrekeyValid(h: Home, token: Key)
    requires Valid(h)
    ensures Valid(FetchPrekey(h, token).0)
  {
    hide MailboxesOk, DirectoryOk, MembershipsOk, LastIndex;
  }

  lemma TokenOpsValid(h: Home, op: Op)
    requires Valid(h) && Admissible(h, op)
    requires op.OpRegisterShare? || op.OpMintContact? || op.OpRotateContact? || op.OpFetchPrekey?
             || op.OpSweepFor? || op.OpSweep? || op.OpRegisterCard?
    ensures Valid(Step(h, op))
  {
    hide MailboxesOk, TokensOk, DirectoryOk, DeadFor, DeadTokens, DropTokens, MintContact, RegisterFromCard,
         RotateContact, FetchPrekey, PushToken;
    match op
    case OpRegisterCard(card, v) => RegisterCardValid(h, card, v);
    case OpRegisterShare(o, t, ttl) =>
      if Enabled(h, o) {
        PushTokenValid(h, t, Share(o, h.now + (if ttl.Some? then ttl.value else SHARE_TTL_DEFAULT), false, None));
      }
    case OpMintContact(o, t) => MintValid(h, o, t);
    case OpRotateContact(o, a, c, t) => RotateValid(h, o, a, c, t);
    case OpFetchPrekey(t) => FetchPrekeyValid(h, t);
    case OpSweepFor(o) => DropTokensValid(h, DeadFor(h, o));
    case OpSweep => DropTokensValid(h, DeadTokens(h));
  }

  /** Every admissible step keeps the memory invariant. */
  lemma StepValid(h: Home, op: Op)
    requires Valid(h) && Admissible(h, op)
    ensures Valid(Step(h, op))
  {
    hide Valid, MintContact, RegisterFromCard, RotateContact, Ingest, AppendInner, Gc, Ack, ObserveBinding,
         IngestRevocation, AcceptFrame, SweepFor, Sweep, FetchPrekey, Register, NoteMembership, PublishPrekey,
         RegisterShare, Enqueue, Held;
    match op
    case OpRegister(id, pk) => RegisterValid(h, id, pk);
    case OpObserveBinding(id, b, v) => ObserveValid(h, id, b, v);
    case OpRevoke(id, stmt, v) => RevokeValid(h, id, stmt, v);
    case OpIngest(enc, plain) => IngestValid(h, enc, plain);
    case OpAppend(inner) => AppendValid(h, inner);
    case OpFetch(o) => GcValid(h, o);
    case OpAck(o, u) => AckValid(h, o, u);
    case OpAcceptFrame(p, frame) => AcceptValid(h, p, frame);
    case OpEnqueue(outer) => EnqueueValid(h, outer);
    case OpNoteMembership(id, g) => NoteMembershipValid(h, id, g);
    case OpPublishPrekey(o, b) => PublishValid(h, o, b);
    case _ =>
      hide Step;
      if op.OpRegisterShare? || op.OpMintContact? || op.OpRotateContact? || op.OpFetchPrekey?
         || op.OpSweepFor? || op.OpSweep? || op.OpRegisterCard? {
        TokenOpsValid(h, op);
      } else {
        LinkOpsValid(h, op);
      }
  }

  lemma EnqueueValid(h: Home, outer: Outer)
    requires Valid(h)
    ensures Valid(Enqueue(h, outer))
  {
    IngestValid(h, outer.enc, outer.plain);
    hide MailboxesOk, TokensOk, DirectoryOk, PrekeysOk, MembershipsOk, Ingest;
  }

  /** Operations that touch neither mailboxes nor capabilities. */
  predicate LinkOp(op: Op) {
    op.OpTick? || op.OpPin? || op.OpRefuse? || op.OpRotateSign? || op.OpResetLink? || op.OpTakeFrame? || op.OpHelloDone?
    || op.OpDeferOutbound? || op.OpEditOutbound?
  }

  lemma LinkOpsValid(h: Home, op: Op)
    requires Valid(h) && LinkOp(op)
    ensures Valid(Step(h, op))
  {
    hide MailboxesOk, TokensOk, DirectoryOk, PrekeysOk, MembershipsOk;
  }
}
