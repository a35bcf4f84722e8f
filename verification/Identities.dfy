/**
 Identities over whole runs: the directory holds the newest verified binding and the last verified revocation, a mailbox
 is closed exactly by what closes it, and memberships are those noted since the last revocation.
 */
module Identities {
  import opened Basics
  import opened HomeState
  import opened HomeRun
  import opened HomeJournal
  import opened Retention
  import opened TokenMoves
  import opened Lifetimes
  import opened TokenLives

  // ----------------------------------------------------------- what leaves identities alone

  predicate SameBooks(h: Home, h': Home) {
    h'.directory == h.directory && h'.memberships == h.memberships
  }

  lemma AppendBooks(h: Home, inner: Inner)
    ensures SameBooks(h, AppendInner(h, inner).0)
  {
    AuthorizeBooks(h, inner.capability);
    var (h1, r) := AuthorizeAppend(h, inner.capability);
    hide AuthorizeAppend;
    if r.Ok? && r.value in h1.mailboxes && PaddedLen(inner).Some? {
      var h2 := Store(h1, r.value, inner, PaddedLen(inner).value);
      assert SameBooks(h1, h2);
      hide Store;
      BurnBooks(h2, inner.capability);
      hide BurnIfShare;
      GcBooks(BurnIfShare(h2, inner.capability), r.value);
    }
    hide Gc;
  }

  lemma AuthorizeBooks(h: Home, token: Key)
    ensures SameBooks(h, AuthorizeAppend(h, token).0)
  {
    hide LastIndex, SetKind;
  }

  lemma BurnBooks(h: Home, token: Key)
    ensures SameBooks(h, BurnIfShare(h, token))
  {
    hide LastIndex, SetKind;
  }

  lemma GcBooks(h: Home, o: Key)
    ensures SameBooks(h, Gc(h, o))
  {
    hide Retained, Trim, Keyed;
  }

  lemma IngestBooks(h: Home, enc: Option<Key>, plain: Option<Inner>)
    ensures SameBooks(h, Ingest(h, enc, plain).0)
  {
    if plain.Some? { AppendBooks(h, plain.value); }
    hide AppendInner;
  }

  lemma AcceptBooks(h: Home, from: Key, frame: Frame)
    ensures SameBooks(h, AcceptFrame(h, from, frame).0)
  {
    hide Ingest;
    if from in h.peers && frame.payload.Ciphertext? {
      var h1 := MarkPeer(h, from, h.peers[from].(lastRx := frame.counter));
      IngestBooks(h1.(peers := h1.peers[from := Windowed(h1.peers[from], h1.now)]), frame.payload.enc, frame.payload.plain);
    }
  }

  lemma AppendsBooks(h: Home, op: Op)
    requires Appends(op)
    ensures SameBooks(h, Step(h, op))
  {
    hide AppendInner, Ingest, AcceptFrame, SameBooks;
    match op
    case OpAppend(inner) => AppendBooks(h, inner);
    case OpIngest(enc, plain) => IngestBooks(h, enc, plain);
    case OpEnqueue(outer) => EnqueueBooks(h, outer); hide Enqueue;
    case OpAcceptFrame(p, frame) => AcceptBooks(h, p, frame);
  }

  lemma EnqueueBooks(h: Home, outer: Outer)
    ensures SameBooks(h, Enqueue(h, outer))
  {
    IngestBooks(h, outer.enc, outer.plain);
    hide Ingest;
  }

  lemma MintsBooks(h: Home, op: Op)
    requires op.OpRegisterShare? || op.OpMintContact? || op.OpRotateContact?
    ensures SameBooks(h, Step(h, op))
  {
    hide RotateContact, DeadFor, Without;
    match op
    case OpRotateContact(o, a, c, t) => RotateBooks(h, o, a, c, t);
    case _ =>
  }

  lemma RotateBooks(h: Home, owner: Key, oldToken: Key, confirm: bool, token: Key)
    ensures SameBooks(h, RotateContact(h, owner, oldToken, confirm, token).0)
  {
    hide DeadFor, Without, LastIndex, SetKind;
  }

  lemma PrekeysBooks(h: Home, op: Op)
    requires op.OpPublishPrekey? || op.OpFetchPrekey? || op.OpSweepFor? || op.OpSweep?
    ensures SameBooks(h, Step(h, op))
  {
    hide DeadFor, DeadTokens, Without, LastIndex, ShareUsable, SetKind;
  }

  lemma LinksBooks(h: Home, op: Op)
    requires op.OpResetLink? || op.OpTakeFrame? || op.OpHelloDone?
    ensures SameBooks(h, Step(h, op))
  {
    hide Register, RegisterFromCard, ObserveBinding, NoteMembership, IngestRevocation, RegisterShare, MintContact, RotateContact;
    hide PublishPrekey, FetchPrekey, SweepFor, Sweep, Ingest, AppendInner, Gc, Ack, Enqueue, DeferOutbound, SetOutbound, AcceptFrame;
  }

  lemma PinsBooks(h: Home, op: Op)
    requires op.OpPin? || op.OpRefuse? || op.OpRotateSign?
    ensures SameBooks(h, Step(h, op))
  {
    hide Register, RegisterFromCard, ObserveBinding, NoteMembership, IngestRevocation, RegisterShare, MintContact, RotateContact;
    hide PublishPrekey, FetchPrekey, SweepFor, Sweep, Ingest, AppendInner, Gc, Ack, Enqueue, DeferOutbound, SetOutbound, AcceptFrame;
    hide Pin, Refuse, RotateSign, ResetLink, TakeFrame;
    match op
    case OpPin(id, b, v) => PinBooks(h, id, b, v);
    case OpRefuse(id) => RefuseBooks(h, id);
    case OpRotateSign(id, b, v) => SignBooks(h, id, b, v);
  }

  lemma PinBooks(h: Home, id: Key, b: Blob, v: bool)
    ensures SameBooks(h, Pin(h, id, b, v))
  {
  }

  lemma RefuseBooks(h: Home, id: Key)
    ensures SameBooks(h, Refuse(h, id))
  {
  }

  lemma SignBooks(h: Home, id: Key, b: Blob, v: bool)
    ensures SameBooks(h, RotateSign(h, id, b, v))
  {
  }

  lemma MailBooks(h: Home, op: Op)
    requires op.OpFetch? || op.OpAck? || op.OpDeferOutbound? || op.OpEditOutbound? || op.OpTick?
    ensures SameBooks(h, Step(h, op))
  {
    hide Gc, Ack, DeferOutbound;
    match op
    case OpFetch(o) => GcBooks(h, o);
    case OpAck(o, u) => AckBooks(h, o, u);
    case OpDeferOutbound(until) => DeferBooks(h, until);
    case _ =>
  }

  lemma AckBooks(h: Home, o: Key, u: U64)
    ensures SameBooks(h, Ack(h, o, u).0)
  {
    hide AckRows;
  }

  lemma DeferBooks(h: Home, until: nat)
    ensures SameBooks(h, DeferOutbound(h, until))
  {
  }

  /** Operations that may touch the directory or memberships. */
  predicate Bookkeeping(op: Op) {
    op.OpRegister? || op.OpRegisterCard? || op.OpObserveBinding? || op.OpNoteMembership? || op.OpRevoke?
  }

  lemma OthersBooks(h: Home, op: Op)
    requires !Bookkeeping(op)
    ensures SameBooks(h, Step(h, op))
  {
    hide Step, SameBooks;
    if Appends(op) {
      AppendsBooks(h, op);
    } else if op.OpRegisterShare? || op.OpMintContact? || op.OpRotateContact? {
      MintsBooks(h, op);
    } else if op.OpPublishPrekey? || op.OpFetchPrekey? || op.OpSweepFor? || op.OpSweep? {
      PrekeysBooks(h, op);
    } else if op.OpResetLink? || op.OpTakeFrame? || op.OpHelloDone? {
      LinksBooks(h, op);
    } else if op.OpPin? || op.OpRefuse? || op.OpRotateSign? {
      PinsBooks(h, op);
    } else {
      MailBooks(h, op);
    }
  }

  // -------------------------------------------------------------------- one operation

  /** A verified binding for this identity that is newer than what the directory has. */
  predicate Rebinds(h: Home, op: Op, id: Key) {
    && op.OpObserveBinding? && op.id == id && op.verified && (id in h.directory || id in h.mailboxes)
    && op.binding.seqNo > (if id in h.directory then h.directory[id].bindingSeq else 0)
  }

  predicate Revokes(h: Home, op: Op, id: Key) {
    op.OpRevoke? && op.id == id && op.verified && id in h.directory
  }

  /** A verified card for this server, of an identity that has no mailbox here. */
  predicate Enrols(h: Home, op: Op, id: Key) {
    op.OpRegisterCard? && op.card.id == id && op.verified && op.card.binding.serverId == h.serverId && id !in h.mailboxes
  }

  /** The directory entry after an operation. */
  function Entry(h: Home, op: Op, id: Key): Option<DirectoryRow> {
    var d := Get(h.directory, id);
    if Enrols(h, op, id) then
      Some(DirectoryRow(op.card.identityPk, op.card.revocationPk, op.card.binding, op.card.binding.seqNo, None))
    else if Rebinds(h, op, id) then
      if d.Some? then Some(DirectoryRow(d.value.identityPk, d.value.revocationPk, op.binding, op.binding.seqNo, d.value.revocation))
      else Some(DirectoryRow(h.mailboxes[id].ownerPk, 0, op.binding, op.binding.seqNo, None))
    else if Revokes(h, op, id) then
      Some(DirectoryRow(d.value.identityPk, d.value.revocationPk, d.value.binding, d.value.bindingSeq, Some(op.stmt)))
    else d
  }

  predicate Listed(h: Home, id: Key, g: Key) {
    id in h.memberships && g in h.memberships[id]
  }

  /** Directory and memberships after any operation, for one identity. */
  lemma BooksMove(h: Home, op: Op, id: Key, g: Key)
    ensures Get(Step(h, op).directory, id) == Entry(h, op, id)
    ensures Listed(Step(h, op), id, g) <==> (Listed(h, id, g) || op == OpNoteMembership(id, g)) && !Revokes(h, op, id)
  {
    if Bookkeeping(op) {
      hide Step;
      BookkeepingMoves(h, op, id, g);
    } else {
      OthersBooks(h, op);
      hide Step;
    }
  }

  lemma BookkeepingMoves(h: Home, op: Op, id: Key, g: Key)
    requires Bookkeeping(op)
    ensures Get(Step(h, op).directory, id) == Entry(h, op, id)
    ensures Listed(Step(h, op), id, g) <==> (Listed(h, id, g) || op == OpNoteMembership(id, g)) && !Revokes(h, op, id)
  {
    hide ObserveBinding, IngestRevocation, RegisterFromCard, Register, NoteMembership, Entry, Revokes;
    if !op.OpRevoke? { NotRevoking(h, op, id); }
    match op
    case OpObserveBinding(x, b, v) => ObserveBooks(h, x, b, v, id);
    case OpRevoke(x, stmt, v) => RevokeEntry(h, x, stmt, v, id); RevokeLists(h, x, stmt, v, id, g);
    case OpRegisterCard(card, v) => CardBooks(h, card, v, id);
    case OpRegister(x, pk) => RegisterBooks(h, x, pk, id);
    case OpNoteMembership(x, y) => NoteBooks(h, x, y, id, g);
  }

  lemma NotRevoking(h: Home, op: Op, id: Key)
    requires !op.OpRevoke?
    ensures !Revokes(h, op, id)
  {
  }

  lemma RegisterBooks(h: Home, x: Key, pk: Key, id: Key)
    ensures SameBooks(h, Register(h, x, pk).0) && Entry(h, OpRegister(x, pk), id) == Get(h.directory, id)
  {
    hide NewMailbox;
  }

  lemma NoteBooks(h: Home, x: Key, y: Key, id: Key, g: Key)
    ensures var h' := NoteMembership(h, x, y);
            && h'.directory == h.directory && Entry(h, OpNoteMembership(x, y), id) == Get(h.directory, id)
            && (Listed(h', id, g) <==> Listed(h, id, g) || (x == id && y == g))
  {
  }

  lemma CardBooks(h: Home, card: Card, v: bool, id: Key)
    ensures Get(RegisterFromCard(h, card, v).0.directory, id) == Entry(h, OpRegisterCard(card, v), id)
    ensures RegisterFromCard(h, card, v).0.memberships == h.memberships
  {
    CardEntry(h, card, v);
    CardDirectory(h, card, v);
    hide RegisterFromCard;
  }

  lemma CardEntry(h: Home, card: Card, v: bool)
    ensures forall id :: !Rebinds(h, OpRegisterCard(card, v), id) && !Revokes(h, OpRegisterCard(card, v), id)
  {
  }

  lemma CardDirectory(h: Home, card: Card, v: bool)
    ensures var h' := RegisterFromCard(h, card, v).0;
            && h'.memberships == h.memberships
            && h'.directory == if Enrols(h, OpRegisterCard(card, v), card.id)
                               then h.directory[card.id := DirectoryRow(card.identityPk, card.revocationPk, card.binding, card.binding.seqNo, None)]
                               else h.directory
  {
    hide NewMailbox, AllowedIntroTtl, PushToken;
    if Enrols(h, OpRegisterCard(card, v), card.id) {
      PushBooks();
    }
  }

  lemma PushBooks()
    ensures forall h1, t, kind :: SameBooks(h1, PushToken(h1, t, kind))
  {
  }

  lemma DisableBooks(h: Home, id: Key)
    ensures SameBooks(h, Disable(h, id))
  {
  }

  lemma ObserveBooks(h: Home, x: Key, b: Binding, v: bool, id: Key)
    ensures Get(ObserveBinding(h, x, b, v).0.directory, id) == Entry(h, OpObserveBinding(x, b, v), id)
    ensures ObserveBinding(h, x, b, v).0.memberships == h.memberships
  {
    forall h1 ensures SameBooks(h1, Disable(h1, x)) { DisableBooks(h1, x); }
    hide Disable;
  }

  /** What a verified revocation makes of directory and memberships. */
  lemma RevokeBooks(h: Home, x: Key, stmt: Blob, v: bool)
    ensures var h' := IngestRevocation(h, x, stmt, v).0;
            if x !in h.directory || !v then h' == h
            else h'.directory == h.directory[x := h.directory[x].(revocation := Some(stmt))] && h'.memberships == h.memberships - {x}
  {
    forall h1 ensures SameBooks(h1, Disable(h1, x)) { DisableBooks(h1, x); }
    hide Disable;
  }

  lemma RevokeEntry(h: Home, x: Key, stmt: Blob, v: bool, id: Key)
    ensures Get(IngestRevocation(h, x, stmt, v).0.directory, id) == Entry(h, OpRevoke(x, stmt, v), id)
  {
    RevokeBooks(h, x, stmt, v);
    hide IngestRevocation;
  }

  lemma RevokeLists(h: Home, x: Key, stmt: Blob, v: bool, id: Key, g: Key)
    ensures Listed(IngestRevocation(h, x, stmt, v).0, id, g) <==> Listed(h, id, g) && !Revokes(h, OpRevoke(x, stmt, v), id)
  {
    RevokeBooks(h, x, stmt, v);
    hide IngestRevocation;
  }

  /** What a revocation answers: the groups the identity was in. */
  lemma RevocationAnswer(h: Home, id: Key, stmt: Blob, v: bool)
    ensures IngestRevocation(h, id, stmt, v).1
            == if id !in h.directory || !v then Err(Denied)
               else Ok(if id in h.memberships then h.memberships[id] else [])
  {
    forall h1 ensures SameBooks(h1, Disable(h1, id)) { DisableBooks(h1, id); }
    hide Disable;
  }

  /** Registering: once per identity, with an empty mailbox that is open and counts from one. */
  lemma RegisterExactly(h: Home, id: Key, pk: Key)
    ensures var (h', r) := Register(h, id, pk);
            if id in h.mailboxes then h' == h && r == Err(AlreadyRegistered)
            else r == Ok(()) && h'.mailboxes == h.mailboxes[id := Mailbox(pk, 1, map[], map[], 0, false)]
                 && h'.tokens == h.tokens && SameBooks(h, h')
  {
  }

  /** A card for this server enrols an identity: mailbox, directory entry and a share token for half an hour. */
  lemma EnrolExactly(h: Home, card: Card, v: bool)
    ensures var (h', r) := RegisterFromCard(h, card, v);
            if Enrols(h, OpRegisterCard(card, v), card.id)
            then r == Ok(()) && h'.mailboxes == h.mailboxes[card.id := Mailbox(card.identityPk, 1, map[], map[], 0, false)]
                 && h'.tokens == h.tokens + [TokenRow(card.shareToken, Share(card.id, h.now + 1800, false, None))]
            else h' == h && r == Err(if !v then Wire else if card.binding.serverId != h.serverId then Denied else AlreadyRegistered)
  {
  }

  // ------------------------------------------------------------------------ whole runs

  /** A verified binding for the identity was presented at `k`. */
  predicate Presented(op: Op, id: Key) {
    op.OpObserveBinding? && op.id == id && op.verified
  }

  ghost predicate HasNewest(hs: seq<Home>, ops: seq<Op>, id: Key, i: nat, j: nat)
    requires i <= j <= |ops| && |hs| == |ops| + 1
  {
    && id in hs[i].directory && id in hs[j].directory
    && var a, d := hs[i].directory[id], hs[j].directory[id];
       && d.identityPk == a.identityPk && d.revocationPk == a.revocationPk && a.bindingSeq <= d.bindingSeq
       && (forall k :: i <= k < j && Presented(ops[k], id) ==> ops[k].binding.seqNo <= d.bindingSeq)
       && ((d.binding == a.binding && d.bindingSeq == a.bindingSeq)
           || exists k :: i <= k < j && ops[k] == OpObserveBinding(id, d.binding, true) && d.binding.seqNo == d.bindingSeq)
  }

  /**
   The newest binding wins. Once an identity is in the directory, at every later moment of the run its entry has the keys it
   started with and a binding that is the old one or was presented and verified since, and no verified binding presented
   since is newer.
   */
  lemma {:induction false} NewestBinding(hs: seq<Home>, ops: seq<Op>, id: Key, i: nat, j: nat)
    requires IsRun(hs, ops) && Valid(hs[0]) && i <= j < |hs| && id in hs[i].directory && id in hs[i].mailboxes
    ensures HasNewest(hs, ops, id, i, j) && id in hs[j].mailboxes
    decreases j
  {
    hide Valid, Step, Admissible;
    if j > i {
      NewestBinding(hs, ops, id, i, j - 1);
      MailboxStays(hs, ops, id, j - 1, j);
      BooksMove(hs[j - 1], ops[j - 1], id, 0);
      OneBinding(hs, ops, id, i, j);
    }
  }

  lemma OneBinding(hs: seq<Home>, ops: seq<Op>, id: Key, i: nat, j: nat)
    requires i < j <= |ops| && |hs| == |ops| + 1 && HasNewest(hs, ops, id, i, j - 1) && id in hs[j - 1].mailboxes
    requires Get(hs[j].directory, id) == Entry(hs[j - 1], ops[j - 1], id)
    ensures HasNewest(hs, ops, id, i, j)
  {
    var before, d := hs[j - 1].directory[id], hs[j].directory[id];
    if Rebinds(hs[j - 1], ops[j - 1], id) {
      assert ops[j - 1] == OpObserveBinding(id, d.binding, true);
    } else {
      assert d.binding == before.binding && d.bindingSeq == before.bindingSeq;
      assert Presented(ops[j - 1], id) ==> ops[j - 1].binding.seqNo <= d.bindingSeq;
    }
  }

  /** A revocation stands: the directory has the statement of the last verified one, and before the first one none new. */
  lemma {:induction false} RevocationStands(hs: seq<Home>, ops: seq<Op>, id: Key, i: nat, j: nat)
    requires IsRun(hs, ops) && Valid(hs[0]) && i <= j < |hs| && id in hs[i].directory && id in hs[i].mailboxes
    ensures id in hs[j].directory
    ensures if exists k :: i <= k < j && Revokes(hs[k], ops[k], id)
            then exists k :: i <= k < j && Revokes(hs[k], ops[k], id) && hs[j].directory[id].revocation == Some(ops[k].stmt)
                             && forall n :: k < n < j ==> !Revokes(hs[n], ops[n], id)
            else hs[j].directory[id].revocation == hs[i].directory[id].revocation
    decreases j
  {
    hide Valid, Step, Admissible;
    if j > i {
      RevocationStands(hs, ops, id, i, j - 1);
      NewestBinding(hs, ops, id, i, j - 1);
      BooksMove(hs[j - 1], ops[j - 1], id, 0);
      if Revokes(hs[j - 1], ops[j - 1], id) {
        assert hs[j].directory[id].revocation == Some(ops[j - 1].stmt);
      } else if k :| i <= k < j - 1 && Revokes(hs[k], ops[k], id)
                     && hs[j - 1].directory[id].revocation == Some(ops[k].stmt) && forall n :: k < n < j - 1 ==> !Revokes(hs[n], ops[n], id) {
        hide Revokes;
        assert hs[j].directory[id].revocation == hs[j - 1].directory[id].revocation;
        assert forall n :: k < n < j ==> !Revokes(hs[n], ops[n], id);
      }
    }
  }

  /** A mailbox is closed exactly if it was, or something closed it since; and closed it holds nothing. */
  lemma {:induction false} ClosedExactly(hs: seq<Home>, ops: seq<Op>, o: Key, i: nat, j: nat)
    requires IsRun(hs, ops) && Valid(hs[0]) && i <= j < |hs| && o in hs[i].mailboxes
    ensures o in hs[j].mailboxes
    ensures hs[j].mailboxes[o].disabled <==> hs[i].mailboxes[o].disabled || Closed(hs, ops, o, i, j)
    ensures hs[j].mailboxes[o].disabled ==> hs[j].mailboxes[o].rows == map[] && forall x :: x in hs[j].tokens ==> x.kind.mailbox != o
    decreases j
  {
    hide Valid, Step, Admissible, MailMoves, Closes;
    RunValid(hs, ops);
    MailboxStays(hs, ops, o, i, j);
    ClosedIsEmpty(hs[j], o);
    if j > i {
      ClosedExactly(hs, ops, o, i, j - 1);
      StepMoves(hs[j - 1], ops[j - 1], o);
      DisabledMoves(hs[j - 1], ops[j - 1], hs[j - 1].mailboxes[o], hs[j].mailboxes[o], o);
      OneMore(hs, ops, 0, o, i, j);
      hide Closed;
    }
  }

  lemma DisabledMoves(h: Home, op: Op, m: Mailbox, m': Mailbox, o: Key)
    requires MailMoves(h, op, m, m', o)
    ensures m'.disabled <==> m.disabled || Closes(h, op, o)
  {
    hide Takes, Survives, Forgets;
    if Closes(h, op, o) { hide Closes; }
  }

  lemma ClosedIsEmpty(h: Home, o: Key)
    requires Valid(h) && o in h.mailboxes
    ensures h.mailboxes[o].disabled ==> h.mailboxes[o].rows == map[] && forall x :: x in h.tokens ==> x.kind.mailbox != o
  {
    assert MailboxOk(h.mailboxes[o]);
    hide MailboxesOk, DirectoryOk, PrekeysOk, MembershipsOk, Bytes;
  }

  /** Noted at `k`, and not revoked after that. */
  ghost predicate NotedSince(hs: seq<Home>, ops: seq<Op>, id: Key, g: Key, i: nat, j: nat)
    requires i <= j <= |ops| && |hs| == |ops| + 1
  {
    exists k :: i <= k < j && ops[k] == OpNoteMembership(id, g) && NoRevocation(hs, ops, id, k, j)
  }

  ghost predicate NoRevocation(hs: seq<Home>, ops: seq<Op>, id: Key, i: nat, j: nat)
    requires i <= j <= |ops| && |hs| == |ops| + 1
  {
    forall k :: i <= k < j ==> !Revokes(hs[k], ops[k], id)
  }

  /** Memberships are exactly the groups noted since the last revocation of the identity. */
  lemma {:induction false} MembershipHistory(hs: seq<Home>, ops: seq<Op>, id: Key, g: Key, i: nat, j: nat)
    requires IsRun(hs, ops) && i <= j < |hs|
    ensures Listed(hs[j], id, g) <==> (Listed(hs[i], id, g) && NoRevocation(hs, ops, id, i, j)) || NotedSince(hs, ops, id, g, i, j)
    decreases j
  {
    hide Step, Admissible, Revokes, Listed;
    if j > i {
      MembershipHistory(hs, ops, id, g, i, j - 1);
      BooksMove(hs[j - 1], ops[j - 1], id, g);
      NotedMore(hs, ops, id, g, i, j);
      assert NoRevocation(hs, ops, id, i, j) <==> NoRevocation(hs, ops, id, i, j - 1) && !Revokes(hs[j - 1], ops[j - 1], id);
    }
  }

  lemma NotedMore(hs: seq<Home>, ops: seq<Op>, id: Key, g: Key, i: nat, j: nat)
    requires i < j <= |ops| && |hs| == |ops| + 1
    ensures NotedSince(hs, ops, id, g, i, j) <==>
            (NotedSince(hs, ops, id, g, i, j - 1) || ops[j - 1] == OpNoteMembership(id, g)) && !Revokes(hs[j - 1], ops[j - 1], id)
  {
    hide Revokes;
    if NotedSince(hs, ops, id, g, i, j) {
      var k :| i <= k < j && ops[k] == OpNoteMembership(id, g) && NoRevocation(hs, ops, id, k, j);
      assert k < j - 1 ==> NoRevocation(hs, ops, id, k, j - 1);
    }
    if NotedSince(hs, ops, id, g, i, j - 1) && !Revokes(hs[j - 1], ops[j - 1], id) {
      var k :| i <= k < j - 1 && ops[k] == OpNoteMembership(id, g) && NoRevocation(hs, ops, id, k, j - 1);
      assert NoRevocation(hs, ops, id, k, j);
    }
    if ops[j - 1] == OpNoteMembership(id, g) && !Revokes(hs[j - 1], ops[j - 1], id) {
      assert NoRevocation(hs, ops, id, j - 1, j);
    }
  }
}
