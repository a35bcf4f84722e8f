/**
 Mailbox retention: garbage collection leaves exactly the longest unexpired suffix that fits, byte counts
 stay within the limit, and sequence numbers are handed out densely and never reused, in every run.
 */
module Retention {
  import opened Basics
  import opened HomeState
  import opened HomeRun

  /** `remove_row`: forget one row, its bytes and its idempotency entry. */
  function RemoveRow(m: Mailbox, s: nat): Mailbox {
    if s !in m.rows then m
    else m.(rows := m.rows - {s},
            bytes := SatSub(m.bytes, RowSize(m.rows[s])),
            idem := map t | t in m.idem && m.idem[t] != s :: m.idem[t])
  }

  lemma TrimTwice(m: Mailbox, a: set<nat>, b: set<nat>)
    ensures Trim(Trim(m, a), b) == Trim(m, a * b)
  {
    assert Restrict(Restrict(m.rows, a), b) == Restrict(m.rows, a * b);
    assert Trim(Trim(m, a), b).idem == Trim(m, a * b).idem;
  }

  lemma TrimNothing(m: Mailbox)
    requires MailboxOk(m)
    ensures Trim(m, m.rows.Keys) == m
  {
    assert Restrict(m.rows, m.rows.Keys) == m.rows;
  }

  lemma RemoveRowTrims(m: Mailbox, s: nat)
    requires MailboxOk(m) && s in m.rows
    ensures RemoveRow(m, s) == Trim(m, m.rows.Keys - {s})
    ensures MailboxOk(RemoveRow(m, s))
  {
    BytesRemove(m.rows, s);
    assert Restrict(m.rows, m.rows.Keys - {s}) == m.rows - {s};
    TrimOk(m, m.rows.Keys - {s});
  }

  // ------------------------------------------------------- the longest suffix

  ghost predicate UpwardClosed(live: map<nat, StoredEnvelope>, keep: set<nat>) {
    && keep <= live.Keys
    && forall a, b :: a in keep && b in live && a <= b ==> b in keep
  }

  /** An upward-closed set of live rows is the suffix that starts at its least member. */
  lemma SuffixFromLeast(live: map<nat, StoredEnvelope>, keep: set<nat>)
    requires UpwardClosed(live, keep) && keep != {}
    ensures From(live, LeastKey(keep)) == Restrict(live, keep)
  {
  }

  lemma RetainedClosed(rows: map<nat, StoredEnvelope>, now: nat, lim: Limits)
    ensures UpwardClosed(Live(rows, now, lim.maxAge), Retained(rows, now, lim))
  {
    var live := Live(rows, now, lim.maxAge);
    var keep := Retained(rows, now, lim);
    forall a, b | a in keep && b in live && a <= b ensures b in keep {
      BytesMonotone(From(live, b), From(live, a));
    }
  }

  /** `kept` holds unexpired rows only, within the byte limit, and contains every suffix of them that would fit. */
  ghost predicate LongestSuffix(m: Mailbox, kept: Mailbox, now: nat, lim: Limits) {
    var live := Live(m.rows, now, lim.maxAge);
    && UpwardClosed(live, kept.rows.Keys)
    && (forall s :: s in kept.rows ==> kept.rows[s] == live[s])
    && kept.bytes <= lim.maxBytes
    && forall first: nat :: Bytes(From(live, first)) <= lim.maxBytes ==> From(live, first).Keys <= kept.rows.Keys
  }

  lemma FittingSuffixRetained(rows: map<nat, StoredEnvelope>, now: nat, lim: Limits, first: nat)
    requires Bytes(From(Live(rows, now, lim.maxAge), first)) <= lim.maxBytes
    ensures From(Live(rows, now, lim.maxAge), first).Keys <= Retained(rows, now, lim)
  {
    var live := Live(rows, now, lim.maxAge);
    forall s | s in From(live, first) ensures s in Retained(rows, now, lim) {
      BytesMonotone(From(live, s), From(live, first));
    }
  }

  lemma RetainedFits(rows: map<nat, StoredEnvelope>, now: nat, lim: Limits)
    ensures Bytes(Restrict(rows, Retained(rows, now, lim))) <= lim.maxBytes
  {
    var live := Live(rows, now, lim.maxAge);
    var keep := Retained(rows, now, lim);
    RetainedClosed(rows, now, lim);
    if keep != {} {
      SuffixFromLeast(live, keep);
      assert Restrict(live, keep) == Restrict(rows, keep);
    } else {
      assert Restrict(rows, keep) == map[];
    }
  }

  /** Collection keeps exactly the longest suffix of the unexpired rows that fits the byte limit. */
  lemma GcKeepsLongestSuffix(m: Mailbox, now: nat, lim: Limits)
    requires MailboxOk(m)
    ensures LongestSuffix(m, Trim(m, Retained(m.rows, now, lim)), now, lim)
    ensures MailboxOk(Trim(m, Retained(m.rows, now, lim)))
  {
    var keep := Retained(m.rows, now, lim);
    TrimOk(m, keep);
    RetainedClosed(m.rows, now, lim);
    RetainedFits(m.rows, now, lim);
    assert Trim(m, keep).rows.Keys == keep;
    forall first: nat | Bytes(From(Live(m.rows, now, lim.maxAge), first)) <= lim.maxBytes
      ensures From(Live(m.rows, now, lim.maxAge), first).Keys <= keep
    {
      FittingSuffixRetained(m.rows, now, lim, first);
    }
    hide MailboxOk;
  }

  /** Retention with no room and no time: nothing to keep, nothing to lose. */
  lemma GcAddsNothing(m: Mailbox, keep: set<nat>)
    requires MailboxOk(m)
    ensures Trim(m, keep).bytes <= m.bytes
  {
    BytesMonotone(Restrict(m.rows, keep), m.rows);
  }

  // -------------------------------------------------------- how mailboxes move

  /** One step of a mailbox: rows are kept unchanged or lost, and at most one is added, under the next number. */
  ghost predicate Evolves(m: Mailbox, m': Mailbox, lim: Limits) {
    && m'.ownerPk == m.ownerPk
    && (m.disabled ==> m'.disabled)
    && m.nextSeq <= m'.nextSeq <= m.nextSeq + 1
    && (forall s :: s in m'.rows ==>
          (s in m.rows && m'.rows[s] == m.rows[s]) || (s == m.nextSeq && m'.nextSeq == m.nextSeq + 1))
    && (m.bytes <= lim.maxBytes ==> m'.bytes <= lim.maxBytes)
  }

  ghost predicate AllEvolve(h: Home, h': Home) {
    && h'.limits == h.limits
    && forall o :: o in h.mailboxes ==> o in h'.mailboxes && Evolves(h.mailboxes[o], h'.mailboxes[o], h.limits)
  }

  lemma PutEvolves(h: Home, h': Home, owner: Key, m: Mailbox)
    requires owner in h.mailboxes && Evolves(h.mailboxes[owner], m, h.limits)
    requires h'.mailboxes == h.mailboxes[owner := m] && h'.limits == h.limits
    ensures AllEvolve(h, h')
  {
  }

  lemma TrimEvolves(m: Mailbox, keep: set<nat>, lim: Limits)
    requires MailboxOk(m)
    ensures Evolves(m, Trim(m, keep), lim)
  {
    GcAddsNothing(m, keep);
  }

  lemma DisableEvolves(h: Home, owner: Key)
    requires MailboxesOk(h.mailboxes)
    ensures AllEvolve(h, Disable(h, owner))
  {
    hide MailboxOk, Trim;
    if owner in h.mailboxes {
      var m := h.mailboxes[owner];
      TrimEvolves(m, {}, h.limits);
      PutEvolves(h, Disable(h, owner), owner, Trim(m, {}).(disabled := true));
    }
  }

  lemma GcEvolves(h: Home, owner: Key)
    requires Valid(h)
    ensures AllEvolve(h, Gc(h, owner))
  {
    hide MailboxOk, Trim, Retained, Evolves;
    SelfEvolves(h);
    if owner in h.mailboxes {
      var m := h.mailboxes[owner];
      GcResult(h, owner);
      TrimEvolves(m, Retained(m.rows, h.now, h.limits), h.limits);
      hide Gc, Valid;
      PutEvolves(h, Gc(h, owner), owner, Trim(m, Retained(m.rows, h.now, h.limits)));
    }
  }

  lemma AckEvolves(h: Home, owner: Key, upTo: U64)
    requires Valid(h)
    ensures AllEvolve(h, Ack(h, owner, upTo).0)
  {
    if owner in h.mailboxes && Ack(h, owner, upTo).0 != h {
      var m := h.mailboxes[owner];
      assert MailboxOk(m);
      hide MailboxesOk;
      BytesMonotone(AckRows(m, upTo).rows, m.rows);
      PutEvolves(h, Ack(h, owner, upTo).0, owner, AckRows(m, upTo));
    }
  }

  /** A stored row takes the next sequence number, and collection afterwards brings the bytes under the limit. */
  lemma StoreThenGcEvolves(m: Mailbox, now: nat, lim: Limits, inner: Inner, size: nat)
    requires MailboxOk(m) && !m.disabled && PaddedLen(inner) == Some(size) && inner.idem !in m.idem
    ensures var m1 := StoreRow(m, now, lim, inner, size);
            Evolves(m, Trim(m1, Retained(m1.rows, now, lim)), lim)
  {
    StoreRowOk(m, now, lim, inner, size);
    var m1 := StoreRow(m, now, lim, inner, size);
    GcKeepsLongestSuffix(m1, now, lim);
  }

  lemma AppendEvolves(h: Home, inner: Inner)
    requires Valid(h)
    ensures AllEvolve(h, AppendInner(h, inner).0)
  {
    AuthorizeValid(h, inner.capability);
    var (h1, r) := AuthorizeAppend(h, inner.capability);
    assert h1.limits == h.limits;
    hide AuthorizeAppend, Valid, Evolves, Gc, BurnIfShare, Store;
    SelfEvolves(h);
    if r.Ok? && inner.idem !in h1.mailboxes[r.value].idem && PaddedLen(inner).Some? {
      StoreEvolves(h1, r.value, inner, PaddedLen(inner).value);
    }
  }

  /** Whether or not collection finds anything to drop, the mailbox ends up trimmed to the retained rows. */
  lemma GcResult(h: Home, owner: Key)
    requires owner in h.mailboxes && MailboxOk(h.mailboxes[owner])
    ensures var m := h.mailboxes[owner];
            Gc(h, owner).mailboxes == h.mailboxes[owner := Trim(m, Retained(m.rows, h.now, h.limits))]
    ensures Gc(h, owner).limits == h.limits
  {
    hide MailboxOk, Trim;
    var m := h.mailboxes[owner];
    var keep := Retained(m.rows, h.now, h.limits);
    assert m.rows.Keys - (m.rows.Keys - keep) == keep;
    if m.rows.Keys - keep == {} {
      assert forall s :: s in m.rows && s !in keep ==> s in m.rows.Keys - keep;
      RetainedAll(m, h.now, h.limits);
    }
  }

  lemma RetainedAll(m: Mailbox, now: nat, lim: Limits)
    requires MailboxOk(m) && forall s :: s in m.rows ==> s in Retained(m.rows, now, lim)
    ensures Trim(m, Retained(m.rows, now, lim)) == m
  {
    assert Retained(m.rows, now, lim) == m.rows.Keys;
    TrimNothing(m);
  }

  lemma StoreEvolves(h: Home, owner: Key, inner: Inner, size: nat)
    requires Valid(h) && Enabled(h, owner) && PaddedLen(inner) == Some(size)
    requires inner.idem !in h.mailboxes[owner].idem
    ensures AllEvolve(h, Gc(BurnIfShare(Store(h, owner, inner, size), inner.capability), owner))
  {
    hide Retained, Trim, MailboxOk, TokensOk, DirectoryOk, PrekeysOk, MembershipsOk, LastIndex, Evolves, StoreRow;
    var m := h.mailboxes[owner];
    assert MailboxOk(m);
    var m1 := StoreRow(m, h.now, h.limits, inner, size);
    var h3 := BurnIfShare(Store(h, owner, inner, size), inner.capability);
    assert h3.mailboxes == h.mailboxes[owner := m1] && h3.limits == h.limits && h3.now == h.now;
    hide Valid, BurnIfShare, Store;
    StoreThenGcEvolves(m, h.now, h.limits, inner, size);
    StoreRowOk(m, h.now, h.limits, inner, size);
    var m2 := Trim(m1, Retained(m1.rows, h.now, h.limits));
    GcResult(h3, owner);
    PutEvolves(h, Gc(h3, owner), owner, m2);
  }

  predicate MovesMail(op: Op) {
    op.OpObserveBinding? || op.OpRevoke? || op.OpIngest? || op.OpAppend? || op.OpFetch? || op.OpAck?
    || op.OpAcceptFrame? || op.OpEnqueue?
  }

  ghost predicate Quiet(h: Home, h': Home) {
    && h'.limits == h.limits
    && forall o :: o in h.mailboxes ==> o in h'.mailboxes && h'.mailboxes[o] == h.mailboxes[o]
  }

  lemma MintQuiet(h: Home, owner: Key, token: Key)
    ensures MintContact(h, owner, token).0.mailboxes == h.mailboxes
    ensures MintContact(h, owner, token).0.limits == h.limits
  {
    hide DeadFor, Without;
  }

  lemma RotateQuiet(h: Home, owner: Key, oldToken: Key, confirm: bool, token: Key)
    ensures RotateContact(h, owner, oldToken, confirm, token).0.mailboxes == h.mailboxes
    ensures RotateContact(h, owner, oldToken, confirm, token).0.limits == h.limits
  {
    MintQuiet(h, owner, token);
    hide MintContact, LastIndex, SetKind;
  }

  lemma CardQuiet(h: Home, card: Card, verified: bool)
    ensures Quiet(h, RegisterFromCard(h, card, verified).0)
  {
    hide NewMailbox;
  }

  lemma QuietTokens(h: Home, op: Op)
    requires op.OpRegisterShare? || op.OpMintContact? || op.OpRotateContact? || op.OpPublishPrekey?
             || op.OpFetchPrekey? || op.OpSweepFor? || op.OpSweep? || op.OpRegister? || op.OpRegisterCard?
    ensures Quiet(h, Step(h, op))
  {
    hide LastIndex, DeadFor, DeadTokens, Without, SetKind, NewMailbox, MintContact, RotateContact, RegisterFromCard, Register, Quiet;
    hide ObserveBinding, NoteMembership, IngestRevocation, Pin, Refuse, RotateSign, ResetLink, TakeFrame, AcceptFrame;
    hide Ingest, AppendInner, Gc, Ack, Enqueue, DeferOutbound, SetOutbound;
    SameMailIsQuiet(h, Step(h, op));
    match op
    case OpMintContact(o, t) => MintQuiet(h, o, t);
    case OpRotateContact(o, a, c, t) => RotateQuiet(h, o, a, c, t);
    case OpRegisterCard(card, v) => CardQuiet(h, card, v);
    case OpRegister(id, pk) => RegisterQuiet(h, id, pk);
    case _ =>
  }

  lemma RegisterQuiet(h: Home, id: Key, pk: Key)
    ensures Quiet(h, Register(h, id, pk).0)
  {
    hide NewMailbox;
  }

  lemma QuietPeers(h: Home, op: Op)
    requires op.OpPin? || op.OpRefuse? || op.OpRotateSign? || op.OpResetLink? || op.OpTakeFrame? || op.OpHelloDone?
    ensures Quiet(h, Step(h, op))
  {
    hide Register, RegisterFromCard, ObserveBinding, NoteMembership, IngestRevocation, RegisterShare, MintContact, RotateContact;
    hide PublishPrekey, FetchPrekey, SweepFor, Sweep, Ingest, AppendInner, Gc, Ack, Enqueue, DeferOutbound, AcceptFrame, SetOutbound;
    hide Quiet;
    SameMailIsQuiet(h, Step(h, op));
  }

  lemma SameMailIsQuiet(h: Home, h': Home)
    ensures h'.mailboxes == h.mailboxes && h'.limits == h.limits ==> Quiet(h, h')
  {
  }

  lemma QuietStep(h: Home, op: Op)
    requires !MovesMail(op)
    ensures Quiet(h, Step(h, op))
  {
    if op.OpTick? || op.OpNoteMembership? || op.OpDeferOutbound? || op.OpEditOutbound? {
      assert Step(h, op).mailboxes == h.mailboxes && Step(h, op).limits == h.limits;
    } else if op.OpPin? || op.OpRefuse? || op.OpRotateSign? || op.OpResetLink? || op.OpTakeFrame? || op.OpHelloDone? {
      hide Step;
      QuietPeers(h, op);
    } else {
      hide Step;
      QuietTokens(h, op);
    }
  }

  /** Every mutator moves every mailbox by one such step at most. */
  lemma StepEvolves(h: Home, op: Op)
    requires Valid(h)
    ensures AllEvolve(h, Step(h, op))
  {
    if !MovesMail(op) {
      QuietStep(h, op);
      hide Step;
    } else {
      hide Step;
      MovesEvolve(h, op);
    }
  }

  lemma MovesEvolve(h: Home, op: Op)
    requires Valid(h) && MovesMail(op)
    ensures AllEvolve(h, Step(h, op))
  {
    hide Valid, AllEvolve, ObserveBinding, IngestRevocation, Ingest, AppendInner, Gc, Ack, AcceptFrame;
    hide Register, RegisterFromCard, NoteMembership, RegisterShare, MintContact, RotateContact, PublishPrekey;
    hide FetchPrekey, SweepFor, Sweep, Enqueue, DeferOutbound, Pin, Refuse, RotateSign, ResetLink, TakeFrame, SetOutbound;
    match op
    case OpObserveBinding(id, b, v) => ObserveEvolves(h, id, b, v);
    case OpRevoke(id, stmt, v) => RevokeEvolves(h, id, stmt, v);
    case OpIngest(enc, plain) => IngestEvolves(h, enc, plain);
    case OpAppend(inner) => AppendEvolves(h, inner);
    case OpFetch(o) => GcEvolves(h, o);
    case OpAck(o, u) => AckEvolves(h, o, u);
    case OpAcceptFrame(p, frame) => AcceptEvolves(h, p, frame);
    case OpEnqueue(outer) => EnqueueEvolves(h, outer);
  }

  lemma EnqueueEvolves(h: Home, outer: Outer)
    requires Valid(h)
    ensures AllEvolve(h, Enqueue(h, outer))
  {
    hide Valid, Ingest;
    SelfEvolves(h);
    IngestEvolves(h, outer.enc, outer.plain);
    hide Evolves;
  }

  lemma ObserveEvolves(h: Home, id: Key, b: Binding, verified: bool)
    requires Valid(h)
    ensures AllEvolve(h, ObserveBinding(h, id, b, verified).0)
  {
    hide MailboxOk, TokensOk, DirectoryOk, PrekeysOk, MembershipsOk, Disable;
    if id in h.directory || id in h.mailboxes {
      var row := if id in h.directory then h.directory[id].(binding := b, bindingSeq := b.seqNo)
                 else DirectoryRow(h.mailboxes[id].ownerPk, 0, b, b.seqNo, None);
      DisableEvolves(h.(directory := h.directory[id := row],
                        dirty := h.dirty.(identities := h.dirty.identities + {id})), id);
    }
  }

  lemma RevokeEvolves(h: Home, id: Key, stmt: Blob, verified: bool)
    requires Valid(h)
    ensures AllEvolve(h, IngestRevocation(h, id, stmt, verified).0)
  {
    hide MailboxOk, TokensOk, DirectoryOk, PrekeysOk, MembershipsOk, Disable;
    if id in h.directory {
      DisableEvolves(h.(directory := h.directory[id := h.directory[id].(revocation := Some(stmt))],
                        dirty := h.dirty.(identities := h.dirty.identities + {id})), id);
    }
  }

  lemma IngestEvolves(h: Home, enc: Option<Key>, plain: Option<Inner>)
    requires Valid(h)
    ensures AllEvolve(h, Ingest(h, enc, plain).0)
  {
    hide Valid, AppendInner, Evolves;
    SelfEvolves(h);
    if plain.Some? { AppendEvolves(h, plain.value); }
  }

  lemma SelfEvolves(h: Home)
    ensures AllEvolve(h, h)
  {
  }

  lemma AcceptEvolves(h: Home, from: Key, frame: Frame)
    requires Valid(h)
    ensures AllEvolve(h, AcceptFrame(h, from, frame).0)
  {
    hide MailboxesOk, TokensOk, Ingest;
    SelfEvolves(h);
    hide Evolves;
    if from in h.peers && frame.payload.Ciphertext? {
      var h1 := MarkPeer(h, from, h.peers[from].(lastRx := frame.counter));
      var q := h1.peers[from];
      var q1 := Windowed(q, h1.now);
      IngestEvolves(h1.(peers := h1.peers[from := q1]), frame.payload.enc, frame.payload.plain);
    }
  }

  // --------------------------------------------------------------------- runs

  ghost predicate IsRun(hs: seq<Home>, ops: seq<Op>) {
    && |hs| == |ops| + 1
    && forall i :: 0 <= i < |ops| ==> Admissible(hs[i], ops[i]) && hs[i + 1] == Step(hs[i], ops[i])
  }

  lemma {:induction false} RunValid(hs: seq<Home>, ops: seq<Op>)
    requires IsRun(hs, ops) && Valid(hs[0])
    ensures forall i :: 0 <= i < |hs| ==> Valid(hs[i])
  {
    hide Valid, Admissible, Step;
    if |ops| > 0 {
      var n := |ops| - 1;
      RunValid(hs[..n + 1], ops[..n]);
      assert forall i :: 0 <= i < n + 1 ==> hs[..n + 1][i] == hs[i];
      StepValid(hs[n], ops[n]);
    }
  }

  /** What may happen to a mailbox over many steps. */
  ghost predicate Descends(m: Mailbox, m': Mailbox, lim: Limits) {
    && m'.ownerPk == m.ownerPk
    && (m.disabled ==> m'.disabled)
    && m.nextSeq <= m'.nextSeq
    && (forall s :: s in m'.rows && s < m.nextSeq ==> s in m.rows && m'.rows[s] == m.rows[s])
    && (m.bytes <= lim.maxBytes ==> m'.bytes <= lim.maxBytes)
  }

  /**
   Over any run a mailbox keeps its owner and stays within its byte limit; a sequence number that was ever
   assigned keeps naming the same row until the row is dropped, and then never names a row again.
   */
  lemma {:induction false} SeqsNeverReused(hs: seq<Home>, ops: seq<Op>, owner: Key)
    requires IsRun(hs, ops) && Valid(hs[0]) && owner in hs[0].mailboxes
    ensures var h := hs[|ops|];
            && h.limits == hs[0].limits
            && owner in h.mailboxes
            && Descends(hs[0].mailboxes[owner], h.mailboxes[owner], hs[0].limits)
  {
    if |ops| > 0 {
      var n := |ops| - 1;
      SeqsNeverReused(hs[..n + 1], ops[..n], owner);
      RunValid(hs, ops);
      StepEvolves(hs[n], ops[n]);
      hide Valid, Step, Admissible;
      assert Evolves(hs[n].mailboxes[owner], hs[n + 1].mailboxes[owner], hs[0].limits);
    }
  }
}
