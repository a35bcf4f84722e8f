/**
 How long a stored row lives. What every operation does to the rows and idempotency entries of a mailbox, told in
 seconds and bytes; from it, over whole runs, exactly when a stored row is still there, which fetches show it, and what
 a repeated append is answered.
 */
module Lifetimes {
  import opened Basics
  import opened HomeState
  import opened HomeRun
  import opened Retention
  import opened TokenMoves
  import HomeServers

  // ------------------------------------------------------------------ one mailbox

  /** When a row lapses: a minute, an hour or a day after arrival by its lifetime class, never later than the maximum age. */
  function Deadline(now: nat, ttl: nat, maxAge: nat): nat {
    var stay := if ttl == 1 then 60 else if ttl == 2 then 3600 else if ttl == 3 then 86400 else maxAge;
    Min(now + Min(stay, maxAge), U64_MAX)
  }

  /** The rows from `s` on that have neither lapsed nor grown too old. */
  function Standing(rows: map<nat, StoredEnvelope>, s: nat, now: nat, maxAge: nat): map<nat, StoredEnvelope> {
    map x | x in rows && s <= x && now < rows[x].expiresAt && now - rows[x].receivedAt <= maxAge :: rows[x]
  }

  /** What it takes to outlive a collection. */
  ghost predicate Survives(rows: map<nat, StoredEnvelope>, s: nat, now: nat, lim: Limits)
    requires s in rows
  {
    && now < rows[s].expiresAt
    && now - rows[s].receivedAt <= lim.maxAge
    && Bytes(Standing(rows, s, now, lim.maxAge)) <= lim.maxBytes
  }

  ghost predicate Unmoved(m: Mailbox, m': Mailbox) {
    m'.nextSeq == m.nextSeq && m'.disabled == m.disabled && m'.rows == m.rows && m'.idem == m.idem
  }

  /** Idempotency entries go with the row they point at, and only then. */
  ghost predicate Forgets(m: Mailbox, m': Mailbox) {
    forall t :: Get(m'.idem, t) == if t in m.idem && m.idem[t] in m.rows && m.idem[t] !in m'.rows then None else Get(m.idem, t)
  }

  ghost predicate Collected(m: Mailbox, m': Mailbox, now: nat, lim: Limits) {
    && m'.nextSeq == m.nextSeq && m'.disabled == m.disabled
    && (forall s :: Get(m'.rows, s) == if s in m.rows && Survives(m.rows, s, now, lim) then Some(m.rows[s]) else None)
    && Forgets(m, m')
  }

  /** The mailbox with a new row under the next number. */
  function With(m: Mailbox, inner: Inner, now: nat, lim: Limits): Mailbox {
    m.(nextSeq := m.nextSeq + 1,
       rows := m.rows[m.nextSeq := StoredEnvelope(m.nextSeq, now, Deadline(now, inner.ttl, lim.maxAge), inner)],
       idem := m.idem[inner.idem := m.nextSeq])
  }

  ghost predicate Wiped(m: Mailbox, m': Mailbox) {
    m'.nextSeq == m.nextSeq && m'.disabled && m'.rows == map[] && Forgets(m, m')
  }

  /** Acknowledged rows go, and a repetition of one is still recognised. */
  ghost predicate Acknowledged(m: Mailbox, m': Mailbox, upTo: nat) {
    && m'.nextSeq == m.nextSeq && m'.disabled == m.disabled && m'.idem == m.idem
    && forall s :: Get(m'.rows, s) == if s in m.rows && s > upTo then Some(m.rows[s]) else None
  }

  // ----------------------------------------------------------------- one operation

  /** The operation stores a new row in this mailbox. */
  predicate Takes(h: Home, op: Op, o: Key) {
    var inner := Attempt(h, op);
    inner.Some? && StoresRow(h, inner.value) && AuthorizeAppend(h, inner.value.capability).1 == Ok(o)
  }

  /** A revocation, or a newer binding that names another server, closes the mailbox. */
  predicate Closes(h: Home, op: Op, o: Key) {
    match op
    case OpRevoke(id, _, verified) => id == o && verified && id in h.directory
    case OpObserveBinding(id, b, verified) =>
      id == o && verified && b.serverId != h.serverId && b.seqNo > (if id in h.directory then h.directory[id].bindingSeq else 0)
    case _ => false
  }

  /** What an operation does to one mailbox. */
  ghost predicate MailMoves(h: Home, op: Op, m: Mailbox, m': Mailbox, o: Key) {
    if Closes(h, op, o) then Wiped(m, m')
    else if Takes(h, op, o) then Collected(With(m, Attempt(h, op).value, h.now, h.limits), m', h.now, h.limits)
    else if op == OpFetch(o) then Collected(m, m', h.now, h.limits)
    else if op.OpAck? && op.owner == o then Acknowledged(m, m', op.upTo)
    else Unmoved(m, m')
  }

  // ------------------------------------------------------------------- collection

  lemma DeadlineIs(now: nat, ttl: nat, maxAge: nat)
    ensures EnvelopeExpiry(now, ttl, maxAge) == Deadline(now, ttl, maxAge)
  {
  }

  lemma SurvivorsRetained(rows: map<nat, StoredEnvelope>, s: nat, now: nat, lim: Limits)
    requires s in rows
    ensures s in Retained(rows, now, lim) <==> Survives(rows, s, now, lim)
  {
    hide Bytes;
    LiveIsStanding(rows, s, now, lim.maxAge);
    hide Standing, From;
  }

  lemma LiveIsStanding(rows: map<nat, StoredEnvelope>, s: nat, now: nat, maxAge: nat)
    ensures From(Live(rows, now, maxAge), s) == Standing(rows, s, now, maxAge)
  {
    var a, b := From(Live(rows, now, maxAge), s), Standing(rows, s, now, maxAge);
    forall x ensures Get(a, x) == Get(b, x) {
    }
    SameLookups(a, b);
  }

  /**
   Collection, in seconds and bytes: a row stays if and only if its deadline is ahead, it is not older than the maximum
   age, and together with the newer rows of which this is true it fits the byte limit.
   */
  lemma GcKeepsExactly(h: Home, o: Key)
    requires Valid(h) && o in h.mailboxes
    ensures o in Gc(h, o).mailboxes && Collected(h.mailboxes[o], Gc(h, o).mailboxes[o], h.now, h.limits)
    ensures forall x :: x in h.mailboxes && x != o ==> x in Gc(h, o).mailboxes && Gc(h, o).mailboxes[x] == h.mailboxes[x]
  {
    var m := h.mailboxes[o];
    assert MailboxOk(m);
    hide Valid;
    GcResult(h, o);
    TrimCollects(m, h.now, h.limits);
    hide Gc, Trim, Retained, Collected, MailboxOk;
  }

  lemma TrimCollects(m: Mailbox, now: nat, lim: Limits)
    ensures Collected(m, Trim(m, Retained(m.rows, now, lim)), now, lim)
  {
    var keep := Retained(m.rows, now, lim);
    assert keep <= m.rows.Keys;
    forall s | s in m.rows ensures s in keep <==> Survives(m.rows, s, now, lim) { SurvivorsRetained(m.rows, s, now, lim); }
    hide Retained, Survives, Bytes;
    TrimForgets(m, keep);
    hide Forgets;
  }

  lemma TrimForgets(m: Mailbox, keep: set<nat>)
    requires keep <= m.rows.Keys
    ensures Forgets(m, Trim(m, keep))
  {
    hide Bytes;
  }

  // --------------------------------------------------------------------- arrivals

  /** An envelope that got as far as being appended: stored and collected over, or nothing moved. */
  ghost predicate Lodged(h: Home, h': Home, inner: Option<Inner>, o: Key)
    requires o in h.mailboxes
  {
    && o in h'.mailboxes
    && var m, m' := h.mailboxes[o], h'.mailboxes[o];
       if inner.Some? && StoresRow(h, inner.value) && AuthorizeAppend(h, inner.value.capability).1 == Ok(o)
       then Collected(With(m, inner.value, h.now, h.limits), m', h.now, h.limits)
       else Unmoved(m, m')
  }

  lemma StoredIs(h: Home, owner: Key, inner: Inner, size: nat, o: Key)
    requires owner in h.mailboxes && o in h.mailboxes
    ensures var h1 := Store(h, owner, inner, size);
            && o in h1.mailboxes && h1.now == h.now && h1.limits == h.limits
            && (o != owner ==> h1.mailboxes[o] == h.mailboxes[o])
            && var w := With(h.mailboxes[owner], inner, h.now, h.limits);
               owner in h1.mailboxes && h1.mailboxes[owner] == w.(bytes := h1.mailboxes[owner].bytes)
  {
    DeadlineIs(h.now, inner.ttl, h.limits.maxAge);
    hide EnvelopeExpiry, Deadline;
  }

  lemma BurnLeavesMail(h: Home, token: Key)
    ensures var h1 := BurnIfShare(h, token); h1.mailboxes == h.mailboxes && h1.now == h.now && h1.limits == h.limits
  {
    hide LastIndex;
  }

  lemma AuthorizeLeavesMail(h: Home, token: Key)
    ensures var h1 := AuthorizeAppend(h, token).0; h1.mailboxes == h.mailboxes && h1.now == h.now && h1.limits == h.limits
  {
    hide LastIndex;
  }

  /** Bytes aside, collection looks at rows and entries only. */
  lemma CollectedFrame(m: Mailbox, w: Mailbox, m': Mailbox, now: nat, lim: Limits)
    requires w == m.(bytes := w.bytes) && Collected(w, m', now, lim)
    ensures Collected(m, m', now, lim)
  {
    hide Survives;
  }

  lemma StoreLodges(h: Home, owner: Key, inner: Inner, size: nat, o: Key)
    requires Valid(h) && Enabled(h, owner) && o in h.mailboxes
    requires inner.idem !in h.mailboxes[owner].idem && PaddedLen(inner) == Some(size)
    ensures var h' := Gc(BurnIfShare(Store(h, owner, inner, size), inner.capability), owner);
            && o in h'.mailboxes
            && if o == owner then Collected(With(h.mailboxes[o], inner, h.now, h.limits), h'.mailboxes[o], h.now, h.limits)
               else Unmoved(h.mailboxes[o], h'.mailboxes[o])
  {
    hide Collected, Unmoved, Gc, BurnIfShare, Store, With;
    StoredIs(h, owner, inner, size, o);
    var h1 := Store(h, owner, inner, size);
    BurnLeavesMail(h1, inner.capability);
    var h2 := BurnIfShare(h1, inner.capability);
    StoreBurnValid(h, owner, inner, size);
    hide Valid;
    GcKeepsExactly(h2, owner);
    SelfUnmoved(h.mailboxes[o]);
    if o == owner {
      CollectedFrame(With(h.mailboxes[o], inner, h.now, h.limits), h2.mailboxes[o], Gc(h2, owner).mailboxes[o], h.now, h.limits);
    }
  }

  lemma SelfUnmoved(m: Mailbox)
    ensures Unmoved(m, m)
  {
  }

  lemma StoreBurnValid(h: Home, owner: Key, inner: Inner, size: nat)
    requires Valid(h) && Enabled(h, owner) && inner.idem !in h.mailboxes[owner].idem && PaddedLen(inner) == Some(size)
    ensures Valid(BurnIfShare(Store(h, owner, inner, size), inner.capability))
  {
    var m := h.mailboxes[owner];
    assert MailboxOk(m);
    hide Valid, MailboxOk, BurnIfShare;
    StoreRowOk(m, h.now, h.limits, inner, size);
    var h2 := Store(h, owner, inner, size);
    PutMailboxValid(h, h2, owner, StoreRow(m, h.now, h.limits, inner, size));
    BurnValid(h2, inner.capability);
  }

  lemma AppendLodges(h: Home, inner: Inner, o: Key)
    requires Valid(h) && o in h.mailboxes
    ensures Lodged(h, AppendInner(h, inner).0, Some(inner), o)
  {
    AuthorizeValid(h, inner.capability);
    AuthorizeLeavesMail(h, inner.capability);
    SelfUnmoved(h.mailboxes[o]);
    var (h1, r) := AuthorizeAppend(h, inner.capability);
    hide AuthorizeAppend, Valid, Gc, BurnIfShare, Store, Collected, Unmoved, With;
    if r.Ok? && inner.idem !in h1.mailboxes[r.value].idem && PaddedLen(inner).Some? {
      StoreLodges(h1, r.value, inner, PaddedLen(inner).value, o);
    }
  }

  lemma IngestLodges(h: Home, enc: Option<Key>, plain: Option<Inner>, o: Key)
    requires Valid(h) && o in h.mailboxes
    ensures Lodged(h, Ingest(h, enc, plain).0, Reaches(h, enc, plain), o)
  {
    hide Valid, AppendInner, StoresRow, AuthorizeAppend, Collected, Unmoved, With;
    SelfUnmoved(h.mailboxes[o]);
    if plain.Some? { AppendLodges(h, plain.value, o); }
  }

  /** Arrivals look at capabilities, mailboxes, limits and the clock only. */
  lemma LodgedFrame(h: Home, h1: Home, h': Home, inner: Option<Inner>, o: Key)
    requires h1.tokens == h.tokens && h1.mailboxes == h.mailboxes && h1.now == h.now && h1.limits == h.limits
    requires o in h.mailboxes && Lodged(h1, h', inner, o)
    ensures Lodged(h, h', inner, o)
  {
    if inner.Some? { SameAuthority(h, h1, inner.value); }
    hide StoresRow, AuthorizeAppend, Collected, Unmoved, With;
  }

  lemma SameAuthority(h: Home, h1: Home, inner: Inner)
    requires h1.tokens == h.tokens && h1.mailboxes == h.mailboxes && h1.now == h.now
    ensures StoresRow(h1, inner) == StoresRow(h, inner)
    ensures AuthorizeAppend(h1, inner.capability).1 == AuthorizeAppend(h, inner.capability).1
  {
    hide LastIndex, PaddedLen;
  }

  lemma NotLodged(h: Home, h': Home, o: Key)
    requires o in h.mailboxes && h'.mailboxes == h.mailboxes
    ensures Lodged(h, h', None, o)
  {
    hide Collected, With;
  }

  lemma HandleLodges(h: Home, from: Key, enc: Option<Key>, plain: Option<Inner>, o: Key)
    requires Valid(h) && from in h.peers && o in h.mailboxes
    ensures var p := h.peers[from];
            Lodged(h, HandleCiphertext(h, from, enc, plain).0,
                   if enc.Some? && Windowed(p, h.now).windowOk < PEER_RATE_PER_SEC && enc.value !in p.seen
                   then Reaches(h, enc, plain) else None, o)
  {
    hide Ingest, Lodged, MailboxesOk, TokensOk, DirectoryOk, PrekeysOk, MembershipsOk;
    NotLodged(h, h, o);
    if enc.Some? {
      var h1 := h.(peers := h.peers[from := Windowed(h.peers[from], h.now)]);
      NotLodged(h, h1, o);
      IngestLodges(h1, enc, plain, o);
      var h2 := Ingest(h1, enc, plain).0;
      LodgedFrame(h, h1, h2, Reaches(h, enc, plain), o);
      forall peers ensures Lodged(h, h2.(peers := peers), Reaches(h, enc, plain), o) { SameLodging(h, h2, peers, Reaches(h, enc, plain), o); }
    }
  }

  lemma SameLodging(h: Home, h': Home, peers: map<Key, Peer>, inner: Option<Inner>, o: Key)
    requires o in h.mailboxes && Lodged(h, h', inner, o)
    ensures Lodged(h, h'.(peers := peers), inner, o)
  {
    hide StoresRow, AuthorizeAppend, Collected, Unmoved, With;
  }

  lemma AcceptLodges(h: Home, from: Key, frame: Frame, o: Key)
    requires Valid(h) && o in h.mailboxes
    ensures Lodged(h, AcceptFrame(h, from, frame).0, Attempt(h, OpAcceptFrame(from, frame)), o)
  {
    hide HandleCiphertext, Lodged, MailboxesOk, TokensOk, DirectoryOk, PrekeysOk, MembershipsOk;
    NotLodged(h, h, o);
    if from in h.peers {
      var h1 := MarkPeer(h, from, h.peers[from].(lastRx := frame.counter));
      NotLodged(h, h1, o);
      if frame.payload.Ciphertext? {
        HandleLodges(h1, from, frame.payload.enc, frame.payload.plain, o);
        forall inner | Lodged(h1, HandleCiphertext(h1, from, frame.payload.enc, frame.payload.plain).0, inner, o)
          ensures Lodged(h, HandleCiphertext(h1, from, frame.payload.enc, frame.payload.plain).0, inner, o)
        {
          LodgedFrame(h, h1, HandleCiphertext(h1, from, frame.payload.enc, frame.payload.plain).0, inner, o);
        }
      }
    }
  }

  // -------------------------------------------------------------- every operation

  lemma AppendsMove(h: Home, op: Op, o: Key)
    requires Valid(h) && o in h.mailboxes && Appends(op)
    ensures o in Step(h, op).mailboxes && MailMoves(h, op, h.mailboxes[o], Step(h, op).mailboxes[o], o)
  {
    AppendsLodge(h, op, o);
    hide Valid, Step, Attempt, StoresRow, AuthorizeAppend, Collected, Unmoved, With;
  }

  lemma AppendsLodge(h: Home, op: Op, o: Key)
    requires Valid(h) && o in h.mailboxes && Appends(op)
    ensures Lodged(h, Step(h, op), Attempt(h, op), o)
  {
    hide Valid, Lodged, AppendInner, Ingest, AcceptFrame, Enqueue, Reaches;
    match op
    case OpAppend(inner) => AppendLodges(h, inner, o);
    case OpIngest(enc, plain) => IngestLodges(h, enc, plain, o);
    case OpEnqueue(outer) => EnqueueLodges(h, outer, o);
    case OpAcceptFrame(p, frame) => AcceptLodges(h, p, frame, o);
  }

  lemma EnqueueLodges(h: Home, outer: Outer, o: Key)
    requires Valid(h) && o in h.mailboxes
    ensures Lodged(h, Enqueue(h, outer), Attempt(h, OpEnqueue(outer)), o)
  {
    hide Valid, Lodged, Ingest, Reaches;
    if outer.dest == h.serverId {
      IngestLodges(h, outer.enc, outer.plain, o);
    } else {
      NotLodged(h, Enqueue(h, outer), o);
    }
  }

  lemma DisableWipes(h: Home, id: Key, o: Key)
    requires o in h.mailboxes
    ensures o in Disable(h, id).mailboxes
    ensures if o == id then Wiped(h.mailboxes[o], Disable(h, id).mailboxes[o])
            else Disable(h, id).mailboxes[o] == h.mailboxes[o]
  {
    hide WithoutOwner, Bytes;
  }

  lemma ObserveMoves(h: Home, id: Key, b: Binding, verified: bool, o: Key)
    requires o in h.mailboxes
    ensures var h' := ObserveBinding(h, id, b, verified).0;
            && o in h'.mailboxes
            && if Closes(h, OpObserveBinding(id, b, verified), o) then Wiped(h.mailboxes[o], h'.mailboxes[o])
               else Unmoved(h.mailboxes[o], h'.mailboxes[o])
  {
    hide Disable, Wiped;
    if id in h.directory || id in h.mailboxes {
      var row := if id in h.directory then h.directory[id].(binding := b, bindingSeq := b.seqNo)
                 else DirectoryRow(h.mailboxes[id].ownerPk, 0, b, b.seqNo, None);
      var h1 := h.(directory := h.directory[id := row], dirty := h.dirty.(identities := h.dirty.identities + {id}));
      DisableWipes(h1, id, o);
    }
  }

  lemma RevokeMoves(h: Home, id: Key, stmt: Blob, verified: bool, o: Key)
    requires o in h.mailboxes
    ensures var h' := IngestRevocation(h, id, stmt, verified).0;
            && o in h'.mailboxes
            && if Closes(h, OpRevoke(id, stmt, verified), o) then Wiped(h.mailboxes[o], h'.mailboxes[o])
               else Unmoved(h.mailboxes[o], h'.mailboxes[o])
  {
    hide Disable, Wiped;
    if id in h.directory {
      var h1 := h.(directory := h.directory[id := h.directory[id].(revocation := Some(stmt))],
                   dirty := h.dirty.(identities := h.dirty.identities + {id}));
      DisableWipes(h1, id, o);
    }
  }

  lemma AckMoves(h: Home, owner: Key, upTo: U64, o: Key)
    requires o in h.mailboxes
    ensures var h' := Ack(h, owner, upTo).0;
            && o in h'.mailboxes
            && if owner == o then Acknowledged(h.mailboxes[o], h'.mailboxes[o], upTo)
               else Unmoved(h.mailboxes[o], h'.mailboxes[o])
  {
    AckedRows(h.mailboxes[o], upTo);
    hide AckRows;
  }

  lemma AckedRows(m: Mailbox, upTo: nat)
    ensures Acknowledged(m, AckRows(m, upTo), upTo)
    ensures (forall s :: s in m.rows ==> s > upTo) ==> Acknowledged(m, m, upTo)
  {
    hide Bytes;
  }

  /** Every operation moves every mailbox as told, and leaves the limits alone. */
  lemma StepMoves(h: Home, op: Op, o: Key)
    requires Valid(h) && o in h.mailboxes
    ensures o in Step(h, op).mailboxes && MailMoves(h, op, h.mailboxes[o], Step(h, op).mailboxes[o], o)
  {
    hide Wiped, Collected, With, Acknowledged, StoresRow, AuthorizeAppend;
    if Appends(op) {
      hide Step;
      AppendsMove(h, op, o);
    } else if !MovesMail(op) {
      QuietStep(h, op);
      hide Step;
    } else {
      hide Step, Valid;
      MailOpsMove(h, op, o);
    }
  }

  lemma MailOpsMove(h: Home, op: Op, o: Key)
    requires Valid(h) && o in h.mailboxes && (op.OpFetch? || op.OpAck? || op.OpObserveBinding? || op.OpRevoke?)
    ensures o in Step(h, op).mailboxes && MailMoves(h, op, h.mailboxes[o], Step(h, op).mailboxes[o], o)
  {
    hide Valid, Wiped, Collected, With, Acknowledged, Unmoved, StoresRow, AuthorizeAppend, ObserveBinding, IngestRevocation, Gc, Ack;
    match op
    case OpFetch(x) => FetchMoves(h, x, o);
    case OpAck(x, u) => AckMoves(h, x, u, o);
    case OpObserveBinding(id, b, v) => ObserveMoves(h, id, b, v, o);
    case OpRevoke(id, stmt, v) => RevokeMoves(h, id, stmt, v, o);
  }

  lemma FetchMoves(h: Home, x: Key, o: Key)
    requires Valid(h) && o in h.mailboxes
    ensures o in Gc(h, x).mailboxes
    ensures if x == o then Collected(h.mailboxes[o], Gc(h, x).mailboxes[o], h.now, h.limits)
            else Unmoved(h.mailboxes[o], Gc(h, x).mailboxes[o])
  {
    hide Valid, Collected, Gc;
    if x in h.mailboxes { GcKeepsExactly(h, x); } else { GcNobody(h, x); }
  }

  lemma GcNobody(h: Home, x: Key)
    requires x !in h.mailboxes
    ensures Gc(h, x) == h
  {
  }

  // --------------------------------------------------------------------- whole runs

  /** The rows a mailbox holds by the time an operation collects: with the new one, if it takes one. */
  ghost function Rows(h: Home, op: Op, o: Key): map<nat, StoredEnvelope>
    requires o in h.mailboxes
  {
    if Takes(h, op, o) then With(h.mailboxes[o], Attempt(h, op).value, h.now, h.limits).rows else h.mailboxes[o].rows
  }

  /** The operation does not remove row `s` of mailbox `o` by closing it or by collection. */
  ghost predicate Keeps(h: Home, op: Op, o: Key, s: nat)
    requires o in h.mailboxes
  {
    && !Closes(h, op, o)
    && (Takes(h, op, o) || op == OpFetch(o) ==> s in Rows(h, op, o) && Survives(Rows(h, op, o), s, h.now, h.limits))
  }

  predicate Acks(op: Op, o: Key, s: nat) {
    op.OpAck? && op.owner == o && s <= op.upTo
  }

  /** Row `s` after one operation. */
  lemma RowMoves(h: Home, op: Op, o: Key, s: nat)
    requires Valid(h) && o in h.mailboxes
    ensures o in Step(h, op).mailboxes
    ensures Get(Step(h, op).mailboxes[o].rows, s)
            == if Keeps(h, op, o, s) && !Acks(op, o, s) then Get(Rows(h, op, o), s) else None
  {
    StepMoves(h, op, o);
    RowIs(h, op, h.mailboxes[o], Step(h, op).mailboxes[o], o, s);
    hide Valid, Step, MailMoves, Keeps, Acks, Rows;
  }

  lemma RowIs(h: Home, op: Op, m: Mailbox, m': Mailbox, o: Key, s: nat)
    requires o in h.mailboxes && m == h.mailboxes[o] && MailMoves(h, op, m, m', o)
    ensures Get(m'.rows, s) == if Keeps(h, op, o, s) && !Acks(op, o, s) then Get(Rows(h, op, o), s) else None
  {
    WhatCloses(h, op, o);
    if Takes(h, op, o) { TakesOnly(h, op, o); }
    hide Takes, Closes, Attempt, With, Survives, Forgets;
    if op.OpAck? && op.owner == o {
      assert Acknowledged(m, m', op.upTo);
      assert Get(m'.rows, s) == if s in m.rows && s > op.upTo then Some(m.rows[s]) else None;
    }
  }

  lemma WhatCloses(h: Home, op: Op, o: Key)
    ensures Closes(h, op, o) ==> op.OpRevoke? || op.OpObserveBinding?
  {
  }

  /** The row an operation stores. */
  function Arriving(h: Home, op: Op, o: Key): StoredEnvelope
    requires o in h.mailboxes && Takes(h, op, o)
  {
    var inner := Attempt(h, op).value;
    StoredEnvelope(h.mailboxes[o].nextSeq, h.now, Deadline(h.now, inner.ttl, h.limits.maxAge), inner)
  }

  lemma MailboxStays(hs: seq<Home>, ops: seq<Op>, o: Key, i: nat, j: nat)
    requires IsRun(hs, ops) && Valid(hs[0]) && i <= j < |hs| && o in hs[i].mailboxes
    ensures o in hs[j].mailboxes
    ensures hs[i].mailboxes[o].nextSeq <= hs[j].mailboxes[o].nextSeq
  {
    RunValid(hs, ops);
    SeqsNeverReused(hs[i..j + 1], ops[i..j], o);
    hide Valid, Step, Admissible;
  }

  /** Row `s` of mailbox `o` is kept, and not acknowledged, by each of the operations from `i` to before `j`. */
  ghost predicate Lasts(hs: seq<Home>, ops: seq<Op>, o: Key, s: nat, i: nat, j: nat)
    requires i <= j <= |ops| <= |hs|
  {
    forall k :: i <= k < j ==> o in hs[k].mailboxes && Keeps(hs[k], ops[k], o, s) && !Acks(ops[k], o, s)
  }

  /**
   The life of a row. Whatever is stored is held from then on, unchanged, in every state of every run, if and only if in
   between it was not acknowledged, the mailbox was not closed, and at each collection its deadline was ahead, it was
   within the maximum age, and the newer rows left room for it.
   */
  lemma {:induction false} StoredRowStays(hs: seq<Home>, ops: seq<Op>, o: Key, i: nat, j: nat)
    requires IsRun(hs, ops) && Valid(hs[0]) && i < j < |hs| && o in hs[i].mailboxes && Takes(hs[i], ops[i], o)
    ensures var s := hs[i].mailboxes[o].nextSeq;
            && o in hs[j].mailboxes
            && Get(hs[j].mailboxes[o].rows, s) == if Lasts(hs, ops, o, s, i, j) then Some(Arriving(hs[i], ops[i], o)) else None
    decreases j
  {
    hide Valid, Step, Admissible, Takes, Keeps, Acks, Rows, Arriving, Lasts;
    var s := hs[i].mailboxes[o].nextSeq;
    MailboxStays(hs, ops, o, i, j - 1);
    RunValid(hs, ops);
    RowMoves(hs[j - 1], ops[j - 1], o, s);
    LastsOne(hs, ops, o, s, i, j);
    if j == i + 1 {
      ArrivingRow(hs[i], ops[i], o);
    } else {
      StoredRowStays(hs, ops, o, i, j - 1);
      TakesNext(hs[i], ops[i], o);
      MailboxStays(hs, ops, o, i + 1, j - 1);
      NotArriving(hs[j - 1], ops[j - 1], o, s);
    }
  }

  lemma LastsOne(hs: seq<Home>, ops: seq<Op>, o: Key, s: nat, i: nat, j: nat)
    requires i < j <= |ops| <= |hs| && o in hs[j - 1].mailboxes
    ensures Lasts(hs, ops, o, s, i, i)
    ensures Lasts(hs, ops, o, s, i, j) <==>
            Lasts(hs, ops, o, s, i, j - 1) && Keeps(hs[j - 1], ops[j - 1], o, s) && !Acks(ops[j - 1], o, s)
  {
    hide Keeps, Acks;
  }

  lemma ArrivingRow(h: Home, op: Op, o: Key)
    requires o in h.mailboxes && Takes(h, op, o)
    ensures Get(Rows(h, op, o), h.mailboxes[o].nextSeq) == Some(Arriving(h, op, o))
  {
    hide Takes, Attempt;
  }

  /** The counter moves by one with a stored row, and not otherwise. */
  lemma NextNumber(h: Home, op: Op, m: Mailbox, m': Mailbox, o: Key)
    requires MailMoves(h, op, m, m', o)
    ensures m'.nextSeq == m.nextSeq || (Takes(h, op, o) && m'.nextSeq == m.nextSeq + 1)
  {
    hide Takes, Closes, Survives;
  }

  lemma TakesNext(h: Home, op: Op, o: Key)
    requires Valid(h) && o in h.mailboxes && Takes(h, op, o)
    ensures o in Step(h, op).mailboxes && Step(h, op).mailboxes[o].nextSeq == h.mailboxes[o].nextSeq + 1
  {
    StepMoves(h, op, o);
    hide Valid, Step, Takes, Survives;
  }

  lemma NotArriving(h: Home, op: Op, o: Key, s: nat)
    requires o in h.mailboxes && s < h.mailboxes[o].nextSeq
    ensures Get(Rows(h, op, o), s) == Get(h.mailboxes[o].rows, s)
  {
    hide Takes, Attempt;
  }

  // ------------------------------------------------------------------ what is shown

  /** Padded sizes: five buckets, each with room for the header and the message. */
  lemma PaddedSizes(inner: Inner)
    ensures var size := if inner.attachment && inner.innerLen == 262144 then 266240
                        else if inner.attachment && inner.innerLen == 1048576 then 1052672
                        else if inner.attachment && inner.innerLen == 4194304 then 4202496
                        else if inner.attachment && inner.innerLen == 16777216 then 16781312
                        else 20480;
            PaddedLen(inner) == if 66 + inner.innerLen <= size then Some(size) else None
  {
  }

  /** Right after its append a row is there exactly if it fits the limit by itself and the clock leaves it any time. */
  lemma AppendedRowIsThere(h: Home, op: Op, o: Key)
    requires Valid(h) && o in h.mailboxes && Takes(h, op, o)
    ensures var s, row := h.mailboxes[o].nextSeq, Arriving(h, op, o);
            && o in Step(h, op).mailboxes
            && PaddedLen(row.inner) == Some(RowSize(row))
            && (Get(Step(h, op).mailboxes[o].rows, s) == Some(row)
                <==> RowSize(row) <= h.limits.maxBytes && h.limits.maxAge > 0 && h.now < U64_MAX)
  {
    var s, row := h.mailboxes[o].nextSeq, Arriving(h, op, o);
    AllEarlier(h, op, o);
    RowMoves(h, op, o, s);
    ArrivingRow(h, op, o);
    TakesOnly(h, op, o);
    hide Valid, Step, Takes, AuthorizeAppend, Attempt, Rows, Bytes, PaddedLen;
    if h.now < row.expiresAt { LastStands(Rows(h, op, o), s, h.now, h.limits.maxAge); }
    hide Standing;
  }

  lemma AllEarlier(h: Home, op: Op, o: Key)
    requires Valid(h) && o in h.mailboxes && Takes(h, op, o)
    ensures forall x :: x in Rows(h, op, o) ==> x <= h.mailboxes[o].nextSeq
  {
    assert MailboxOk(h.mailboxes[o]);
    hide Valid, Takes, Attempt, Bytes;
  }

  lemma TakesOnly(h: Home, op: Op, o: Key)
    requires Takes(h, op, o)
    ensures Appends(op) && !Closes(h, op, o) && PaddedLen(Attempt(h, op).value).Some?
  {
    hide AuthorizeAppend, Reaches;
  }

  lemma LastStands(rows: map<nat, StoredEnvelope>, s: nat, now: nat, maxAge: nat)
    requires s in rows && (forall x :: x in rows ==> x <= s) && now < rows[s].expiresAt && rows[s].receivedAt == now
    ensures Bytes(Standing(rows, s, now, maxAge)) == RowSize(rows[s])
  {
    assert Standing(rows, s, now, maxAge) == map[s := rows[s]];
    BytesRemove(map[s := rows[s]], s);
    assert map[s := rows[s]] - {s} == map[];
  }

  /**
   What a fetch shows. A stored row that lasted is in every batch it belongs to: it is returned, or the batch is full
   of older rows; one that did not last is in none.
   */
  lemma FetchShows(hs: seq<Home>, ops: seq<Op>, o: Key, i: nat, j: nat, cursor: nat, limit: nat, batch: seq<StoredEnvelope>)
    requires IsRun(hs, ops) && Valid(hs[0]) && i < j < |ops| && o in hs[i].mailboxes && Takes(hs[i], ops[i], o)
    requires ops[j] == OpFetch(o) && o in hs[j + 1].mailboxes
    requires HomeServers.IsBatch(hs[j + 1].mailboxes[o].rows, cursor, hs[j].now, limit, batch)
    ensures var s, row := hs[i].mailboxes[o].nextSeq, Arriving(hs[i], ops[i], o);
            if Lasts(hs, ops, o, s, i, j + 1) && cursor < s
            then row in batch || (|batch| == limit && forall n :: 0 <= n < |batch| ==> batch[n].seqNo < s)
            else forall n :: 0 <= n < |batch| ==> batch[n].seqNo != s
  {
    StoredRowStays(hs, ops, o, i, j + 1);
    MailboxStays(hs, ops, o, i, j);
    hide Valid, Step, Admissible, Takes;
    var s, row := hs[i].mailboxes[o].nextSeq, Arriving(hs[i], ops[i], o);
    if Lasts(hs, ops, o, s, i, j + 1) {
      StoredRowLives(hs, ops, o, i, j);
      hide Lasts, Arriving;
      assert HomeServers.Fetchable(row, cursor, hs[j].now) <==> cursor < row.seqNo;
      assert row.seqNo == s;
    }
  }

  lemma StoredRowLives(hs: seq<Home>, ops: seq<Op>, o: Key, i: nat, j: nat)
    requires IsRun(hs, ops) && Valid(hs[0]) && i < j < |ops| && o in hs[i].mailboxes && Takes(hs[i], ops[i], o)
    requires ops[j] == OpFetch(o) && Lasts(hs, ops, o, hs[i].mailboxes[o].nextSeq, i, j + 1)
    ensures Arriving(hs[i], ops[i], o).seqNo == hs[i].mailboxes[o].nextSeq
    ensures hs[j].now < Arriving(hs[i], ops[i], o).expiresAt
  {
    StoredRowStays(hs, ops, o, i, j);
    var s := hs[i].mailboxes[o].nextSeq;
    assert Keeps(hs[j], ops[j], o, s);
    hide Valid, Step, Admissible;
    assert Lasts(hs, ops, o, s, i, j);
    hide Lasts;
    assert !Takes(hs[j], ops[j], o);
    hide Takes;
  }

  // -------------------------------------------------------------- repeated appends

  /** Row `s`, while held, is not lost to collection or closing; being acknowledged does no harm. */
  ghost predicate Recalled(hs: seq<Home>, ops: seq<Op>, o: Key, s: nat, i: nat, j: nat)
    requires i <= j <= |ops| <= |hs|
  {
    forall k :: i <= k < j ==>
      o in hs[k].mailboxes && (s in Rows(hs[k], ops[k], o) ==> Keeps(hs[k], ops[k], o, s))
  }

  lemma IdemMoves(h: Home, op: Op, o: Key, t: Key, s: nat)
    requires Valid(h) && o in h.mailboxes && s < h.mailboxes[o].nextSeq
    ensures o in Step(h, op).mailboxes
    ensures Get(Step(h, op).mailboxes[o].idem, t) == Some(s)
            <==> Get(h.mailboxes[o].idem, t) == Some(s) && (s in Rows(h, op, o) ==> Keeps(h, op, o, s))
  {
    StepMoves(h, op, o);
    if Takes(h, op, o) { TakesNew(h, op, o); }
    EntryIs(h, op, h.mailboxes[o], Step(h, op).mailboxes[o], o, t, s);
    hide Valid, Step, MailMoves, Keeps, Rows;
  }

  lemma TakesNew(h: Home, op: Op, o: Key)
    requires o in h.mailboxes && Takes(h, op, o)
    ensures Attempt(h, op).value.idem !in h.mailboxes[o].idem
  {
    hide AuthorizeAppend, Attempt;
  }

  lemma EntryIs(h: Home, op: Op, m: Mailbox, m': Mailbox, o: Key, t: Key, s: nat)
    requires o in h.mailboxes && m == h.mailboxes[o] && MailMoves(h, op, m, m', o) && s < m.nextSeq
    requires Takes(h, op, o) ==> Attempt(h, op).value.idem !in m.idem
    ensures Get(m'.idem, t) == Some(s) <==> Get(m.idem, t) == Some(s) && (s in Rows(h, op, o) ==> Keeps(h, op, o, s))
  {
    hide Takes, Closes, Attempt, Survives;
  }

  lemma EntryArrives(h: Home, op: Op, o: Key)
    requires Valid(h) && o in h.mailboxes && Takes(h, op, o)
    ensures o in Step(h, op).mailboxes
    ensures var s, t := h.mailboxes[o].nextSeq, Attempt(h, op).value.idem;
            Get(Step(h, op).mailboxes[o].idem, t) == Some(s) <==> (s in Rows(h, op, o) ==> Keeps(h, op, o, s))
  {
    StepMoves(h, op, o);
    TakesOnly(h, op, o);
    hide Valid, Step, Takes, Closes, Attempt, Survives;
  }

  lemma {:induction false} EntryStays(hs: seq<Home>, ops: seq<Op>, o: Key, i: nat, j: nat)
    requires IsRun(hs, ops) && Valid(hs[0]) && i < j < |hs| && o in hs[i].mailboxes && Takes(hs[i], ops[i], o)
    ensures o in hs[j].mailboxes
    ensures var s, t := hs[i].mailboxes[o].nextSeq, Attempt(hs[i], ops[i]).value.idem;
            Get(hs[j].mailboxes[o].idem, t) == Some(s) <==> Recalled(hs, ops, o, s, i, j)
    decreases j
  {
    hide Valid, Step, Admissible, Takes, Attempt, Keeps, Rows, Recalled;
    AttemptMade(hs[i], ops[i], o);
    var s, t := hs[i].mailboxes[o].nextSeq, Attempt(hs[i], ops[i]).value.idem;
    MailboxStays(hs, ops, o, i, j - 1);
    RunValid(hs, ops);
    RecalledOne(hs, ops, o, s, i, j);
    if j == i + 1 {
      EntryArrives(hs[i], ops[i], o);
    } else {
      EntryStays(hs, ops, o, i, j - 1);
      TakesNext(hs[i], ops[i], o);
      MailboxStays(hs, ops, o, i + 1, j - 1);
      IdemMoves(hs[j - 1], ops[j - 1], o, t, s);
    }
  }

  lemma AttemptMade(h: Home, op: Op, o: Key)
    requires Takes(h, op, o)
    ensures Attempt(h, op).Some?
  {
    hide Attempt, StoresRow, AuthorizeAppend;
  }

  lemma RecalledOne(hs: seq<Home>, ops: seq<Op>, o: Key, s: nat, i: nat, j: nat)
    requires i < j <= |ops| <= |hs| && o in hs[j - 1].mailboxes
    ensures Recalled(hs, ops, o, s, i, i)
    ensures Recalled(hs, ops, o, s, i, j) <==>
            Recalled(hs, ops, o, s, i, j - 1) && (s in Rows(hs[j - 1], ops[j - 1], o) ==> Keeps(hs[j - 1], ops[j - 1], o, s))
  {
    hide Keeps, Rows;
  }

  /**
   Repeating an append. At any later moment of the run an authorised append to the same mailbox with the same
   idempotency token is answered with the number of the first one, and moves no mailbox, if and only if the row was not
   lost to collection or closing in the meantime; acknowledged or not makes no difference.
   */
  lemma RetryAnswered(hs: seq<Home>, ops: seq<Op>, o: Key, i: nat, j: nat, again: Inner)
    requires IsRun(hs, ops) && Valid(hs[0]) && i < j < |hs| && o in hs[i].mailboxes && Takes(hs[i], ops[i], o)
    requires again.idem == Attempt(hs[i], ops[i]).value.idem && AuthorizeAppend(hs[j], again.capability).1 == Ok(o)
    ensures var s := hs[i].mailboxes[o].nextSeq;
            && (AppendInner(hs[j], again).1 == Ok(s) <==> Recalled(hs, ops, o, s, i, j))
            && (Recalled(hs, ops, o, s, i, j) ==> AppendInner(hs[j], again).0.mailboxes == hs[j].mailboxes)
  {
    EntryStays(hs, ops, o, i, j);
    RunValid(hs, ops);
    AppendReply(hs[j], again, o);
    TakesNext(hs[i], ops[i], o);
    MailboxStays(hs, ops, o, i + 1, j);
    hide Valid, Step, Admissible, Takes, Attempt, AppendInner, AuthorizeAppend, Recalled;
  }

  /** What an authorised append answers. */
  lemma AppendReply(h: Home, inner: Inner, o: Key)
    requires Valid(h) && AuthorizeAppend(h, inner.capability).1 == Ok(o)
    ensures o in h.mailboxes
    ensures var m, r := h.mailboxes[o], AppendInner(h, inner).1;
            && (inner.idem in m.idem ==> r == Ok(m.idem[inner.idem]) && AppendInner(h, inner).0.mailboxes == h.mailboxes)
            && (inner.idem !in m.idem ==> r == (if 66 + inner.innerLen > OuterLen(inner) then Err(Wire) else Ok(m.nextSeq)))
  {
    AuthorizeValid(h, inner.capability);
    AuthorizeLeavesMail(h, inner.capability);
    hide Valid, AuthorizeAppend, Gc, BurnIfShare, Store;
  }
}
