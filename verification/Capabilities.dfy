/**
 Capabilities over whole runs: prekeys are conserved and handed out once, a share token stores at most one
 row, and a contact capability is rate limited in every interval. A ghost ledger records what happened.
 */
module Capabilities {
  import opened Basics
  import opened HomeState
  import opened HomeRun
  import opened HomeJournal
  import opened TokenMoves
  import opened Retention

  // One rate window of a contact capability: when it opened and when appends were authorised in it.
  datatype Window = Window(start: nat, times: seq<nat>)

  datatype Ledger = Ledger(
    published: map<Key, seq<Blob>>,   // blobs accepted per owner, in order
    handed: seq<Handout>,             // reservations, in order
    minted: set<Key>,                 // every capability ever created
    shares: set<Key>,                 // those of them that are share tokens
    stored: seq<Key>,                 // capability of every row ever stored, in order
    windows: map<Key, seq<Window>>)   // rate windows per contact capability

  function Published(l: Ledger, o: Key): seq<Blob> {
    if o in l.published then l.published[o] else []
  }

  /** The blobs reserved from one owner's queue, in reservation order. */
  function BlobsOf(handed: seq<Handout>, o: Key): seq<Blob> {
    if handed == [] then []
    else
      var r := handed[|handed| - 1];
      BlobsOf(handed[..|handed| - 1], o) + (if r.owner == o then [r.blob] else [])
  }

  /** An authorised append through a contact capability opens a window or counts in the current one. */
  function Charge(ws: seq<Window>, kind: TokenKind, now: nat): seq<Window>
    requires kind.Contact?
  {
    if ws == [] || SatSub(now, kind.windowStart) >= 60 then ws + [Window(now, [now])]
    else ws[|ws| - 1 := ws[|ws| - 1].(times := ws[|ws| - 1].times + [now])]
  }

  /** The capability an append attempt is charged to, if it is a contact capability that lets it through. */
  function ChargedTo(h: Home, op: Op): Option<Key> {
    match Attempt(h, op)
    case None => None
    case Some(inner) =>
      var k := MemToken(h.tokens, inner.capability);
      if k.Some? && Chargeable(k.value, h.now) then Some(inner.capability) else None
  }

  function Record(h: Home, op: Op, l: Ledger): Ledger {
    var m := Mints(h, op);
    var c := ChargedTo(h, op);
    Ledger(
      if op.OpPublishPrekey? && Enabled(h, op.owner)
      then l.published[op.owner := Published(l, op.owner) + [op.blob]] else l.published,
      match Reserves(h, op) case Some(r) => l.handed + [r] case None => l.handed,
      if m.Some? then l.minted + {m.value.token} else l.minted,
      if m.Some? && m.value.kind.Share? then l.shares + {m.value.token} else l.shares,
      (match Attempt(h, op)
       case Some(inner) => if StoresRow(h, inner) then l.stored + [inner.capability] else l.stored
       case None => l.stored),
      if m.Some? && m.value.kind.Contact? then l.windows[m.value.token := [Window(h.now, [])]]
      else if c.Some? && c.value in l.windows
      then l.windows[c.value := Charge(l.windows[c.value], MemToken(h.tokens, c.value).value, h.now)]
      else l.windows)
  }

  /** Steps of a run: admissible, with capabilities that were never used before, and a clock that does not go back. */
  ghost predicate Legal(h: Home, l: Ledger, op: Op) {
    && Admissible(h, op)
    && (Mints(h, op).Some? ==> Mints(h, op).value.token !in l.minted)
    && (op.OpTick? ==> h.now <= op.time)
  }

  // ------------------------------------------------------------------ prekeys

  ghost predicate DistinctHandouts(handed: seq<Handout>) {
    forall i, j :: 0 <= i < j < |handed| ==> handed[i].token != handed[j].token
  }

  ghost predicate QueuesConserved(h: Home, l: Ledger) {
    forall o :: o !in h.mailboxes || Enabled(h, o) ==> BlobsOf(l.handed, o) + QueueOf(h, o) == Published(l, o)
  }

  /** A share token shows its reservation, and exactly its own. */
  ghost predicate ReservationsShown(h: Home, l: Ledger) {
    forall t :: MemToken(h.tokens, t).Some? ==>
      && t in l.minted
      && (MemToken(h.tokens, t).value.Share? ==> ShowsReservation(l.handed, t, MemToken(h.tokens, t).value))
  }

  ghost predicate ShowsReservation(handed: seq<Handout>, t: Key, kind: TokenKind)
    requires kind.Share?
  {
    match kind.reserved
    case Some(b) => Handout(kind.mailbox, t, b) in handed
    case None => forall i :: 0 <= i < |handed| ==> handed[i].token != t
  }

  ghost predicate PrekeysOnce(h: Home, l: Ledger) {
    && QueuesConserved(h, l)
    && DistinctHandouts(l.handed)
    && (forall i :: 0 <= i < |l.handed| ==> l.handed[i].token in l.minted)
    && ReservationsShown(h, l)
  }

  lemma BlobsPush(handed: seq<Handout>, r: Handout, o: Key)
    ensures BlobsOf(handed + [r], o) == BlobsOf(handed, o) + (if r.owner == o then [r.blob] else [])
  {
    assert (handed + [r])[..|handed|] == handed;
  }

  lemma RecordQueues(h: Home, op: Op, l: Ledger, o: Key)
    ensures Published(Record(h, op, l), o)
            == Published(l, o) + (if op.OpPublishPrekey? && op.owner == o && Enabled(h, o) then [op.blob] else [])
    ensures BlobsOf(Record(h, op, l).handed, o)
            == BlobsOf(l.handed, o)
               + (match Reserves(h, op) case Some(r) => (if r.owner == o then [r.blob] else []) case None => [])
  {
    hide Reserves, Mints, Attempt, StoresRow, ChargedTo;
    if Reserves(h, op).Some? { BlobsPush(l.handed, Reserves(h, op).value, o); }
  }

  lemma QueuesStep(h: Home, op: Op, l: Ledger, o: Key)
    requires Valid(h) && Valid(Step(h, op)) && QueuesConserved(h, l)
    requires o !in Step(h, op).mailboxes || Enabled(Step(h, op), o)
    requires o in h.mailboxes ==> o in Step(h, op).mailboxes && (h.mailboxes[o].disabled ==> Step(h, op).mailboxes[o].disabled)
    ensures BlobsOf(Record(h, op, l).handed, o) + QueueOf(Step(h, op), o) == Published(Record(h, op, l), o)
  {
    hide MailboxesOk, TokensOk, DirectoryOk, MembershipsOk, Step, MemToken, Record, BlobsOf, Published;
    RecordQueues(h, op, l, o);
    assert BlobsOf(l.handed, o) + QueueOf(h, o) == Published(l, o);
    if Enabled(Step(h, op), o) {
      QueueStep(h, op, o);
      Regroup(BlobsOf(l.handed, o), QueueOf(h, o));
      if op.OpPublishPrekey? { Assoc(BlobsOf(l.handed, o), QueueOf(h, o), [op.blob]); }
    } else {
      assert QueueOf(Step(h, op), o) == [] && QueueOf(h, o) == [];
    }
  }

  lemma Regroup(a: seq<Blob>, q: seq<Blob>)
    ensures q != [] ==> a + [q[0]] + q[1..] == a + q
    ensures a + [] + q == a + q
  {
  }

  lemma Assoc(a: seq<Blob>, q: seq<Blob>, b: seq<Blob>)
    ensures a + (q + b) == a + q + b
  {
  }

  /** A surviving share token keeps its owner, and its reservation only ever goes from none to the one just made. */
  lemma NextKindShare(h: Home, op: Op, t: Key, kind: TokenKind)
    requires MemToken(h.tokens, t) == Some(kind)
    ensures var k := NextKind(h, op, t, kind);
            && k.mailbox == kind.mailbox
            && (k.Share? <==> kind.Share?)
            && (kind.Share? ==>
                  && (kind.burned ==> k.burned)
                  && k.reserved == match Reserves(h, op)
                                   case Some(r) => (if r.token == t then Some(r.blob) else kind.reserved)
                                   case None => kind.reserved)
  {
    hide MemToken, StoresRow, Attempt;
  }

  lemma ReservesFrom(h: Home, op: Op)
    requires Reserves(h, op).Some?
    ensures var r := Reserves(h, op).value;
            && MemToken(h.tokens, r.token).Some?
            && MemToken(h.tokens, r.token).value.Share?
            && MemToken(h.tokens, r.token).value.reserved == None
            && MemToken(h.tokens, r.token).value.mailbox == r.owner
    ensures Mints(h, op) == None
  {
  }

  lemma MintsUnreserved(h: Home, op: Op)
    ensures Mints(h, op).Some? && Mints(h, op).value.kind.Share? ==> Mints(h, op).value.kind.reserved == None
    ensures Mints(h, op).Some? ==> Reserves(h, op) == None && Attempt(h, op) == None
  {
  }

  lemma HandoutsStep(h: Home, op: Op, l: Ledger)
    requires ReservationsShown(h, l) && DistinctHandouts(l.handed)
    requires forall i :: 0 <= i < |l.handed| ==> l.handed[i].token in l.minted
    ensures var l1 := Record(h, op, l);
            DistinctHandouts(l1.handed) && forall i :: 0 <= i < |l1.handed| ==> l1.handed[i].token in l1.minted
  {
    hide MemToken, Mints, Attempt, StoresRow, ChargedTo;
    if Reserves(h, op).Some? {
      ReservesFrom(h, op);
      hide Reserves;
      var r := Reserves(h, op).value;
      assert ShowsReservation(l.handed, r.token, MemToken(h.tokens, r.token).value);
    }
  }

  lemma ShownStep(h: Home, op: Op, l: Ledger, t: Key, kind: TokenKind)
    requires Valid(h) && Legal(h, l, op) && ReservationsShown(h, l)
    requires forall i :: 0 <= i < |l.handed| ==> l.handed[i].token in l.minted
    requires MemToken(Step(h, op).tokens, t) == Some(kind)
    ensures t in Record(h, op, l).minted
    ensures kind.Share? ==> ShowsReservation(Record(h, op, l).handed, t, kind)
  {
    hide Valid, MemToken, Step, Mints, Attempt, StoresRow, ChargedTo, Admissible, NextKind;
    TokenStep(h, op, t);
    MintsUnreserved(h, op);
    var before := MemToken(h.tokens, t);
    if before.Some? {
      NextKindShare(h, op, t, before.value);
      if Reserves(h, op).Some? { ReservesFrom(h, op); }
      hide Reserves;
      assert kind.Share? ==> ShowsReservation(l.handed, t, before.value);
    }
  }

  lemma PrekeysStep(h: Home, op: Op, l: Ledger)
    requires Valid(h) && Legal(h, l, op) && PrekeysOnce(h, l)
    ensures PrekeysOnce(Step(h, op), Record(h, op, l))
  {
    hide Valid, Step, Record, MemToken, Legal, ShowsReservation, AllEvolve;
    assert Admissible(h, op) by { LegalAdmissible(h, l, op); }
    StepValid(h, op);
    StepEvolves(h, op);
    HandoutsStep(h, op, l);
    forall o | o !in Step(h, op).mailboxes || Enabled(Step(h, op), o)
      ensures BlobsOf(Record(h, op, l).handed, o) + QueueOf(Step(h, op), o) == Published(Record(h, op, l), o)
    {
      EvolvesEnabled(h, Step(h, op), o);
      QueuesStep(h, op, l, o);
    }
    forall t | MemToken(Step(h, op).tokens, t).Some?
      ensures t in Record(h, op, l).minted
      ensures MemToken(Step(h, op).tokens, t).value.Share? ==>
                ShowsReservation(Record(h, op, l).handed, t, MemToken(Step(h, op).tokens, t).value)
    {
      ShownStep(h, op, l, t, MemToken(Step(h, op).tokens, t).value);
    }
  }

  lemma LegalAdmissible(h: Home, l: Ledger, op: Op)
    requires Legal(h, l, op)
    ensures Admissible(h, op)
  {
  }

  lemma EvolvesEnabled(h: Home, h': Home, o: Key)
    requires AllEvolve(h, h')
    ensures o in h.mailboxes ==> o in h'.mailboxes && (h.mailboxes[o].disabled ==> h'.mailboxes[o].disabled)
  {
  }

  // ------------------------------------------------------------- share tokens

  /** A share token through which a row was stored is burned or gone, and stored just that row. */
  ghost predicate SharesOnce(h: Home, l: Ledger) {
    && (forall i, j :: 0 <= i < j < |l.stored| && l.stored[i] in l.shares ==> l.stored[i] != l.stored[j])
    && (forall i :: 0 <= i < |l.stored| ==> l.stored[i] in l.minted)
    && l.shares <= l.minted
    && forall t :: MemToken(h.tokens, t).Some? ==> ShareStanding(l, t, MemToken(h.tokens, t).value)
  }

  ghost predicate ShareStanding(l: Ledger, t: Key, kind: TokenKind) {
    && t in l.minted
    && (kind.Share? <==> t in l.shares)
    && (kind.Share? && !kind.burned ==> t !in l.stored)
  }

  lemma StoresThrough(h: Home, inner: Inner)
    requires Valid(h) && StoresRow(h, inner)
    ensures var k := MemToken(h.tokens, inner.capability); k.Some? && (k.value.Share? ==> !k.value.burned)
  {
    hide MailboxesOk, DirectoryOk, PrekeysOk, MembershipsOk, MemToken;
    LastIsFirst(h.tokens, inner.capability);
    hide LastIndex;
  }

  lemma StandingStep(h: Home, op: Op, l: Ledger, t: Key, kind: TokenKind)
    requires Valid(h) && Legal(h, l, op) && SharesOnce(h, l)
    requires MemToken(Step(h, op).tokens, t) == Some(kind)
    ensures ShareStanding(Record(h, op, l), t, kind)
  {
    hide Valid, MemToken, Step, Mints, StoresRow, ChargedTo, Admissible, Reserves, Attempt;
    TokenStep(h, op, t);
    MintsUnreserved(h, op);
    MintsUnburned(h, op);
    var before := MemToken(h.tokens, t);
    if before.Some? {
      assert ShareStanding(l, t, before.value);
      NextKindShare(h, op, t, before.value);
      if Attempt(h, op).Some? && StoresRow(h, Attempt(h, op).value) && Attempt(h, op).value.capability == t {
        StoredBurns(h, op, t, before.value);
      }
      hide NextKind;
    }
  }

  lemma MintsUnburned(h: Home, op: Op)
    ensures Mints(h, op).Some? && Mints(h, op).value.kind.Share? ==> !Mints(h, op).value.kind.burned
  {
  }

  lemma StoredBurns(h: Home, op: Op, t: Key, kind: TokenKind)
    requires Attempt(h, op).Some? && StoresRow(h, Attempt(h, op).value) && Attempt(h, op).value.capability == t
    ensures kind.Share? ==> NextKind(h, op, t, kind) == kind.(burned := true)
  {
    hide StoresRow;
  }

  lemma StoredStep(h: Home, op: Op, l: Ledger)
    requires Valid(h) && Legal(h, l, op) && SharesOnce(h, l)
    ensures var l1 := Record(h, op, l);
            && (forall i, j :: 0 <= i < j < |l1.stored| && l1.stored[i] in l1.shares ==> l1.stored[i] != l1.stored[j])
            && (forall i :: 0 <= i < |l1.stored| ==> l1.stored[i] in l1.minted)
            && l1.shares <= l1.minted
  {
    hide Valid, MemToken, StoresRow, ChargedTo, Admissible, Reserves, Mints, Attempt, ShareStanding;
    MintsUnreserved(h, op);
    if Attempt(h, op).Some? && StoresRow(h, Attempt(h, op).value) {
      var inner := Attempt(h, op).value;
      StoresThrough(h, inner);
      StandingUnstored(l, inner.capability, MemToken(h.tokens, inner.capability).value);
    }
  }

  lemma StandingUnstored(l: Ledger, t: Key, kind: TokenKind)
    requires ShareStanding(l, t, kind) && (kind.Share? ==> !kind.burned)
    ensures t in l.minted && (t in l.shares ==> t !in l.stored)
  {
  }

  lemma SharesStep(h: Home, op: Op, l: Ledger)
    requires Valid(h) && Legal(h, l, op) && SharesOnce(h, l)
    ensures SharesOnce(Step(h, op), Record(h, op, l))
  {
    StoredStep(h, op, l);
    hide Valid, Step, Record, MemToken, Legal, ShareStanding;
    forall t | MemToken(Step(h, op).tokens, t).Some?
      ensures ShareStanding(Record(h, op, l), t, MemToken(Step(h, op).tokens, t).value)
    {
      StandingStep(h, op, l, t, MemToken(Step(h, op).tokens, t).value);
    }
  }

  // ------------------------------------------------------------- rate limiting

  /** Windows hold at most 30 appends each, within a minute of opening, and open at least a minute apart. */
  ghost predicate WindowsOk(ws: seq<Window>, now: nat) {
    && (forall i :: 0 <= i < |ws| ==> WindowOk(ws[i], now))
    && forall i, j :: 0 <= i < j < |ws| ==> ws[i].start + 60 <= ws[j].start
  }

  ghost predicate WindowOk(w: Window, now: nat) {
    && w.start <= now
    && |w.times| <= RATE_PER_MIN
    && forall i :: 0 <= i < |w.times| ==> w.start <= w.times[i] < w.start + 60
  }

  ghost predicate Tracks(l: Ledger, t: Key, kind: TokenKind) {
    kind.Contact? ==>
      && t in l.windows
      && l.windows[t] != []
      && (var w := l.windows[t][|l.windows[t]| - 1]; w.start == kind.windowStart && |w.times| == kind.windowCount)
  }

  ghost predicate RatesOk(h: Home, l: Ledger) {
    && (forall t :: t in l.windows ==> t in l.minted && WindowsOk(l.windows[t], h.now))
    && forall t :: MemToken(h.tokens, t).Some? ==> t in l.minted && Tracks(l, t, MemToken(h.tokens, t).value)
  }

  lemma ChargeOk(ws: seq<Window>, kind: TokenKind, now: nat)
    requires WindowsOk(ws, now) && Chargeable(kind, now) && ws != []
    requires ws[|ws| - 1].start == kind.windowStart && |ws[|ws| - 1].times| == kind.windowCount
    ensures WindowsOk(Charge(ws, kind, now), now)
    ensures var vs := Charge(ws, kind, now); var k := Charged(kind, now);
            vs != [] && vs[|vs| - 1].start == k.windowStart && |vs[|vs| - 1].times| == k.windowCount
  {
    var last := ws[|ws| - 1];
    assert WindowOk(last, now);
    if SatSub(now, kind.windowStart) >= 60 {
      assert WindowOk(Window(now, [now]), now);
    } else {
      assert WindowOk(last.(times := last.times + [now]), now);
    }
  }

  lemma WindowsLater(ws: seq<Window>, now: nat, later: nat)
    requires WindowsOk(ws, now) && now <= later
    ensures WindowsOk(ws, later)
  {
    assert forall i :: 0 <= i < |ws| ==> WindowOk(ws[i], now);
  }

  lemma NextKindContact(h: Home, op: Op, t: Key, kind: TokenKind)
    requires MemToken(h.tokens, t) == Some(kind) && kind.Contact?
    ensures var k := NextKind(h, op, t, kind);
            && k.Contact?
            && (if ChargedTo(h, op) == Some(t) then k == Charged(kind, h.now)
                else k.windowStart == kind.windowStart && k.windowCount == kind.windowCount)
  {
    hide MemToken, StoresRow;
    if op.OpFetchPrekey? || op.OpRotateContact? { assert Attempt(h, op) == None; } else { hide Attempt; }
  }

  lemma ChargedShape(h: Home, op: Op)
    requires ChargedTo(h, op).Some?
    ensures var t := ChargedTo(h, op).value;
            MemToken(h.tokens, t).Some? && Chargeable(MemToken(h.tokens, t).value, h.now)
    ensures Mints(h, op) == None
  {
    hide MemToken;
    MintsUnreserved(h, op);
  }

  /** The ledger charges exactly the contact appends the server authorises. */
  lemma ChargedIsAuthorised(h: Home, op: Op, inner: Inner)
    requires Valid(h) && Attempt(h, op) == Some(inner)
    requires MemToken(h.tokens, inner.capability).Some? && MemToken(h.tokens, inner.capability).value.Contact?
    ensures ChargedTo(h, op) == Some(inner.capability) <==> AuthorizeAppend(h, inner.capability).1.Ok?
  {
    hide MailboxesOk, DirectoryOk, PrekeysOk, MembershipsOk, MemToken, Attempt;
    LastIsFirst(h.tokens, inner.capability);
    hide LastIndex;
  }

  /** The ledger counts a stored row exactly when a mailbox takes a new sequence number. */
  lemma StoredIsNewRow(h: Home, inner: Inner)
    requires Valid(h)
    ensures StoresRow(h, inner) ==>
              var o := AuthorizeAppend(h, inner.capability).1.value;
              o in AppendInner(h, inner).0.mailboxes
              && AppendInner(h, inner).0.mailboxes[o].nextSeq == h.mailboxes[o].nextSeq + 1
    ensures !StoresRow(h, inner) ==> AppendInner(h, inner).0.mailboxes == h.mailboxes
  {
    AuthorizeValid(h, inner.capability);
    AuthorizeShape(h, inner.capability);
    var (h1, r) := AuthorizeAppend(h, inner.capability);
    hide Valid, AuthorizeAppend, BurnIfShare, Retained, EnvelopeExpiry;
    if StoresRow(h, inner) {
      var h2 := Store(h1, r.value, inner, PaddedLen(inner).value);
      assert h2.mailboxes[r.value].nextSeq == h.mailboxes[r.value].nextSeq + 1;
      BurnMailboxes(h2, inner.capability);
      hide Store;
    }
  }

  lemma BurnMailboxes(h: Home, token: Key)
    ensures BurnIfShare(h, token).mailboxes == h.mailboxes
  {
    hide LastIndex;
  }

  lemma ClockStep(h: Home, op: Op, l: Ledger)
    requires Legal(h, l, op)
    ensures h.now <= Step(h, op).now
  {
    if op.OpTick? {
    } else {
      NowStays(h, op);
    }
  }

  lemma NowStays(h: Home, op: Op)
    requires !op.OpTick?
    ensures Step(h, op).now == h.now
  {
    hide LastIndex, DeadFor, DeadTokens, Without, WithoutOwner, Trim, Retained, Keyed, NewMailbox, AckRows;
    if Appends(op) { AppendsKeepNow(h, op); hide Step; }
    else if op.OpRotateContact? { RotateKeepsNow(h, op.owner, op.oldToken, op.confirm, op.token); hide RotateContact; }
    else if op.OpObserveBinding? || op.OpRevoke? || op.OpRegisterCard? { }
    else if op.OpPin? || op.OpRefuse? || op.OpRotateSign? || op.OpResetLink? || op.OpTakeFrame? || op.OpHelloDone? {
      PeerStepQuiet(h, op);
      hide Step;
    }
  }

  lemma RotateKeepsNow(h: Home, owner: Key, oldToken: Key, confirm: bool, token: Key)
    ensures RotateContact(h, owner, oldToken, confirm, token).0.now == h.now
  {
    hide DeadFor, Without, LastIndex;
  }

  lemma AppendKeepsNow(h: Home, inner: Inner)
    ensures AppendInner(h, inner).0.now == h.now
  {
    hide Gc, BurnIfShare, Store, LastIndex;
    AuthorizeShape(h, inner.capability);
    var (h1, r) := AuthorizeAppend(h, inner.capability);
    hide AuthorizeAppend;
    if r.Ok? && r.value in h1.mailboxes && PaddedLen(inner).Some? {
      var h2 := Store(h1, r.value, inner, PaddedLen(inner).value);
      StoreShape(h1, r.value, inner, PaddedLen(inner).value);
      BurnShape(h2, inner.capability);
      GcTokens(BurnIfShare(h2, inner.capability), r.value);
    }
  }

  lemma AppendsKeepNow(h: Home, op: Op)
    requires Appends(op)
    ensures Step(h, op).now == h.now
  {
    hide AppendInner;
    match op
    case OpAppend(inner) => AppendKeepsNow(h, inner);
    case OpIngest(enc, plain) => if plain.Some? { AppendKeepsNow(h, plain.value); }
    case OpEnqueue(outer) => if outer.plain.Some? { AppendKeepsNow(h, outer.plain.value); }
    case OpAcceptFrame(p, frame) => AcceptKeepsNow(h, p, frame);
  }

  lemma IngestKeepsNow(h: Home, enc: Option<Key>, plain: Option<Inner>)
    ensures Ingest(h, enc, plain).0.now == h.now
  {
    hide AppendInner;
    if plain.Some? { AppendKeepsNow(h, plain.value); }
  }

  lemma AcceptKeepsNow(h: Home, p: Key, frame: Frame)
    ensures AcceptFrame(h, p, frame).0.now == h.now
  {
    hide Ingest;
    if p in h.peers && frame.payload.Ciphertext? {
      var h1 := MarkPeer(h, p, h.peers[p].(lastRx := frame.counter));
      IngestKeepsNow(h1.(peers := h1.peers[p := Windowed(h1.peers[p], h1.now)]), frame.payload.enc, frame.payload.plain);
    }
  }

  lemma TracksStep(h: Home, op: Op, l: Ledger, t: Key, kind: TokenKind)
    requires Valid(h) && Legal(h, l, op) && RatesOk(h, l)
    requires MemToken(Step(h, op).tokens, t) == Some(kind)
    ensures t in Record(h, op, l).minted && Tracks(Record(h, op, l), t, kind)
  {
    hide Valid, MemToken, Step, Mints, StoresRow, ChargedTo, Admissible, Reserves, Attempt, NextKind, Chargeable, WindowsOk,
         Charge, Charged;
    TokenStep(h, op, t);
    MintedContact(h, op);
    var before := MemToken(h.tokens, t);
    if before.Some? {
      NextKindShare(h, op, t, before.value);
      assert Tracks(l, t, before.value);
      if before.value.Contact? {
        NextKindContact(h, op, t, before.value);
        if ChargedTo(h, op) == Some(t) {
          ChargedShape(h, op);
          ChargeOk(l.windows[t], before.value, h.now);
        } else if ChargedTo(h, op).Some? { ChargedShape(h, op); }
      }
    }
  }

  lemma MintedContact(h: Home, op: Op)
    ensures Mints(h, op).Some? && Mints(h, op).value.kind.Contact? ==>
              Mints(h, op).value.kind.windowStart == h.now && Mints(h, op).value.kind.windowCount == 0
  {
  }

  lemma WindowsStep(h: Home, op: Op, l: Ledger, t: Key)
    requires Legal(h, l, op) && RatesOk(h, l) && t in Record(h, op, l).windows
    ensures t in Record(h, op, l).minted && WindowsOk(Record(h, op, l).windows[t], h.now)
  {
    hide MemToken, Mints, StoresRow, ChargedTo, Admissible, Reserves, Attempt, Chargeable, Charge;
    if ChargedTo(h, op).Some? {
      ChargedShape(h, op);
      var c := ChargedTo(h, op).value;
      assert Tracks(l, c, MemToken(h.tokens, c).value);
      ChargeableContact(MemToken(h.tokens, c).value, h.now);
      ChargeOk(l.windows[c], MemToken(h.tokens, c).value, h.now);
    }
  }

  lemma ChargeableContact(kind: TokenKind, now: nat)
    requires Chargeable(kind, now)
    ensures kind.Contact?
  {
  }

  lemma RatesStep(h: Home, op: Op, l: Ledger)
    requires Valid(h) && Legal(h, l, op) && RatesOk(h, l)
    ensures RatesOk(Step(h, op), Record(h, op, l))
  {
    ClockStep(h, op, l);
    hide Valid, Step, Record, MemToken, Legal, Tracks, WindowsOk;
    forall t | t in Record(h, op, l).windows
      ensures t in Record(h, op, l).minted && WindowsOk(Record(h, op, l).windows[t], Step(h, op).now)
    {
      WindowsStep(h, op, l, t);
      WindowsLater(Record(h, op, l).windows[t], h.now, Step(h, op).now);
    }
    forall t | MemToken(Step(h, op).tokens, t).Some?
      ensures t in Record(h, op, l).minted && Tracks(Record(h, op, l), t, MemToken(Step(h, op).tokens, t).value)
    {
      TracksStep(h, op, l, t, MemToken(Step(h, op).tokens, t).value);
    }
  }

  function Within(times: seq<nat>, a: nat, b: nat): nat {
    if times == [] then 0
    else Within(times[..|times| - 1], a, b) + (if a <= times[|times| - 1] <= b then 1 else 0)
  }

  /** Appends authorised in the closed interval from `a` to `b`. */
  function Authorised(ws: seq<Window>, a: nat, b: nat): nat {
    if ws == [] then 0
    else Authorised(ws[..|ws| - 1], a, b) + Within(ws[|ws| - 1].times, a, b)
  }

  lemma WithinBounds(times: seq<nat>, a: nat, b: nat)
    ensures Within(times, a, b) <= |times|
    ensures Within(times, a, b) > 0 ==> exists i :: 0 <= i < |times| && a <= times[i] <= b
  {
  }

  lemma NoneBefore(ws: seq<Window>, now: nat, a: nat, b: nat)
    requires WindowsOk(ws, now) && forall i :: 0 <= i < |ws| ==> ws[i].start + 60 <= a
    ensures Authorised(ws, a, b) == 0
  {
    if ws != [] {
      NoneBefore(ws[..|ws| - 1], now, a, b);
      WithinBounds(ws[|ws| - 1].times, a, b);
      assert WindowOk(ws[|ws| - 1], now);
    }
  }

  /** Any minute-long interval, ends included, meets at most two windows: at most 60 appends get through. */
  lemma {:induction false} RateBound(ws: seq<Window>, now: nat, a: nat)
    requires WindowsOk(ws, now)
    ensures Authorised(ws, a, a + 60) <= 2 * RATE_PER_MIN
  {
    if ws == [] {
    } else {
      var n := |ws| - 1;
      var last := ws[n];
      WithinBounds(last.times, a, a + 60);
      if Within(last.times, a, a + 60) == 0 {
        RateBound(ws[..n], now, a);
      } else {
        assert WindowOk(last, now);
        assert last.start <= a + 60;
        if n > 0 {
          assert ws[..n][n - 1] == ws[n - 1] && ws[..n][..n - 1] == ws[..n - 1];
          assert ws[n - 1].start + 60 <= last.start;
          WithinBounds(ws[n - 1].times, a, a + 60);
          assert WindowOk(ws[n - 1], now);
          NoneBefore(ws[..n - 1], now, a, a + 60);
        }
      }
    }
  }

  // --------------------------------------------------------------------- runs

  ghost predicate Sound(h: Home, l: Ledger) {
    Valid(h) && PrekeysOnce(h, l) && SharesOnce(h, l) && RatesOk(h, l)
  }

  datatype State = State(home: Home, ledger: Ledger)

  ghost predicate IsLegalRun(ss: seq<State>, ops: seq<Op>) {
    && |ss| == |ops| + 1
    && forall i :: 0 <= i < |ops| ==>
         && Legal(ss[i].home, ss[i].ledger, ops[i])
         && ss[i + 1] == State(Step(ss[i].home, ops[i]), Record(ss[i].home, ops[i], ss[i].ledger))
  }

  lemma SoundStep(h: Home, op: Op, l: Ledger)
    requires Sound(h, l) && Legal(h, l, op)
    ensures Sound(Step(h, op), Record(h, op, l))
  {
    hide Valid, PrekeysOnce, SharesOnce, RatesOk, Step, Record, Legal;
    LegalAdmissible(h, l, op);
    StepValid(h, op);
    PrekeysStep(h, op, l);
    SharesStep(h, op, l);
    RatesStep(h, op, l);
  }

  lemma {:induction false} RunSound(ss: seq<State>, ops: seq<Op>)
    requires IsLegalRun(ss, ops) && Sound(ss[0].home, ss[0].ledger)
    ensures forall i :: 0 <= i < |ss| ==> Sound(ss[i].home, ss[i].ledger)
  {
    hide Sound, Step, Record, Legal;
    if |ops| > 0 {
      var n := |ops| - 1;
      RunSound(ss[..n + 1], ops[..n]);
      assert forall i :: 0 <= i < n + 1 ==> ss[..n + 1][i] == ss[i];
      SoundStep(ss[n].home, ops[n], ss[n].ledger);
    }
  }

  lemma EmptySound(h: Home)
    requires Valid(h) && h.tokens == [] && h.prekeys == map[]
    ensures Sound(h, Ledger(map[], [], {}, {}, [], map[]))
  {
    hide MailboxesOk;
  }

  /** For every enabled mailbox, what was reserved (in order) followed by the queue is what was published. */
  lemma PrekeyConservation(ss: seq<State>, ops: seq<Op>, i: nat, o: Key)
    requires IsLegalRun(ss, ops) && Sound(ss[0].home, ss[0].ledger)
    requires i < |ss| && Enabled(ss[i].home, o)
    ensures BlobsOf(ss[i].ledger.handed, o) + QueueOf(ss[i].home, o) == Published(ss[i].ledger, o)
    ensures DistinctHandouts(ss[i].ledger.handed)
  {
    hide Valid, SharesOnce, RatesOk, BlobsOf, Step, Record, Legal;
    RunSound(ss, ops);
    assert Sound(ss[i].home, ss[i].ledger);
  }

  /** Rows stored through one share token, over the whole run: never more than one. */
  lemma ShareStoresOnce(ss: seq<State>, ops: seq<Op>, t: Key)
    requires IsLegalRun(ss, ops) && Sound(ss[0].home, ss[0].ledger) && t in ss[|ops|].ledger.shares
    ensures forall i, j :: 0 <= i < j < |ss[|ops|].ledger.stored| ==>
              !(ss[|ops|].ledger.stored[i] == t && ss[|ops|].ledger.stored[j] == t)
  {
    hide Valid, PrekeysOnce, RatesOk, Step, Record, Legal;
    RunSound(ss, ops);
    assert Sound(ss[|ops|].home, ss[|ops|].ledger);
  }

  /** No contact capability lets more than 60 appends through in any minute of the run. */
  lemma ContactRateBound(ss: seq<State>, ops: seq<Op>, t: Key, a: nat)
    requires IsLegalRun(ss, ops) && Sound(ss[0].home, ss[0].ledger) && t in ss[|ops|].ledger.windows
    ensures Authorised(ss[|ops|].ledger.windows[t], a, a + 60) <= 60
    ensures forall i :: 0 <= i < |ss[|ops|].ledger.windows[t]| ==> |ss[|ops|].ledger.windows[t][i].times| <= 30
  {
    hide Valid, PrekeysOnce, SharesOnce, Step, Record, Legal;
    RunSound(ss, ops);
    var w := ss[|ops|];
    assert Sound(w.home, w.ledger);
    RateBound(w.ledger.windows[t], w.home.now, a);
    assert forall i :: 0 <= i < |w.ledger.windows[t]| ==> WindowOk(w.ledger.windows[t][i], w.home.now);
  }

  lemma {:induction false} HandedGrows(ss: seq<State>, ops: seq<Op>, i: nat, j: nat)
    requires IsLegalRun(ss, ops) && i <= j < |ss|
    ensures ss[i].ledger.handed <= ss[j].ledger.handed
    decreases j
  {
    hide Step, Legal, Mints, Attempt, StoresRow, ChargedTo, Reserves, MemToken;
    if i < j { HandedGrows(ss, ops, i, j - 1); }
  }

  /** A share token is given the same prekey every time it asks, over the whole run. */
  lemma SamePrekeyEveryTime(ss: seq<State>, ops: seq<Op>, i: nat, j: nat, t: Key)
    requires IsLegalRun(ss, ops) && Sound(ss[0].home, ss[0].ledger) && i <= j < |ops|
    requires ops[i] == OpFetchPrekey(t) && ops[j] == OpFetchPrekey(t)
    requires FetchPrekey(ss[i].home, t).1.Ok? && FetchPrekey(ss[j].home, t).1.Ok?
    ensures FetchPrekey(ss[i].home, t).1 == FetchPrekey(ss[j].home, t).1
  {
    hide Valid, SharesOnce, RatesOk, Record, Legal, MemToken, FetchPrekey, QueuesConserved, QueueOf, NextQueue;
    RunSound(ss, ops);
    HandedGrows(ss, ops, i + 1, j + 1);
    var a := ShownReply(ss, ops, i, t);
    var b := ShownReply(ss, ops, j, t);
    var handed := ss[j + 1].ledger.handed;
    var x :| 0 <= x < |ss[i + 1].ledger.handed| && ss[i + 1].ledger.handed[x] == a;
    var y :| 0 <= y < |handed| && handed[y] == b;
    assert handed[x] == a;
    assert Sound(ss[j + 1].home, ss[j + 1].ledger);
    assert x == y;
  }

  lemma ShownReply(ss: seq<State>, ops: seq<Op>, i: nat, t: Key) returns (r: Handout)
    requires IsLegalRun(ss, ops) && i < |ops| && ops[i] == OpFetchPrekey(t)
    requires Sound(ss[i].home, ss[i].ledger) && Sound(ss[i + 1].home, ss[i + 1].ledger)
    requires FetchPrekey(ss[i].home, t).1.Ok?
    ensures r.token == t && Ok(r.blob) == FetchPrekey(ss[i].home, t).1 && r in ss[i + 1].ledger.handed
  {
    hide Valid, SharesOnce, RatesOk, Record, Legal, MemToken, FetchPrekey, QueuesConserved, QueueOf, NextQueue;
    FetchQueue(ss[i].home, t, 0);
    var kind := MemToken(ss[i + 1].home.tokens, t).value;
    assert ShowsReservation(ss[i + 1].ledger.handed, t, kind);
    r := Handout(kind.mailbox, t, kind.reserved.value);
  }
}
