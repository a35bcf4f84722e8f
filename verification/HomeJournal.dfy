/**
 The incremental journal against the database. `Flush` is what one persist transaction does to the
 tables; `Lag` says table by table how far the database may trail memory, given the journal. Every
 mutator keeps `Lag`, so a flush always lands on the full snapshot and never trips a constraint.
 */
module HomeJournal {
  import opened Basics
  import opened HomeState
  import opened HomeRun

  // ------------------------------------------------------------------- tables

  datatype IdentityRow = IdentityRow(
    pk: Key, revocationPk: Key, binding: Option<Binding>, bindingSeq: nat, revocation: Option<Blob>,
    disabled: bool, nextSeq: nat, bytes: nat)

  datatype MailRow = MailRow(receivedAt: nat, expiresAt: nat, inner: Inner)

  // One row of the `tokens` table; kind 1 is a share token and 2 a contact capability.
  datatype TokenCols = TokenCols(
    kind: nat, mailbox: Key, expiresAt: Option<nat>, burned: bool, reserved: Option<Blob>,
    graceUntil: Option<nat>, windowStart: Option<nat>, windowCount: nat)

  datatype PeerCols = PeerCols(bundle: Blob, refused: bool, lastRx: nat, nextTx: nat)

  datatype Tables = Tables(
    identities: map<Key, IdentityRow>,
    mail: map<(Key, nat), MailRow>,
    tokens: map<Key, TokenCols>,
    prekeys: map<Key, seq<Blob>>,
    memberships: map<Key, set<Key>>,
    peers: map<Key, PeerCols>,
    outbound: seq<OutboundRow>,
    seen: map<Key, nat>)

  // ----------------------------------------------------------- row renderings

  function IdentityCols(mb: map<Key, Mailbox>, dir: map<Key, DirectoryRow>, id: Key): IdentityRow {
    var d := Get(dir, id);
    var b := Get(mb, id);
    IdentityRow(
      if d.Some? then d.value.identityPk else if b.Some? then b.value.ownerPk else 0,
      if d.Some? then d.value.revocationPk else 0,
      if d.Some? then Some(d.value.binding) else None,
      if d.Some? then d.value.bindingSeq else 0,
      if d.Some? then d.value.revocation else None,
      b.Some? && b.value.disabled,
      if b.Some? then b.value.nextSeq else 0,
      if b.Some? then b.value.bytes else 0)
  }

  function MailCols(row: StoredEnvelope): MailRow {
    MailRow(row.receivedAt, row.expiresAt, row.inner)
  }

  function TokenRowOf(kind: TokenKind): TokenCols {
    match kind
    case Share(m, e, b, r) => TokenCols(1, m, Some(e), b, r, None, None, 0)
    case Contact(m, g, s, c) => TokenCols(2, m, None, false, None, g, Some(s), c)
  }

  /** INSERT ... ON CONFLICT DO UPDATE: a conflict rewrites only the columns of the kind at hand. */
  function UpsertToken(existing: Option<TokenCols>, kind: TokenKind): TokenCols {
    if existing.None? then TokenRowOf(kind)
    else match kind
         case Share(m, e, b, r) => existing.value.(mailbox := m, expiresAt := Some(e), burned := b, reserved := r)
         case Contact(m, g, s, c) =>
           existing.value.(mailbox := m, graceUntil := g, windowStart := Some(s), windowCount := c)
  }

  function PeerRowOf(p: Peer): PeerCols {
    PeerCols(p.bundle, p.refused, p.lastRx, p.nextTx)
  }

  function MemMail(mb: map<Key, Mailbox>, k: (Key, nat)): Option<MailRow> {
    if k.0 in mb && k.1 in mb[k.0].rows then Some(MailCols(mb[k.0].rows[k.1])) else None
  }

  function MailKeys(mb: map<Key, Mailbox>): set<(Key, nat)> {
    set o, s | o in mb && s in mb[o].rows :: (o, s)
  }

  lemma MailKeysAre(mb: map<Key, Mailbox>, k: (Key, nat))
    ensures k in MailKeys(mb) <==> MemMail(mb, k).Some?
  {
    if MemMail(mb, k).Some? {
      var o, s := k.0, k.1;
      assert (o, s) in MailKeys(mb);
    }
  }

  function MemToken(ts: seq<TokenRow>, t: Key): Option<TokenKind> {
    var i := FirstIndex(ts, t);
    if i < 0 then None else Some(ts[i].kind)
  }

  /** A queue or list as rows: an empty one is no row at all. */
  function Queue<T>(m: map<Key, seq<T>>, o: Key): Option<seq<T>> {
    if o in m && m[o] != [] then Some(m[o]) else None
  }

  function Members(m: map<Key, seq<Key>>, o: Key): Option<set<Key>> {
    if o in m && m[o] != [] then Some(SetOf(m[o])) else None
  }

  /** The whole durable state written out from scratch. */
  function Snapshot(h: Home): Tables {
    Tables(
      map id | id in h.mailboxes.Keys + h.directory.Keys :: IdentityCols(h.mailboxes, h.directory, id),
      map k | k in MailKeys(h.mailboxes) :: MailCols(h.mailboxes[k.0].rows[k.1]),
      map t | t in Held(h.tokens) && MemToken(h.tokens, t).Some? :: TokenRowOf(MemToken(h.tokens, t).value),
      map o | o in h.prekeys && h.prekeys[o] != [] :: h.prekeys[o],
      map o | o in h.memberships && h.memberships[o] != [] :: SetOf(h.memberships[o]),
      map p | p in h.peers :: PeerRowOf(h.peers[p]),
      h.outbound,
      h.seen)
  }

  // -------------------------------------------------------------------- flush

  /** Does the transaction delete this mailbox row? The acknowledgement mark is bound as a signed number. */
  predicate Gone(d: HomeDirty, k: (Key, nat)) {
    || k.0 in d.mailboxCleared
    || k in d.mailboxDropped
    || (k.0 in d.mailboxAcked && k.1 <= AsI64(d.mailboxAcked[k.0]))
  }

  function AfterDeletes(mail: map<(Key, nat), MailRow>, d: HomeDirty): map<(Key, nat), MailRow> {
    map k | k in mail && !Gone(d, k) :: mail[k]
  }

  /** New rows still in memory; rows appended and then wiped are skipped. */
  function LiveNew(mb: map<Key, Mailbox>, new_: seq<(Key, nat)>): (r: seq<(Key, nat)>)
    ensures forall k :: k in r <==> k in new_ && MemMail(mb, k).Some?
  {
    if new_ == [] then []
    else
      var rest := LiveNew(mb, new_[..|new_| - 1]);
      var k := new_[|new_| - 1];
      if MemMail(mb, k).Some? then rest + [k] else rest
  }

  function LiveSeen(seen: map<Key, nat>, new_: seq<Key>): (r: seq<Key>)
    ensures forall e :: e in r <==> e in new_ && e in seen
  {
    if new_ == [] then []
    else
      var rest := LiveSeen(seen, new_[..|new_| - 1]);
      var e := new_[|new_| - 1];
      if e in seen then rest + [e] else rest
  }

  function FlushIdentities(db: Tables, h: Home, d: HomeDirty): map<Key, IdentityRow> {
    map id | id in db.identities.Keys + d.identities ::
      if id in d.identities then IdentityCols(h.mailboxes, h.directory, id) else db.identities[id]
  }

  function FlushMail(db: Tables, h: Home, d: HomeDirty): map<(Key, nat), MailRow> {
    AfterDeletes(db.mail, d)
    + (map k | k in LiveNew(h.mailboxes, d.mailboxNew) :: MailCols(h.mailboxes[k.0].rows[k.1]))
  }

  function TokensAfterDeletes(tokens: map<Key, TokenCols>, d: HomeDirty): map<Key, TokenCols> {
    map t | t in tokens && t !in d.tokensDroppedExact && tokens[t].mailbox !in d.tokensDropped :: tokens[t]
  }

  function FlushTokens(db: Tables, h: Home, d: HomeDirty): map<Key, TokenCols> {
    var base := TokensAfterDeletes(db.tokens, d);
    base + (map t | t in d.tokens && MemToken(h.tokens, t).Some? ::
              UpsertToken(Get(base, t), MemToken(h.tokens, t).value))
  }

  function FlushPrekeys(db: Tables, h: Home, d: HomeDirty): map<Key, seq<Blob>> {
    (db.prekeys - d.prekeys) + (map o | o in d.prekeys && Queue(h.prekeys, o).Some? :: Queue(h.prekeys, o).value)
  }

  function FlushMemberships(db: Tables, h: Home, d: HomeDirty): map<Key, set<Key>> {
    (db.memberships - d.memberships)
    + (map o | o in d.memberships && Members(h.memberships, o).Some? :: Members(h.memberships, o).value)
  }

  function FlushPeers(db: Tables, h: Home, d: HomeDirty): map<Key, PeerCols> {
    db.peers + (map p | p in d.peers && p in h.peers :: PeerRowOf(h.peers[p]))
  }

  function FlushSeen(db: Tables, h: Home, d: HomeDirty): map<Key, nat> {
    if d.seenCleared then h.seen else db.seen + (map e | e in LiveSeen(h.seen, d.seenNew) :: h.seen[e])
  }

  function Flushed(db: Tables, h: Home, d: HomeDirty): Tables {
    Tables(FlushIdentities(db, h, d), FlushMail(db, h, d), FlushTokens(db, h, d), FlushPrekeys(db, h, d),
           FlushMemberships(db, h, d), FlushPeers(db, h, d),
           if d.outbound then h.outbound else db.outbound,
           FlushSeen(db, h, d))
  }

  // ---------------------------------------------------------------- constraints

  predicate IdemUnique(mail: map<(Key, nat), MailRow>) {
    forall j, k :: (j in mail && k in mail && j.0 == k.0 && mail[j].inner.idem == mail[k].inner.idem) ==> j == k
  }

  /** A mailbox insert meets the primary key and the unique (owner, idempotency token) index. */
  predicate MailInsertOk(db: Tables, h: Home, d: HomeDirty) {
    var fresh_ := LiveNew(h.mailboxes, d.mailboxNew);
    && NoDup(fresh_)
    && (forall k :: k in fresh_ ==> k !in AfterDeletes(db.mail, d))
    && IdemUnique(FlushMail(db, h, d))
  }

  predicate SeenInsertOk(db: Tables, h: Home, d: HomeDirty) {
    d.seenCleared
    || (NoDup(LiveSeen(h.seen, d.seenNew)) && forall e :: e in LiveSeen(h.seen, d.seenNew) ==> e !in db.seen)
  }

  /** Children refer to identity rows that exist once the identities are upserted. */
  predicate ForeignKeysOk(db: Tables, h: Home, d: HomeDirty) {
    var ids := FlushIdentities(db, h, d);
    && (forall k :: k in LiveNew(h.mailboxes, d.mailboxNew) ==> k.0 in ids)
    && (forall t :: t in d.tokens && MemToken(h.tokens, t).Some? ==> MemToken(h.tokens, t).value.mailbox in ids)
    && (forall o :: o in d.prekeys && Queue(h.prekeys, o).Some? ==> o in ids)
    && (forall o :: o in d.memberships && Members(h.memberships, o).Some? ==> o in ids)
  }

  predicate ConstraintsOk(db: Tables, h: Home, d: HomeDirty) {
    MailInsertOk(db, h, d) && SeenInsertOk(db, h, d) && ForeignKeysOk(db, h, d)
  }

  // ---------------------------------------------------------------------- lag

  ghost predicate IdentityLag(mb: map<Key, Mailbox>, dir: map<Key, DirectoryRow>, ids: set<Key>,
                              db: map<Key, IdentityRow>) {
    && ids <= mb.Keys + dir.Keys
    && forall id :: id !in ids ==>
         Get(db, id) == if id in mb || id in dir then Some(IdentityCols(mb, dir, id)) else None
  }

  ghost predicate MailLag(mb: map<Key, Mailbox>, d: HomeDirty, db: map<(Key, nat), MailRow>) {
    && NoDup(d.mailboxNew)
    && (forall k :: k in d.mailboxNew ==> k.0 in mb && k.1 < mb[k.0].nextSeq)
    && forall k :: Get(AfterDeletes(db, d), k)
                   == if k in d.mailboxNew then None else MemMail(mb, k)
  }

  ghost predicate TokenLag(ts: seq<TokenRow>, d: HomeDirty, db: map<Key, TokenCols>) {
    forall t :: TokenLags(MemToken(ts, t), t in d.tokens, Get(TokensAfterDeletes(db, d), t))
  }

  /** One token: absent on both sides, equal, or due for an upsert over nothing or over the same kind and owner. */
  predicate TokenLags(mem: Option<TokenKind>, marked: bool, row: Option<TokenCols>) {
    match mem
    case None => row == None
    case Some(kind) =>
      if !marked then row == Some(TokenRowOf(kind))
      else row == None || (row.value.mailbox == kind.mailbox && UpsertToken(row, kind) == TokenRowOf(kind))
  }

  ghost predicate PrekeyLag(pre: map<Key, seq<Blob>>, d: set<Key>, db: map<Key, seq<Blob>>) {
    forall o :: o !in d ==> Get(db, o) == Queue(pre, o)
  }

  ghost predicate MembershipLag(mem: map<Key, seq<Key>>, d: set<Key>, db: map<Key, set<Key>>) {
    forall o :: o !in d ==> Get(db, o) == Members(mem, o)
  }

  ghost predicate PeerLag(peers: map<Key, Peer>, d: set<Key>, db: map<Key, PeerCols>) {
    && (forall p :: p in db ==> p in peers)
    && forall p :: p !in d && p in peers ==> p in db && db[p] == PeerRowOf(peers[p])
  }

  ghost predicate SeenLag(seen: map<Key, nat>, new_: seq<Key>, cleared: bool, db: map<Key, nat>) {
    !cleared ==>
      && NoDup(new_)
      && forall e :: Get(db, e) == if e in new_ then None else Get(seen, e)
  }

  ghost predicate NewSeenHeld(seen: map<Key, nat>, new_: seq<Key>, cleared: bool) {
    !cleared ==> forall e :: e in new_ ==> e in seen
  }

  ghost predicate Lag(h: Home, db: Tables) {
    && IdentityLag(h.mailboxes, h.directory, h.dirty.identities, db.identities)
    && MailLag(h.mailboxes, h.dirty, db.mail)
    && TokenLag(h.tokens, h.dirty, db.tokens)
    && PrekeyLag(h.prekeys, h.dirty.prekeys, db.prekeys)
    && MembershipLag(h.memberships, h.dirty.memberships, db.memberships)
    && PeerLag(h.peers, h.dirty.peers, db.peers)
    && (!h.dirty.outbound ==> db.outbound == h.outbound)
    && SeenLag(h.seen, h.dirty.seenNew, h.dirty.seenCleared, db.seen)
    && NewSeenHeld(h.seen, h.dirty.seenNew, h.dirty.seenCleared)
  }

  // ------------------------------------------------- a flush lands on the snapshot

  lemma LiveNewNoDup(mb: map<Key, Mailbox>, new_: seq<(Key, nat)>)
    requires NoDup(new_)
    ensures NoDup(LiveNew(mb, new_))
  {
    if new_ != [] { LiveNewNoDup(mb, new_[..|new_| - 1]); }
  }

  lemma LiveSeenNoDup(seen: map<Key, nat>, new_: seq<Key>)
    requires NoDup(new_)
    ensures NoDup(LiveSeen(seen, new_))
  {
    if new_ != [] { LiveSeenNoDup(seen, new_[..|new_| - 1]); }
  }

  lemma FlushMailAt(h: Home, db: Tables, k: (Key, nat))
    requires MailLag(h.mailboxes, h.dirty, db.mail)
    ensures Get(FlushMail(db, h, h.dirty), k) == Get(Snapshot(h).mail, k)
  {
    assert Get(AfterDeletes(db.mail, h.dirty), k)
           == if k in h.dirty.mailboxNew then None else MemMail(h.mailboxes, k);
    MailKeysAre(h.mailboxes, k);
    assert k in LiveNew(h.mailboxes, h.dirty.mailboxNew)
           <==> k in h.dirty.mailboxNew && MemMail(h.mailboxes, k).Some?;
  }

  lemma FlushMailSnapshot(h: Home, db: Tables)
    requires MailLag(h.mailboxes, h.dirty, db.mail)
    ensures FlushMail(db, h, h.dirty) == Snapshot(h).mail
  {
    forall k ensures Get(FlushMail(db, h, h.dirty), k) == Get(Snapshot(h).mail, k) {
      FlushMailAt(h, db, k);
    }
    hide *;
    SameLookups(FlushMail(db, h, h.dirty), Snapshot(h).mail);
  }

  lemma FlushTokensSnapshot(h: Home, db: Tables)
    requires TokenLag(h.tokens, h.dirty, db.tokens)
    ensures FlushTokens(db, h, h.dirty) == Snapshot(h).tokens
  {
    forall t ensures Get(FlushTokens(db, h, h.dirty), t) == Get(Snapshot(h).tokens, t) {
      assert TokenLags(MemToken(h.tokens, t), t in h.dirty.tokens, Get(TokensAfterDeletes(db.tokens, h.dirty), t));
      assert MemToken(h.tokens, t).Some? ==> t in Held(h.tokens);
    }
    hide *;
    SameLookups(FlushTokens(db, h, h.dirty), Snapshot(h).tokens);
  }

  lemma FlushIdentitiesSnapshot(h: Home, db: Tables)
    requires IdentityLag(h.mailboxes, h.directory, h.dirty.identities, db.identities)
    ensures FlushIdentities(db, h, h.dirty) == Snapshot(h).identities
  {
    forall id ensures Get(FlushIdentities(db, h, h.dirty), id) == Get(Snapshot(h).identities, id) {
    }
    hide *;
    SameLookups(FlushIdentities(db, h, h.dirty), Snapshot(h).identities);
  }

  lemma FlushPrekeysSnapshot(h: Home, db: Tables)
    requires PrekeyLag(h.prekeys, h.dirty.prekeys, db.prekeys)
    ensures FlushPrekeys(db, h, h.dirty) == Snapshot(h).prekeys
  {
    SnapshotQueues(h);
    hide Snapshot;
    forall o ensures Get(FlushPrekeys(db, h, h.dirty), o) == Get(Snapshot(h).prekeys, o) {
    }
    hide *;
    SameLookups(FlushPrekeys(db, h, h.dirty), Snapshot(h).prekeys);
  }

  /** Queues and lists as the snapshot has them. */
  lemma SnapshotQueues(h: Home)
    ensures forall o :: Get(Snapshot(h).prekeys, o) == Queue(h.prekeys, o)
    ensures forall o :: Get(Snapshot(h).memberships, o) == Members(h.memberships, o)
  {
    hide IdentityCols, MailKeys, MemToken, Held;
  }

  lemma FlushMembershipsSnapshot(h: Home, db: Tables)
    requires MembershipLag(h.memberships, h.dirty.memberships, db.memberships)
    ensures FlushMemberships(db, h, h.dirty) == Snapshot(h).memberships
  {
    SnapshotQueues(h);
    hide Snapshot;
    forall o ensures Get(FlushMemberships(db, h, h.dirty), o) == Get(Snapshot(h).memberships, o) {
    }
    hide *;
    SameLookups(FlushMemberships(db, h, h.dirty), Snapshot(h).memberships);
  }

  lemma FlushPeersSnapshot(h: Home, db: Tables)
    requires PeerLag(h.peers, h.dirty.peers, db.peers)
    ensures FlushPeers(db, h, h.dirty) == Snapshot(h).peers
  {
    forall p ensures Get(FlushPeers(db, h, h.dirty), p) == Get(Snapshot(h).peers, p) {
    }
    hide *;
    SameLookups(FlushPeers(db, h, h.dirty), Snapshot(h).peers);
  }

  lemma FlushSeenSnapshot(h: Home, db: Tables)
    requires SeenLag(h.seen, h.dirty.seenNew, h.dirty.seenCleared, db.seen)
    requires NewSeenHeld(h.seen, h.dirty.seenNew, h.dirty.seenCleared)
    ensures FlushSeen(db, h, h.dirty) == Snapshot(h).seen
  {
    forall e ensures Get(FlushSeen(db, h, h.dirty), e) == Get(Snapshot(h).seen, e) {
    }
    hide *;
    SameLookups(FlushSeen(db, h, h.dirty), Snapshot(h).seen);
  }

  lemma SnapshotIdemUnique(h: Home)
    requires MailboxesOk(h.mailboxes)
    ensures IdemUnique(Snapshot(h).mail)
  {
    var mail := Snapshot(h).mail;
    forall j, k | j in mail && k in mail && j.0 == k.0 && mail[j].inner.idem == mail[k].inner.idem
      ensures j == k
    {
      var m := h.mailboxes[j.0];
      assert MailboxOk(m);
      assert m.idem[m.rows[j.1].inner.idem] == j.1 && m.idem[m.rows[k.1].inner.idem] == k.1;
    }
  }

  lemma MailInsertFits(h: Home, db: Tables)
    requires MailboxesOk(h.mailboxes) && MailLag(h.mailboxes, h.dirty, db.mail)
    ensures MailInsertOk(db, h, h.dirty)
  {
    LiveNewNoDup(h.mailboxes, h.dirty.mailboxNew);
    FlushMailSnapshot(h, db);
    SnapshotIdemUnique(h);
    forall k | k in LiveNew(h.mailboxes, h.dirty.mailboxNew) ensures k !in AfterDeletes(db.mail, h.dirty) {
      assert Get(AfterDeletes(db.mail, h.dirty), k) == None;
    }
    hide MailboxesOk, FlushMail, IdemUnique, MailLag, AfterDeletes, LiveNew, NoDup;
  }

  lemma SeenInsertFits(h: Home, db: Tables)
    requires SeenLag(h.seen, h.dirty.seenNew, h.dirty.seenCleared, db.seen)
    ensures SeenInsertOk(db, h, h.dirty)
  {
    if !h.dirty.seenCleared {
      LiveSeenNoDup(h.seen, h.dirty.seenNew);
      forall e | e in LiveSeen(h.seen, h.dirty.seenNew) ensures e !in db.seen {
        assert Get(db.seen, e) == None;
      }
    }
  }

  lemma ForeignKeysFit(h: Home, db: Tables)
    requires Valid(h) && IdentityLag(h.mailboxes, h.directory, h.dirty.identities, db.identities)
    ensures ForeignKeysOk(db, h, h.dirty)
  {
    FlushIdentitiesSnapshot(h, db);
    hide MailboxOk, FlushIdentities, IdentityLag;
  }

  /** From any lagging database the transaction commits, and the tables become the full snapshot. */
  lemma FlushIsSnapshot(h: Home, db: Tables)
    requires Valid(h) && Lag(h, db)
    ensures ConstraintsOk(db, h, h.dirty)
    ensures Flushed(db, h, h.dirty) == Snapshot(h)
  {
    MailInsertFits(h, db);
    SeenInsertFits(h, db);
    ForeignKeysFit(h, db);
    FlushIdentitiesSnapshot(h, db);
    FlushMailSnapshot(h, db);
    FlushTokensSnapshot(h, db);
    FlushPrekeysSnapshot(h, db);
    FlushMembershipsSnapshot(h, db);
    FlushPeersSnapshot(h, db);
    FlushSeenSnapshot(h, db);
    hide Valid, FlushIdentities, FlushMail, FlushTokens, FlushPrekeys, FlushMemberships, FlushPeers, FlushSeen,
         MailInsertOk, SeenInsertOk, ForeignKeysOk, IdentityLag, MailLag, TokenLag, PrekeyLag, MembershipLag, PeerLag, SeenLag;
  }

  lemma SnapshotMailLag(h: Home)
    ensures MailLag(h.mailboxes, CLEAN, Snapshot(h).mail)
  {
    var mail := Snapshot(h).mail;
    forall k ensures Get(AfterDeletes(mail, CLEAN), k) == MemMail(h.mailboxes, k) {
      MailKeysAre(h.mailboxes, k);
    }
  }

  lemma SnapshotTokenLag(h: Home)
    ensures TokenLag(h.tokens, CLEAN, Snapshot(h).tokens)
  {
    var db := Snapshot(h).tokens;
    forall t ensures TokenLags(MemToken(h.tokens, t), false, Get(TokensAfterDeletes(db, CLEAN), t)) {
      assert MemToken(h.tokens, t).Some? <==> t in db;
    }
  }

  /** A database equal to the snapshot lags nothing. */
  lemma SnapshotHasNoLag(h: Home)
    ensures Lag(h.(dirty := CLEAN), Snapshot(h))
  {
    SnapshotMailLag(h);
    SnapshotTokenLag(h);
    hide MailLag, TokenLag;
    SnapshotQueuesLag(h);
    hide PrekeyLag, MembershipLag, PeerLag;
    SnapshotIdentityLag(h);
    hide IdentityLag, IdentityCols;
  }

  lemma SnapshotIdentityLag(h: Home)
    ensures IdentityLag(h.mailboxes, h.directory, {}, Snapshot(h).identities)
  {
    hide IdentityCols, MailKeys, MemToken, Held;
  }

  lemma SnapshotQueuesLag(h: Home)
    ensures PrekeyLag(h.prekeys, {}, Snapshot(h).prekeys)
    ensures MembershipLag(h.memberships, {}, Snapshot(h).memberships)
    ensures PeerLag(h.peers, {}, Snapshot(h).peers)
  {
    hide IdentityCols, MailKeys, MemToken, Held;
  }

  // ------------------------------------------------------- token bookkeeping

  lemma MemTokenAt(ts: seq<TokenRow>, i: nat)
    requires DistinctTokens(ts) && i < |ts|
    ensures MemToken(ts, ts[i].token) == Some(ts[i].kind)
  {
  }

  /** Two lists with the same rows (and distinct tokens) give the same lookups, whatever their order. */
  lemma MemTokenSame(ts: seq<TokenRow>, us: seq<TokenRow>, t: Key)
    requires DistinctTokens(ts) && DistinctTokens(us)
    requires forall x: TokenRow :: x.token == t ==> (x in ts <==> x in us)
    ensures MemToken(ts, t) == MemToken(us, t)
  {
    var i, j := FirstIndex(ts, t), FirstIndex(us, t);
    assert j >= 0 ==> us[j] in us;
    if i >= 0 {
      assert ts[i] in us;
      var k :| 0 <= k < |us| && us[k] == ts[i];
      MemTokenAt(us, k);
    }
  }

  lemma PushTokenLag(h: Home, db: Tables, token: Key, kind: TokenKind)
    requires TokenLag(h.tokens, h.dirty, db.tokens) && DistinctTokens(h.tokens) && token !in Held(h.tokens)
    ensures TokenLag(PushToken(h, token, kind).tokens, PushToken(h, token, kind).dirty, db.tokens)
  {
    var h1 := PushToken(h, token, kind);
    forall t ensures TokenLags(MemToken(h1.tokens, t), t in h1.dirty.tokens,
                               Get(TokensAfterDeletes(db.tokens, h1.dirty), t))
    {
      assert TokensAfterDeletes(db.tokens, h1.dirty) == TokensAfterDeletes(db.tokens, h.dirty);
      assert TokenLags(MemToken(h.tokens, t), t in h.dirty.tokens, Get(TokensAfterDeletes(db.tokens, h.dirty), t));
      assert forall i :: 0 <= i < |h.tokens| ==> h.tokens[i].token in Held(h.tokens);
      assert DistinctTokens(h1.tokens);
      if t == token {
        MemTokenAt(h1.tokens, |h.tokens|);
        assert MemToken(h.tokens, t) == None;
      } else {
        MemTokenSame(h.tokens, h1.tokens, t);
      }
    }
  }

  lemma TouchTokenLag(h: Home, db: Tables, i: nat, kind: TokenKind)
    requires TokenLag(h.tokens, h.dirty, db.tokens) && DistinctTokens(h.tokens) && i < |h.tokens|
    requires kind.mailbox == h.tokens[i].kind.mailbox && (kind.Share? <==> h.tokens[i].kind.Share?)
    ensures TokenLag(TouchToken(h, i, kind).tokens, TouchToken(h, i, kind).dirty, db.tokens)
  {
    var h1 := TouchToken(h, i, kind);
    assert TokensAfterDeletes(db.tokens, h1.dirty) == TokensAfterDeletes(db.tokens, h.dirty);
    forall t ensures TokenLags(MemToken(h1.tokens, t), t in h1.dirty.tokens,
                               Get(TokensAfterDeletes(db.tokens, h1.dirty), t))
    {
      assert TokenLags(MemToken(h.tokens, t), t in h.dirty.tokens, Get(TokensAfterDeletes(db.tokens, h.dirty), t));
      assert DistinctTokens(h1.tokens);
      if t == h.tokens[i].token {
        MemTokenAt(h1.tokens, i);
        MemTokenAt(h.tokens, i);
      } else {
        forall x: TokenRow | x.token == t ensures x in h.tokens <==> x in h1.tokens {
          if x in h.tokens { var k :| 0 <= k < |h.tokens| && h.tokens[k] == x; assert h1.tokens[k] == x; }
        }
        MemTokenSame(h.tokens, h1.tokens, t);
      }
    }
  }

  lemma MemTokenWithout(ts: seq<TokenRow>, gone: set<Key>, t: Key)
    requires DistinctTokens(ts)
    ensures MemToken(Without(ts, gone), t) == if t in gone then None else MemToken(ts, t)
  {
    TokensWithout(ts, gone);
    var us := Without(ts, gone);
    if t in gone {
      assert forall i :: 0 <= i < |us| ==> us[i] in us;
    } else {
      MemTokenSame(ts, us, t);
    }
  }

  lemma MemTokenWithoutOwner(ts: seq<TokenRow>, owner: Key, t: Key)
    requires DistinctTokens(ts)
    ensures MemToken(WithoutOwner(ts, owner), t)
            == var m := MemToken(ts, t); if m.Some? && m.value.mailbox == owner then None else m
  {
    TokensWithoutOwner(ts, owner);
    var us := WithoutOwner(ts, owner);
    var m := MemToken(ts, t);
    var i, j := FirstIndex(ts, t), FirstIndex(us, t);
    assert j >= 0 ==> us[j] in us;
    if i >= 0 && ts[i].kind.mailbox != owner {
      assert ts[i] in us;
      var k :| 0 <= k < |us| && us[k] == ts[i];
      MemTokenAt(us, k);
    }
  }

  lemma DropTokensLag(h: Home, db: Tables, gone: set<Key>)
    requires TokenLag(h.tokens, h.dirty, db.tokens) && DistinctTokens(h.tokens)
    ensures TokenLag(DropTokens(h, gone).tokens, DropTokens(h, gone).dirty, db.tokens)
  {
    var h1 := DropTokens(h, gone);
    forall t ensures TokenLags(MemToken(h1.tokens, t), t in h1.dirty.tokens,
                               Get(TokensAfterDeletes(db.tokens, h1.dirty), t))
    {
      assert TokenLags(MemToken(h.tokens, t), t in h.dirty.tokens, Get(TokensAfterDeletes(db.tokens, h.dirty), t));
      MemTokenWithout(h.tokens, gone, t);
    }
  }

  lemma DropOwnerLag(h: Home, db: Tables, owner: Key, d: HomeDirty)
    requires TokenLag(h.tokens, h.dirty, db.tokens) && DistinctTokens(h.tokens)
    requires d.tokens == h.dirty.tokens && d.tokensDroppedExact == h.dirty.tokensDroppedExact
    requires d.tokensDropped == h.dirty.tokensDropped + {owner}
    ensures TokenLag(WithoutOwner(h.tokens, owner), d, db.tokens)
  {
    forall t ensures TokenLags(MemToken(WithoutOwner(h.tokens, owner), t), t in d.tokens,
                               Get(TokensAfterDeletes(db.tokens, d), t))
    {
      assert TokenLags(MemToken(h.tokens, t), t in h.dirty.tokens, Get(TokensAfterDeletes(db.tokens, h.dirty), t));
      MemTokenWithoutOwner(h.tokens, owner, t);
    }
  }

  // -------------------------------------------------------- mail bookkeeping

  /** Appending a row under a new sequence number and listing it for insertion. */
  lemma StoreMailLag(mb: map<Key, Mailbox>, d: HomeDirty, db: map<(Key, nat), MailRow>,
                     owner: Key, m: Mailbox, d1: HomeDirty)
    requires MailLag(mb, d, db) && owner in mb && MailboxOk(mb[owner])
    requires m.nextSeq == mb[owner].nextSeq + 1
    requires m.rows.Keys == mb[owner].rows.Keys + {mb[owner].nextSeq}
    requires forall s :: s in mb[owner].rows ==> m.rows[s] == mb[owner].rows[s]
    requires d1 == d.(mailboxNew := d.mailboxNew + [(owner, mb[owner].nextSeq)], identities := d1.identities,
                      tokens := d1.tokens)
    ensures MailLag(mb[owner := m], d1, db)
  {
    var mb1 := mb[owner := m];
    var fresh_ := (owner, mb[owner].nextSeq);
    assert fresh_ !in d.mailboxNew;
    assert AfterDeletes(db, d1) == AfterDeletes(db, d);
    assert NoDup(d1.mailboxNew);
    forall k ensures Get(AfterDeletes(db, d1), k) == if k in d1.mailboxNew then None else MemMail(mb1, k) {
      assert Get(AfterDeletes(db, d), k) == if k in d.mailboxNew then None else MemMail(mb, k);
    }
  }

  /** Removing rows that the journal now deletes. */
  lemma ShrinkMailLag(mb: map<Key, Mailbox>, d: HomeDirty, db: map<(Key, nat), MailRow>,
                      owner: Key, m: Mailbox, d1: HomeDirty)
    requires MailLag(mb, d, db) && owner in mb
    requires m.nextSeq == mb[owner].nextSeq && m.rows.Keys <= mb[owner].rows.Keys
    requires forall s :: s in m.rows ==> m.rows[s] == mb[owner].rows[s]
    requires d1.mailboxNew == d.mailboxNew
    requires forall k: (Key, nat) :: k.0 != owner ==> (Gone(d1, k) <==> Gone(d, k))
    requires forall s :: Gone(d, (owner, s)) ==> Gone(d1, (owner, s))
    requires forall s :: s in mb[owner].rows && s !in m.rows ==> Gone(d1, (owner, s))
    requires forall s :: s in m.rows && Gone(d1, (owner, s)) ==> Gone(d, (owner, s))
    ensures MailLag(mb[owner := m], d1, db)
  {
    var mb1 := mb[owner := m];
    forall k ensures Get(AfterDeletes(db, d1), k) == if k in d1.mailboxNew then None else MemMail(mb1, k) {
      assert Get(AfterDeletes(db, d), k) == if k in d.mailboxNew then None else MemMail(mb, k);
      if k.0 == owner {
        assert Gone(d, (owner, k.1)) ==> Gone(d1, (owner, k.1));
        assert k == (owner, k.1);
      }
    }
  }

  // ------------------------------------------------------- every mutator lags

  lemma TouchLag(h: Home, db: Tables, i: nat, kind: TokenKind)
    requires Valid(h) && Lag(h, db) && i < |h.tokens|
    requires kind.mailbox == h.tokens[i].kind.mailbox && (kind.Share? <==> h.tokens[i].kind.Share?)
    ensures Lag(TouchToken(h, i, kind), db)
  {
    TouchTokenLag(h, db, i, kind);
    hide TokenLag, MailboxesOk;
    SameMailJournal(h.mailboxes, h.dirty, TouchToken(h, i, kind).dirty, db.mail);
    hide MailLag;
  }

  lemma SameMailJournal(mb: map<Key, Mailbox>, d: HomeDirty, d1: HomeDirty, db: map<(Key, nat), MailRow>)
    requires MailLag(mb, d, db)
    requires d1.mailboxNew == d.mailboxNew && d1.mailboxAcked == d.mailboxAcked
    requires d1.mailboxDropped == d.mailboxDropped && d1.mailboxCleared == d.mailboxCleared
    ensures MailLag(mb, d1, db)
  {
    assert AfterDeletes(db, d1) == AfterDeletes(db, d);
  }

  lemma SameTokenJournal(ts: seq<TokenRow>, d: HomeDirty, d1: HomeDirty, db: map<Key, TokenCols>)
    requires TokenLag(ts, d, db)
    requires d1.tokens == d.tokens && d1.tokensDropped == d.tokensDropped
    requires d1.tokensDroppedExact == d.tokensDroppedExact
    ensures TokenLag(ts, d1, db)
  {
    assert TokensAfterDeletes(db, d1) == TokensAfterDeletes(db, d);
  }

  lemma PushLag(h: Home, db: Tables, token: Key, kind: TokenKind)
    requires DistinctTokens(h.tokens) && Lag(h, db) && token !in Held(h.tokens)
    ensures Lag(PushToken(h, token, kind), db)
  {
    PushTokenLag(h, db, token, kind);
    hide TokenLag;
    SameMailJournal(h.mailboxes, h.dirty, PushToken(h, token, kind).dirty, db.mail);
    hide MailLag;
  }

  lemma DropLag(h: Home, db: Tables, gone: set<Key>)
    requires Valid(h) && Lag(h, db)
    ensures Lag(DropTokens(h, gone), db)
  {
    DropTokensLag(h, db, gone);
    hide TokenLag, MailboxesOk;
    SameMailJournal(h.mailboxes, h.dirty, DropTokens(h, gone).dirty, db.mail);
    hide MailLag;
  }

  lemma GcLag(h: Home, db: Tables, owner: Key)
    requires Valid(h) && Lag(h, db)
    ensures Lag(Gc(h, owner), db)
  {
    hide Retained, MailboxOk;
    var h1 := Gc(h, owner);
    if h1 != h {
      ShrinkMailLag(h.mailboxes, h.dirty, db.mail, owner, h1.mailboxes[owner], h1.dirty);
      SameTokenJournal(h.tokens, h.dirty, h1.dirty, db.tokens);
      hide MailLag, TokenLag;
    }
  }

  /** The row goes whatever the acknowledgement mark is. */
  predicate DeletedAnyway(d: HomeDirty, k: (Key, nat)) {
    k.0 in d.mailboxCleared || k in d.mailboxDropped
  }

  /**
   When an acknowledgement reaches the database. The marks of one owner merge to the larger one, which is bound to
   a signed column: it must fit, unless nothing was acknowledged or the other pending deletes leave no row of the
   owner up to the cursor in the table anyway.
   */
  ghost predicate AckLands(h: Home, db: map<(Key, nat), MailRow>, owner: Key, upTo: U64) {
    || owner !in h.mailboxes
    || (forall s :: s in h.mailboxes[owner].rows ==> s > upTo)
    || MaxMark(Get(h.dirty.mailboxAcked, owner), upTo) < I64_RANGE
    || (forall s :: (owner, s) in db && !DeletedAnyway(h.dirty, (owner, s)) ==> s > upTo)
  }

  /** A mark that does not fit deletes nothing; harmless exactly when there was nothing left to delete. */
  lemma WideMarkLag(mb: map<Key, Mailbox>, d: HomeDirty, db: map<(Key, nat), MailRow>, owner: Key, upTo: U64)
    requires MailLag(mb, d, db) && owner in mb
    requires MaxMark(Get(d.mailboxAcked, owner), upTo) >= I64_RANGE
    requires forall s :: (owner, s) in db && !DeletedAnyway(d, (owner, s)) ==> s > upTo
    ensures MailLag(mb[owner := AckRows(mb[owner], upTo)], MarkAcked(d, owner, upTo), db)
  {
    hide Bytes;
    var mb1, d1 := mb[owner := AckRows(mb[owner], upTo)], MarkAcked(d, owner, upTo);
    forall k ensures Get(AfterDeletes(db, d1), k) == if k in d1.mailboxNew then None else MemMail(mb1, k) {
      assert Get(AfterDeletes(db, d), k) == if k in d.mailboxNew then None else MemMail(mb, k);
      assert k == (k.0, k.1);
    }
  }

  lemma AckLag(h: Home, db: Tables, owner: Key, upTo: U64)
    requires Valid(h) && Lag(h, db) && AckLands(h, db.mail, owner, upTo)
    ensures Lag(Ack(h, owner, upTo).0, db)
  {
    hide MailboxOk, MailLag, TokenLag, AckRows;
    var h1 := Ack(h, owner, upTo).0;
    if h1 != h {
      if MaxMark(Get(h.dirty.mailboxAcked, owner), upTo) < I64_RANGE {
        NarrowMarkLag(h.mailboxes, h.dirty, db.mail, owner, upTo);
      } else {
        WideMarkLag(h.mailboxes, h.dirty, db.mail, owner, upTo);
      }
      SameTokenJournal(h.tokens, h.dirty, h1.dirty, db.tokens);
    }
  }

  lemma NarrowMarkLag(mb: map<Key, Mailbox>, d: HomeDirty, db: map<(Key, nat), MailRow>, owner: Key, upTo: U64)
    requires MailLag(mb, d, db) && owner in mb
    requires MaxMark(Get(d.mailboxAcked, owner), upTo) < I64_RANGE
    ensures MailLag(mb[owner := AckRows(mb[owner], upTo)], MarkAcked(d, owner, upTo), db)
  {
    hide Bytes, MailLag;
    ShrinkMailLag(mb, d, db, owner, AckRows(mb[owner], upTo), MarkAcked(d, owner, upTo));
  }

  lemma DisableLag(h: Home, db: Tables, owner: Key)
    requires Valid(h) && Lag(h, db) && owner in h.mailboxes
    ensures Lag(Disable(h, owner), db)
  {
    hide MailboxOk;
    var h1 := Disable(h, owner);
    ShrinkMailLag(h.mailboxes, h.dirty, db.mail, owner, h1.mailboxes[owner], h1.dirty);
    DropOwnerLag(h, db, owner, h1.dirty);
    hide MailLag, TokenLag;
  }

  lemma StoreLag(h: Home, db: Tables, owner: Key, inner: Inner, size: nat)
    requires Valid(h) && Lag(h, db) && owner in h.mailboxes
    ensures Lag(Store(h, owner, inner, size), db)
  {
    hide MailboxOk, MailLag, TokenLag, EnvelopeExpiry;
    var h1 := Store(h, owner, inner, size);
    assert h1.mailboxes[owner].rows.Keys == h.mailboxes[owner].rows.Keys + {h.mailboxes[owner].nextSeq};
    assert MailboxOk(h.mailboxes[owner]);
    SeqIsNew(h.mailboxes[owner]);
    StoreMailLag(h.mailboxes, h.dirty, db.mail, owner, h1.mailboxes[owner], h1.dirty);
    SameTokenJournal(h.tokens, h.dirty, h1.dirty, db.tokens);
  }

  lemma SeqIsNew(m: Mailbox)
    requires MailboxOk(m)
    ensures m.nextSeq !in m.rows
  {
  }

  lemma AuthorizeLag(h: Home, db: Tables, token: Key)
    requires Valid(h) && Lag(h, db)
    ensures Lag(AuthorizeAppend(h, token).0, db)
  {
    hide Valid, Lag;
    var i := LastIndex(h.tokens, token);
    if i >= 0 && h.tokens[i].kind.Contact? {
      var kind := h.tokens[i].kind;
      var reset := SatSub(h.now, kind.windowStart) >= 60;
      TouchLag(h, db, i, Contact(kind.mailbox, kind.graceUntil, if reset then h.now else kind.windowStart,
                                 (if reset then 0 else kind.windowCount) + 1));
    }
  }

  lemma BurnLag(h: Home, db: Tables, token: Key)
    requires Valid(h) && Lag(h, db)
    ensures Lag(BurnIfShare(h, token), db)
  {
    hide Valid, Lag;
    var i := LastIndex(h.tokens, token);
    if i >= 0 && h.tokens[i].kind.Share? {
      TouchLag(h, db, i, h.tokens[i].kind.(burned := true));
    }
  }

  lemma AppendLag(h: Home, db: Tables, inner: Inner)
    requires Valid(h) && Lag(h, db)
    ensures Lag(AppendInner(h, inner).0, db)
  {
    AuthorizeValid(h, inner.capability);
    AuthorizeLag(h, db, inner.capability);
    var (h1, r) := AuthorizeAppend(h, inner.capability);
    hide Lag, AuthorizeAppend, BurnIfShare, Gc, MailboxOk;
    if r.Ok? {
      var m := h1.mailboxes[r.value];
      if inner.idem !in m.idem && PaddedLen(inner).Some? {
        var size := PaddedLen(inner).value;
        StoreRowOk(m, h1.now, h1.limits, inner, size);
        var h2 := Store(h1, r.value, inner, size);
        PutMailboxValid(h1, h2, r.value, StoreRow(m, h1.now, h1.limits, inner, size));
        StoreLag(h1, db, r.value, inner, size);
        BurnValid(h2, inner.capability);
        BurnLag(h2, db, inner.capability);
        GcLag(BurnIfShare(h2, inner.capability), db, r.value);
      }
    }
  }

  lemma NoteSeenLag(h: Home, db: Tables, enc: Key, seqNo: nat)
    requires Lag(h, db) && enc !in h.seen
    ensures Lag(NoteSeen(h, enc, seqNo), db)
  {
    var h1 := NoteSeen(h, enc, seqNo);
    SameMailJournal(h.mailboxes, h.dirty, h1.dirty, db.mail);
    SameTokenJournal(h.tokens, h.dirty, h1.dirty, db.tokens);
    hide MailLag, TokenLag, IdentityLag;
    if !h1.dirty.seenCleared {
      assert NoDup(h1.dirty.seenNew);
      forall e ensures Get(db.seen, e) == if e in h1.dirty.seenNew then None else Get(h1.seen, e) {
        assert Get(db.seen, e) == if e in h.dirty.seenNew then None else Get(h.seen, e);
      }
    }
  }

  lemma AppendKeepsSeen(h: Home, inner: Inner)
    ensures AppendInner(h, inner).0.seen == h.seen
    ensures AppendInner(h, inner).0.peers == h.peers
  {
    var (h1, r) := AuthorizeAppend(h, inner.capability);
    assert h1.seen == h.seen && h1.peers == h.peers;
    hide AuthorizeAppend;
    if r.Ok? && r.value in h1.mailboxes && PaddedLen(inner).Some? {
      var h2 := Store(h1, r.value, inner, PaddedLen(inner).value);
      assert h2.seen == h.seen && h2.peers == h.peers;
      hide Store;
      var h3 := BurnIfShare(h2, inner.capability);
      assert h3.seen == h.seen && h3.peers == h.peers;
      hide BurnIfShare;
      GcKeepsSeen(h3, r.value);
      hide Gc;
    }
  }

  lemma GcKeepsSeen(h: Home, owner: Key)
    ensures Gc(h, owner).seen == h.seen && Gc(h, owner).peers == h.peers
  {
    hide Retained, Trim;
  }

  lemma IngestLag(h: Home, db: Tables, enc: Option<Key>, plain: Option<Inner>)
    requires Valid(h) && Lag(h, db)
    ensures Lag(Ingest(h, enc, plain).0, db)
  {
    hide Valid, Lag, AppendInner;
    if enc.Some? && enc.value !in h.seen && plain.Some? {
      AppendLag(h, db, plain.value);
      AppendKeepsSeen(h, plain.value);
      var (h1, r) := AppendInner(h, plain.value);
      if r.Ok? { NoteSeenLag(h1, db, enc.value, r.value); }
    }
  }

  lemma PeerFieldsLag(h: Home, h1: Home, db: Tables)
    requires Lag(h, db) && h.dirty.peers <= h1.dirty.peers && h.peers.Keys <= h1.peers.Keys
    requires h1 == h.(peers := h1.peers, dirty := h.dirty.(peers := h1.dirty.peers))
    requires forall p :: p in h1.peers && p !in h1.dirty.peers ==> p in h.peers && PeerRowOf(h1.peers[p]) == PeerRowOf(h.peers[p])
    ensures Lag(h1, db)
  {
    SameMailJournal(h.mailboxes, h.dirty, h1.dirty, db.mail);
    SameTokenJournal(h.tokens, h.dirty, h1.dirty, db.tokens);
    hide MailLag, TokenLag, IdentityLag;
  }

  lemma IngestKeepsPeers(h: Home, enc: Option<Key>, plain: Option<Inner>)
    ensures Ingest(h, enc, plain).0.peers == h.peers
  {
    hide AppendInner;
    if plain.Some? { AppendKeepsSeen(h, plain.value); }
  }

  /** Rewriting fields of a peer that are not columns. */
  lemma PeerVolatileLag(h: Home, db: Tables, id: Key, p: Peer)
    requires Valid(h) && Lag(h, db) && id in h.peers && PeerRowOf(p) == PeerRowOf(h.peers[id])
    ensures Lag(h.(peers := h.peers[id := p]), db) && Valid(h.(peers := h.peers[id := p]))
  {
    hide Lag, MailboxesOk;
    PeerFieldsLag(h, h.(peers := h.peers[id := p]), db);
  }

  lemma HandleLag(h: Home, db: Tables, from: Key, enc: Option<Key>, plain: Option<Inner>)
    requires Valid(h) && Lag(h, db) && from in h.peers
    ensures Lag(HandleCiphertext(h, from, enc, plain).0, db)
  {
    hide Valid, Lag, Ingest;
    if enc.Some? {
      var p := h.peers[from];
      var p1 := Windowed(p, h.now);
      var h1 := h.(peers := h.peers[from := p1]);
      PeerVolatileLag(h, db, from, p1);
      IngestLag(h1, db, enc, plain);
      IngestValid(h1, enc, plain);
      IngestKeepsPeers(h1, enc, plain);
      var (h2, r) := Ingest(h1, enc, plain);
      if r.Ok? {
        PeerVolatileLag(h2, db, from, Noted(p1, enc.value, r.value));
      }
    }
  }

  lemma AcceptLag(h: Home, db: Tables, from: Key, frame: Frame)
    requires Valid(h) && Lag(h, db)
    ensures Lag(AcceptFrame(h, from, frame).0, db)
  {
    hide Lag, HandleCiphertext, MailboxesOk;
    if from in h.peers {
      var h1 := MarkPeer(h, from, h.peers[from].(lastRx := frame.counter));
      PeerFieldsLag(h, h1, db);
      if frame.payload.Ciphertext? {
        HandleLag(h1, db, from, frame.payload.enc, frame.payload.plain);
      }
    }
  }

  lemma MarkPeerLag(h: Home, db: Tables, id: Key, p: Peer)
    requires Lag(h, db)
    ensures Lag(MarkPeer(h, id, p), db)
  {
    hide Lag;
    PeerFieldsLag(h, MarkPeer(h, id, p), db);
  }

  lemma DirectoryLag(h: Home, db: Tables, id: Key, row: DirectoryRow, ids: set<Key>)
    requires Lag(h, db) && id in h.mailboxes && ids == h.dirty.identities + {id}
    ensures Lag(h.(directory := h.directory[id := row], dirty := h.dirty.(identities := ids)), db)
  {
    var h1 := h.(directory := h.directory[id := row], dirty := h.dirty.(identities := ids));
    SameMailJournal(h.mailboxes, h.dirty, h1.dirty, db.mail);
    SameTokenJournal(h.tokens, h.dirty, h1.dirty, db.tokens);
    hide MailLag, TokenLag;
  }

  lemma RegisterLag(h: Home, db: Tables, id: Key, pk: Key)
    requires Valid(h) && Lag(h, db)
    ensures Lag(Register(h, id, pk).0, db)
  {
    hide MailboxOk;
    var (h1, r) := Register(h, id, pk);
    if r.Ok? {
      NewMailboxLag(h.mailboxes, h.dirty, db.mail, id, pk);
      SameMailJournal(h1.mailboxes, h.dirty, h1.dirty, db.mail);
      SameTokenJournal(h.tokens, h.dirty, h1.dirty, db.tokens);
      hide Valid, MailLag, TokenLag;
    }
  }

  lemma NewMailboxLag(mb: map<Key, Mailbox>, d: HomeDirty, db: map<(Key, nat), MailRow>, id: Key, pk: Key)
    requires MailLag(mb, d, db) && id !in mb
    ensures MailLag(mb[id := NewMailbox(pk)], d, db)
  {
    forall k ensures MemMail(mb[id := NewMailbox(pk)], k) == MemMail(mb, k) {
    }
  }

  lemma RegisterShareLag(h: Home, db: Tables, owner: Key, token: Key, ttl: Option<nat>)
    requires DistinctTokens(h.tokens) && Lag(h, db) && token !in Held(h.tokens)
    ensures Lag(RegisterShare(h, owner, token, ttl).0, db)
  {
    hide Lag, Held, DistinctTokens;
    var secs := if ttl.Some? then ttl.value else SHARE_TTL_DEFAULT;
    PushLag(h, db, token, Share(owner, h.now + secs, false, None));
  }

  lemma RotateLag(h: Home, db: Tables, owner: Key, oldToken: Key, confirm: bool, token: Key)
    requires Valid(h) && Lag(h, db) && token !in Held(h.tokens)
    ensures Lag(RotateContact(h, owner, oldToken, confirm, token).0, db)
  {
    hide Valid, Lag, Held, MintContact;
    MintLag(h, db, owner, token);
    MintValid(h, owner, token);
    var (h1, r) := MintContact(h, owner, token);
    var i := LastIndex(h1.tokens, oldToken);
    if i >= 0 && h1.tokens[i].kind.Contact? {
      TouchLag(h1, db, i, h1.tokens[i].kind.(graceUntil := Some(h1.now + CONTACT_GRACE_SECS)));
    }
  }

  lemma MintLag(h: Home, db: Tables, owner: Key, token: Key)
    requires Valid(h) && Lag(h, db) && token !in Held(h.tokens)
    ensures Lag(MintContact(h, owner, token).0, db)
  {
    hide MailboxesOk, Lag, DeadFor;
    if Enabled(h, owner) {
      var gone := DeadFor(h, owner);
      DropLag(h, db, gone);
      DropTokensValid(h, gone);
      HeldWithout(h, gone);
      PushLag(DropTokens(h, gone), db, token, Contact(owner, None, h.now, 0));
    }
  }

  lemma PrekeyMarkLag(h: Home, db: Tables, o: Key, q: seq<Blob>)
    requires Lag(h, db)
    ensures Lag(h.(prekeys := h.prekeys[o := q], dirty := h.dirty.(prekeys := h.dirty.prekeys + {o})), db)
  {
    var h1 := h.(prekeys := h.prekeys[o := q], dirty := h.dirty.(prekeys := h.dirty.prekeys + {o}));
    SameMailJournal(h.mailboxes, h.dirty, h1.dirty, db.mail);
    SameTokenJournal(h.tokens, h.dirty, h1.dirty, db.tokens);
    hide MailLag, TokenLag, IdentityLag;
  }

  lemma FetchPrekeyLag(h: Home, db: Tables, token: Key)
    requires Valid(h) && Lag(h, db)
    ensures Lag(FetchPrekey(h, token).0, db)
  {
    hide Lag, MailboxesOk;
    var i := LastIndex(h.tokens, token);
    if i >= 0 && h.tokens[i].kind.Share? {
      var kind := h.tokens[i].kind;
      if kind.mailbox in h.prekeys && h.prekeys[kind.mailbox] != [] {
        var queue := h.prekeys[kind.mailbox];
        PrekeyMarkLag(h, db, kind.mailbox, queue[1..]);
        var h1 := h.(prekeys := h.prekeys[kind.mailbox := queue[1..]],
                     dirty := h.dirty.(prekeys := h.dirty.prekeys + {kind.mailbox}));
        TouchLag(h1, db, i, kind.(reserved := Some(queue[0])));
      }
    }
  }

  lemma ObserveLag(h: Home, db: Tables, id: Key, b: Binding, verified: bool)
    requires Valid(h) && Lag(h, db)
    ensures Lag(ObserveBinding(h, id, b, verified).0, db)
  {
    hide MailboxOk, Lag, Disable;
    if id in h.mailboxes {
      var row := if id in h.directory
                 then h.directory[id].(binding := b, bindingSeq := b.seqNo)
                 else DirectoryRow(h.mailboxes[id].ownerPk, 0, b, b.seqNo, None);
      DirectoryLag(h, db, id, row, h.dirty.identities + {id});
      DisableLag(h.(directory := h.directory[id := row],
                    dirty := h.dirty.(identities := h.dirty.identities + {id})), db, id);
    }
  }

  lemma RevokeLag(h: Home, db: Tables, id: Key, stmt: Blob, verified: bool)
    requires Valid(h) && Lag(h, db)
    ensures Lag(IngestRevocation(h, id, stmt, verified).0, db)
  {
    hide MailboxOk, Lag, Disable;
    if id in h.directory {
      var row := h.directory[id].(revocation := Some(stmt));
      var h1 := h.(directory := h.directory[id := row],
                   dirty := h.dirty.(identities := h.dirty.identities + {id}));
      DirectoryLag(h, db, id, row, h.dirty.identities + {id});
      DisableLag(h1, db, id);
      MembershipMarkLag(Disable(h1, id), db, Disable(h1, id).memberships - {id}, id);
    }
  }

  lemma RegisterCardLag(h: Home, db: Tables, card: Card, verified: bool)
    requires Valid(h) && Lag(h, db) && card.shareToken !in Held(h.tokens)
    ensures Lag(RegisterFromCard(h, card, verified).0, db)
  {
    RegisterLag(h, db, card.id, card.identityPk);
    assert DistinctTokens(h.tokens);
    hide Valid, Lag, DistinctTokens, Held, NewMailbox, RegisterShare;
    var (h1, r) := Register(h, card.id, card.identityPk);
    if r.Ok? {
      var row := DirectoryRow(card.identityPk, card.revocationPk, card.binding, card.binding.seqNo, None);
      DirectoryLag(h1, db, card.id, row, h1.dirty.identities);
      assert h1.dirty == h1.dirty.(identities := h1.dirty.identities);
      var h2 := h1.(directory := h1.directory[card.id := row]);
      assert h2.tokens == h.tokens && Lag(h2, db);
      RegisterShareLag(h2, db, card.id, card.shareToken, None);
    }
  }

  lemma MembershipMarkLag(h: Home, db: Tables, m: map<Key, seq<Key>>, id: Key)
    requires Lag(h, db)
    requires forall o :: o != id ==> Get(m, o) == Get(h.memberships, o)
    ensures Lag(h.(memberships := m, dirty := h.dirty.(memberships := h.dirty.memberships + {id})), db)
  {
    var h1 := h.(memberships := m, dirty := h.dirty.(memberships := h.dirty.memberships + {id}));
    SameMailJournal(h.mailboxes, h.dirty, h1.dirty, db.mail);
    SameTokenJournal(h.tokens, h.dirty, h1.dirty, db.tokens);
    hide MailLag, TokenLag, IdentityLag;
    forall o | o !in h1.dirty.memberships ensures Get(db.memberships, o) == Members(m, o) {
      assert Get(m, o) == Get(h.memberships, o);
    }
  }

  lemma NoteMembershipLag(h: Home, db: Tables, id: Key, group: Key)
    requires Lag(h, db)
    ensures Lag(NoteMembership(h, id, group), db)
  {
    hide Lag;
    var list := if id in h.memberships then h.memberships[id] else [];
    MembershipMarkLag(h, db, h.memberships[id := list + [group]], id);
  }

  lemma OutboundLag(h: Home, db: Tables, rows: seq<OutboundRow>)
    requires Lag(h, db)
    ensures Lag(SetOutbound(h, rows), db)
  {
    SameMailJournal(h.mailboxes, h.dirty, SetOutbound(h, rows).dirty, db.mail);
    SameTokenJournal(h.tokens, h.dirty, SetOutbound(h, rows).dirty, db.tokens);
    hide MailLag, TokenLag, IdentityLag;
  }

  lemma PeerOpsLag(h: Home, db: Tables, op: Op)
    requires Valid(h) && Lag(h, db)
    requires op.OpPin? || op.OpRefuse? || op.OpRotateSign? || op.OpResetLink? || op.OpTakeFrame? || op.OpHelloDone?
    ensures Lag(Step(h, op), db)
  {
    hide Valid, Lag;
    match op
    case OpPin(p, b, v) =>
      MarkPeerLag(h, db, p, if p in h.peers then h.peers[p].(bundle := b)
                            else Peer(b, false, 0, 1, false, 0, 0, map[]));
    case OpRefuse(p) => if p in h.peers { MarkPeerLag(h, db, p, h.peers[p].(refused := true)); }
    case OpRotateSign(p, b, _) => if p in h.peers { MarkPeerLag(h, db, p, h.peers[p].(bundle := b)); }
    case OpResetLink(p) =>
      if p in h.peers { MarkPeerLag(h, db, p, h.peers[p].(lastRx := 0, nextTx := 1, helloDone := false)); }
    case OpTakeFrame(p, payload) =>
      if p in h.peers { MarkPeerLag(h, db, p, h.peers[p].(nextTx := h.peers[p].nextTx + 1)); }
    case OpHelloDone(p) =>
      if p in h.peers { PeerVolatileLag(h, db, p, h.peers[p].(helloDone := true)); }
  }

  lemma SweepForLag(h: Home, db: Tables, owner: Key)
    requires Valid(h) && Lag(h, db)
    ensures Lag(SweepFor(h, owner), db)
  {
    hide Valid, Lag, DeadFor, DropTokens;
    DropLag(h, db, DeadFor(h, owner));
  }

  lemma SweepLag(h: Home, db: Tables)
    requires Valid(h) && Lag(h, db)
    ensures Lag(Sweep(h), db)
  {
    hide Valid, Lag, DeadTokens, DropTokens;
    DropLag(h, db, DeadTokens(h));
  }

  lemma TickLag(h: Home, db: Tables, time: nat)
    requires Lag(h, db)
    ensures Lag(h.(now := time), db)
  {
    hide MailLag, TokenLag, IdentityLag, SeenLag, PeerLag;
  }

  lemma PublishLag(h: Home, db: Tables, owner: Key, blob: Blob)
    requires Lag(h, db)
    ensures Lag(PublishPrekey(h, owner, blob).0, db)
  {
    hide Lag;
    PrekeyMarkLag(h, db, owner, (if owner in h.prekeys then h.prekeys[owner] else []) + [blob]);
  }

  lemma EnqueueLag(h: Home, db: Tables, outer: Outer)
    requires Valid(h) && Lag(h, db)
    ensures Lag(Enqueue(h, outer), db)
  {
    hide Valid, Lag, Ingest;
    if outer.dest == h.serverId { IngestLag(h, db, outer.enc, outer.plain); }
    else { OutboundLag(h, db, h.outbound + [OutboundRow(outer.dest, outer, h.now, h.now, 1)]); }
  }

  lemma DeferLag(h: Home, db: Tables, until: nat)
    requires Lag(h, db)
    ensures Lag(DeferOutbound(h, until), db)
  {
    hide Lag;
    OutboundLag(h, db, DeferOutbound(h, until).outbound);
  }

  predicate MailOp(op: Op) {
    op.OpIngest? || op.OpAppend? || op.OpFetch? || op.OpAck? || op.OpEnqueue? || op.OpDeferOutbound?
    || op.OpEditOutbound? || op.OpAcceptFrame?
  }

  predicate IdentityOp(op: Op) {
    op.OpRegister? || op.OpObserveBinding? || op.OpRevoke? || op.OpRegisterCard? || op.OpNoteMembership? || op.OpTick?
  }

  predicate TokenOp(op: Op) {
    op.OpPublishPrekey? || op.OpFetchPrekey? || op.OpRegisterShare? || op.OpMintContact? || op.OpRotateContact?
    || op.OpSweepFor? || op.OpSweep?
  }

  /** What the journal needs of a caller beyond memory: an acknowledgement whose mark reaches the database. */
  ghost predicate Journalable(h: Home, db: Tables, op: Op) {
    Admissible(h, op) && (op.OpAck? ==> AckLands(h, db.mail, op.owner, op.upTo))
  }

  lemma MailStepLag(h: Home, db: Tables, op: Op)
    requires Valid(h) && Lag(h, db) && Journalable(h, db, op) && MailOp(op)
    ensures Lag(Step(h, op), db)
  {
    hide Valid, Lag, Held, Ingest, AppendInner, Gc, Ack, AcceptFrame, Enqueue, DeferOutbound, SetOutbound;
    match op
    case OpIngest(enc, plain) => IngestLag(h, db, enc, plain);
    case OpAppend(inner) => AppendLag(h, db, inner);
    case OpFetch(o) => GcLag(h, db, o);
    case OpAck(o, u) => AckLag(h, db, o, u);
    case OpAcceptFrame(p, frame) => AcceptLag(h, db, p, frame);
    case OpEnqueue(outer) => EnqueueLag(h, db, outer);
    case OpDeferOutbound(until) => DeferLag(h, db, until);
    case OpEditOutbound(rows) => OutboundLag(h, db, rows);
  }

  lemma IdentityStepLag(h: Home, db: Tables, op: Op)
    requires Valid(h) && Lag(h, db) && Admissible(h, op) && IdentityOp(op)
    ensures Lag(Step(h, op), db)
  {
    hide Valid, Lag, Held, Register, RegisterFromCard, ObserveBinding, NoteMembership, IngestRevocation;
    match op
    case OpRegister(id, pk) => RegisterLag(h, db, id, pk);
    case OpObserveBinding(id, b, v) => ObserveLag(h, db, id, b, v);
    case OpRevoke(id, stmt, v) => RevokeLag(h, db, id, stmt, v);
    case OpRegisterCard(card, v) => RegisterCardLag(h, db, card, v);
    case OpNoteMembership(id, g) => NoteMembershipLag(h, db, id, g);
    case OpTick(time) => TickLag(h, db, time);
  }

  lemma ValidDistinct(h: Home)
    requires Valid(h)
    ensures DistinctTokens(h.tokens)
  {
    hide MailboxesOk, DirectoryOk, PrekeysOk, MembershipsOk;
  }

  lemma TokenStepLag(h: Home, db: Tables, op: Op)
    requires Valid(h) && Lag(h, db) && Admissible(h, op) && TokenOp(op)
    ensures Lag(Step(h, op), db)
  {
    hide Valid, Lag, Held, DistinctTokens, PublishPrekey, FetchPrekey, RegisterShare, MintContact, RotateContact,
         SweepFor, Sweep;
    match op
    case OpPublishPrekey(o, b) => PublishLag(h, db, o, b);
    case OpFetchPrekey(t) => FetchPrekeyLag(h, db, t);
    case OpRegisterShare(o, t, ttl) =>
      ValidDistinct(h);
      RegisterShareLag(h, db, o, t, ttl);
    case OpMintContact(o, t) => MintLag(h, db, o, t);
    case OpRotateContact(o, a, c, t) => RotateLag(h, db, o, a, c, t);
    case OpSweepFor(o) => SweepForLag(h, db, o);
    case OpSweep => SweepLag(h, db);
  }

  /** Every journalable mutator, whatever its outcome, leaves the journal able to repair the database. */
  lemma StepLag(h: Home, db: Tables, op: Op)
    requires Valid(h) && Lag(h, db) && Journalable(h, db, op)
    ensures Lag(Step(h, op), db)
  {
    hide Valid, Lag, Admissible, Step, AckLands;
    if MailOp(op) { MailStepLag(h, db, op); }
    else if IdentityOp(op) { IdentityStepLag(h, db, op); }
    else if TokenOp(op) { TokenStepLag(h, db, op); }
    else { PeerOpsLag(h, db, op); }
  }
}
