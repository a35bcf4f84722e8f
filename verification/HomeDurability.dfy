/**
 Whole runs of memory, journal and database: mutators, committed and failed persists, and restarts
 in any order. The three places where the code itself lets the database drift are characterised exactly.
 */
module HomeDurability {
  import opened Basics
  import opened HomeState
  import opened HomeRun
  import opened HomeJournal

  datatype World = World(home: Home, db: Tables)

  datatype Event =
    | Did(op: Op)
    | Persisted
    | PersistFailed
    | Restarted

  /** A mailbox read back: counters from the identity row, rows from the mail table, tokens of those rows only. */
  ghost predicate LoadsMailbox(db: Tables, id: Key, m: Mailbox) {
    && id in db.identities
    && m.ownerPk == db.identities[id].pk
    && m.nextSeq == db.identities[id].nextSeq
    && m.bytes == db.identities[id].bytes
    && m.disabled == db.identities[id].disabled
    && (forall s :: s in m.rows <==> (id, s) in db.mail)
    && (forall s :: s in m.rows ==> m.rows[s] == StoredEnvelope(s, db.mail[(id, s)].receivedAt,
                                                                db.mail[(id, s)].expiresAt, db.mail[(id, s)].inner))
    && (forall t :: t in m.idem ==> m.idem[t] in m.rows && m.rows[m.idem[t]].inner.idem == t)
    && (forall s :: s in m.rows ==> m.rows[s].inner.idem in m.idem && s <= m.idem[m.rows[s].inner.idem])
  }

  function KindOf(c: TokenCols): TokenKind {
    if c.kind == 1 then Share(c.mailbox, if c.expiresAt.Some? then c.expiresAt.value else 0, c.burned, c.reserved)
    else Contact(c.mailbox, c.graceUntil, if c.windowStart.Some? then c.windowStart.value else 0, c.windowCount)
  }

  function RestorePeer(c: PeerCols): Peer {
    Peer(c.bundle, c.refused, c.lastRx, c.nextTx, c.lastRx > 0 || c.nextTx > 1, 0, 0, map[])
  }

  ghost predicate LoadsMailboxes(db: Tables, mb: map<Key, Mailbox>) {
    && (forall id :: id in mb <==> id in db.identities && db.identities[id].nextSeq > 0)
    && (forall id :: id in mb ==> LoadsMailbox(db, id, mb[id]))
  }

  function LoadedDirectory(ids: map<Key, IdentityRow>): map<Key, DirectoryRow> {
    map id | id in ids && ids[id].binding.Some? ::
      DirectoryRow(ids[id].pk, ids[id].revocationPk, ids[id].binding.value, ids[id].bindingSeq, ids[id].revocation)
  }

  ghost predicate LoadsTokens(rows: map<Key, TokenCols>, ts: seq<TokenRow>) {
    && DistinctTokens(ts)
    && Held(ts) == rows.Keys
    && (forall i :: 0 <= i < |ts| ==> ts[i].kind == KindOf(rows[ts[i].token]))
  }

  ghost predicate LoadsMembers(rows: map<Key, set<Key>>, mem: map<Key, seq<Key>>) {
    mem.Keys == rows.Keys && forall o :: o in mem ==> NoDup(mem[o]) && SetOf(mem[o]) == rows[o]
  }

  function LoadedPeers(rows: map<Key, PeerCols>): map<Key, Peer> {
    map p | p in rows :: RestorePeer(rows[p])
  }

  /** `h` is a possible result of loading `db`: token and membership rows come back in any order. */
  ghost predicate Loads(db: Tables, h: Home) {
    && LoadsMailboxes(db, h.mailboxes)
    && h.directory == LoadedDirectory(db.identities)
    && LoadsTokens(db.tokens, h.tokens)
    && h.prekeys == db.prekeys
    && LoadsMembers(db.memberships, h.memberships)
    && h.peers == LoadedPeers(db.peers)
    && h.outbound == db.outbound
    && h.seen == db.seen
    && h.dirty == CLEAN
  }

  ghost predicate Next(w: World, e: Event, w': World) {
    match e
    case Did(op) => Journalable(w.home, w.db, op) && w' == World(Step(w.home, op), w.db)
    case Persisted =>
      // A clean journal issues no statement; otherwise the transaction commits when no constraint is violated.
      && (w.home.dirty == CLEAN || ConstraintsOk(w.db, w.home, w.home.dirty))
      && w' == if w.home.dirty == CLEAN then w
               else World(w.home.(dirty := CLEAN), Flushed(w.db, w.home, w.home.dirty))
    case PersistFailed =>
      // The drained journal is absorbed back into the empty one that replaced it.
      w' == World(w.home.(dirty := Absorb(CLEAN, w.home.dirty)), w.db)
    case Restarted => w'.db == w.db && Loads(w.db, w'.home)
  }

  /** Memory is sound, the database trails it by what the journal lists, and is itself a snapshot of sound memory. */
  ghost predicate Good(w: World) {
    && Valid(w.home)
    && Lag(w.home, w.db)
    && exists last: Home :: Valid(last) && w.db == Snapshot(last)
  }

  ghost predicate IsRun(ws: seq<World>, es: seq<Event>) {
    && |ws| == |es| + 1
    && forall i :: 0 <= i < |es| ==> Next(ws[i], es[i], ws[i + 1])
  }

  // ------------------------------------------------------------ single events

  lemma AbsorbIntoClean(d: HomeDirty)
    ensures Absorb(CLEAN, d) == d
  {
    var a := Absorb(CLEAN, d);
    forall k ensures Get(a.mailboxAcked, k) == Get(d.mailboxAcked, k) {
    }
    SameLookups(a.mailboxAcked, d.mailboxAcked);
  }

  /** Absorbing one journal into another loses nothing of either: whatever one marks is marked, marks take the larger. */
  lemma AbsorbKeepsBoth(d: HomeDirty, o: HomeDirty)
    ensures var a := Absorb(d, o);
            && (forall x :: x in a.identities <==> x in d.identities || x in o.identities)
            && (forall x :: x in a.mailboxNew <==> x in d.mailboxNew || x in o.mailboxNew)
            && (forall x :: x in a.mailboxDropped <==> x in d.mailboxDropped || x in o.mailboxDropped)
            && (forall x :: x in a.mailboxCleared <==> x in d.mailboxCleared || x in o.mailboxCleared)
            && (forall x :: x in a.tokens <==> x in d.tokens || x in o.tokens)
            && (forall x :: x in a.tokensDropped <==> x in d.tokensDropped || x in o.tokensDropped)
            && (forall x :: x in a.tokensDroppedExact <==> x in d.tokensDroppedExact || x in o.tokensDroppedExact)
            && (forall x :: x in a.prekeys <==> x in d.prekeys || x in o.prekeys)
            && (forall x :: x in a.memberships <==> x in d.memberships || x in o.memberships)
            && (forall x :: x in a.peers <==> x in d.peers || x in o.peers)
            && (forall x :: x in a.seenNew <==> x in d.seenNew || x in o.seenNew)
            && (a.outbound <==> d.outbound || o.outbound) && (a.seenCleared <==> d.seenCleared || o.seenCleared)
    ensures var a := Absorb(d, o).mailboxAcked;
            && (forall x :: x in a <==> x in d.mailboxAcked || x in o.mailboxAcked)
            && (forall x :: x in d.mailboxAcked ==> a[x] >= d.mailboxAcked[x])
            && (forall x :: x in o.mailboxAcked ==> a[x] >= o.mailboxAcked[x])
            && (forall x :: x in a ==> Some(a[x]) == Get(d.mailboxAcked, x) || Some(a[x]) == Get(o.mailboxAcked, x))
  {
  }

  lemma FlushCleanIsNoop(h: Home, db: Tables)
    ensures Flushed(db, h, CLEAN) == db
  {
    FlushCleanMail(h, db);
    FlushCleanTokens(h, db);
    FlushCleanRest(h, db);
    hide FlushMail, FlushTokens, FlushIdentities, FlushPrekeys, FlushMemberships, FlushPeers, FlushSeen;
  }

  lemma FlushCleanMail(h: Home, db: Tables)
    ensures FlushMail(db, h, CLEAN) == db.mail
  {
    forall k ensures Get(FlushMail(db, h, CLEAN), k) == Get(db.mail, k) {
    }
    SameLookups(FlushMail(db, h, CLEAN), db.mail);
  }

  lemma FlushCleanTokens(h: Home, db: Tables)
    ensures FlushTokens(db, h, CLEAN) == db.tokens
  {
    hide MemToken, UpsertToken;
    forall k ensures Get(FlushTokens(db, h, CLEAN), k) == Get(db.tokens, k) {
    }
    SameLookups(FlushTokens(db, h, CLEAN), db.tokens);
  }

  lemma FlushCleanRest(h: Home, db: Tables)
    ensures FlushIdentities(db, h, CLEAN) == db.identities
    ensures FlushPrekeys(db, h, CLEAN) == db.prekeys
    ensures FlushMemberships(db, h, CLEAN) == db.memberships
    ensures FlushPeers(db, h, CLEAN) == db.peers
    ensures FlushSeen(db, h, CLEAN) == db.seen
  {
    hide IdentityCols, Queue, Members, PeerRowOf;
    forall k
      ensures Get(FlushIdentities(db, h, CLEAN), k) == Get(db.identities, k)
      ensures Get(FlushPrekeys(db, h, CLEAN), k) == Get(db.prekeys, k)
      ensures Get(FlushMemberships(db, h, CLEAN), k) == Get(db.memberships, k)
      ensures Get(FlushPeers(db, h, CLEAN), k) == Get(db.peers, k)
      ensures Get(FlushSeen(db, h, CLEAN), k) == Get(db.seen, k)
    {
    }
    SameLookups(FlushIdentities(db, h, CLEAN), db.identities);
    SameLookups(FlushPrekeys(db, h, CLEAN), db.prekeys);
    SameLookups(FlushMemberships(db, h, CLEAN), db.memberships);
    SameLookups(FlushPeers(db, h, CLEAN), db.peers);
    SameLookups(FlushSeen(db, h, CLEAN), db.seen);
  }

  /** An empty journal means the database already equals memory. */
  lemma CleanMeansSynced(h: Home, db: Tables)
    requires Valid(h) && Lag(h, db) && h.dirty == CLEAN
    ensures db == Snapshot(h)
  {
    FlushIsSnapshot(h, db);
    FlushCleanIsNoop(h, db);
  }

  lemma SnapshotIgnoresJournal(h: Home, d: HomeDirty)
    ensures Snapshot(h.(dirty := d)) == Snapshot(h)
    ensures Valid(h) ==> Valid(h.(dirty := d))
  {
    hide MailboxesOk, TokensOk;
  }

  // ------------------------------------------------------------------ restart

  lemma KindRoundTrip(kind: TokenKind)
    ensures KindOf(TokenRowOf(kind)) == kind
  {
  }

  lemma RowsReload(h: Home, id: Key, m: Mailbox)
    requires MailboxesOk(h.mailboxes) && id in h.mailboxes && LoadsMailbox(Snapshot(h), id, m)
    ensures m.rows == h.mailboxes[id].rows
  {
    var b := h.mailboxes[id];
    assert MailboxOk(b);
    hide MailboxesOk;
    forall s: nat ensures Get(m.rows, s) == Get(b.rows, s) {
      MailKeysAre(h.mailboxes, (id, s));
      assert (id, s) in Snapshot(h).mail <==> s in b.rows;
    }
    hide *;
    SameLookups(m.rows, b.rows);
  }

  /** The idempotency entries whose row is still held. */
  function LiveIdem(b: Mailbox): map<Key, nat> {
    map t | t in b.idem && b.idem[t] in b.rows :: b.idem[t]
  }

  /** Tokens of live rows are exactly the ones whose sequence number is still stored. */
  lemma IdemReload(b: Mailbox, m: Mailbox)
    requires MailboxOk(b) && m == b.(idem := m.idem)
    requires forall t :: t in m.idem ==> m.idem[t] in m.rows && m.rows[m.idem[t]].inner.idem == t
    requires forall s :: s in m.rows ==> m.rows[s].inner.idem in m.idem && s <= m.idem[m.rows[s].inner.idem]
    ensures m.idem == LiveIdem(b)
    ensures MailboxOk(m)
  {
    var live := LiveIdem(b);
    forall t | t in m.idem ensures t in live && live[t] == m.idem[t] {
      assert b.rows[m.idem[t]].inner.idem == t;
    }
    forall t | t in live ensures t in m.idem {
      assert b.rows[b.idem[t]].inner.idem == t;
    }
  }

  /** A mailbox comes back with its rows and counters, and with the idempotency tokens of its live rows. */
  lemma MailboxReloads(h: Home, id: Key, m: Mailbox)
    requires Valid(h) && id in h.mailboxes && LoadsMailbox(Snapshot(h), id, m)
    ensures var b := h.mailboxes[id]; m == b.(idem := LiveIdem(b))
    ensures MailboxOk(m)
  {
    hide MailboxOk, TokensOk, PrekeysOk, MembershipsOk;
    var b := h.mailboxes[id];
    RowsReload(h, id, m);
    assert m.ownerPk == b.ownerPk && m.nextSeq == b.nextSeq && m.disabled == b.disabled && m.bytes == b.bytes;
    hide Snapshot;
    IdemReload(b, m);
  }

  lemma TokensReload(h: Home, h': Home, t: Key)
    requires Valid(h) && Loads(Snapshot(h), h')
    ensures MemToken(h'.tokens, t) == MemToken(h.tokens, t)
  {
    hide MailboxesOk, DirectoryOk, PrekeysOk, MembershipsOk, LoadsMailbox;
    var db := Snapshot(h).tokens;
    assert t in db <==> MemToken(h.tokens, t).Some?;
    if t in db {
      var i :| 0 <= i < |h'.tokens| && h'.tokens[i].token == t;
      MemTokenAt(h'.tokens, i);
      KindRoundTrip(MemToken(h.tokens, t).value);
    } else {
      assert t !in Held(h'.tokens);
    }
  }

  /** A restart rebuilds sound memory whose snapshot is the database it was read from. */
  lemma ReloadRestores(h: Home, h': Home)
    requires Valid(h) && Loads(Snapshot(h), h')
    ensures Valid(h')
    ensures Snapshot(h') == Snapshot(h)
    ensures SameMemory(h, h')
    ensures forall t :: MemToken(h'.tokens, t) == MemToken(h.tokens, t)
  {
    ReloadSound(h, h');
    hide Valid, Loads, Snapshot, MemToken;
    SameMailboxesBack(h, h');
    SameTokensBack(h, h');
    SamePeersBack(h, h');
    SameQueuesBack(h, h');
    ReloadDirectory(h, h');
    SameRestBack(h, h');
    hide SameMailboxes, SamePeers, SameLists;
  }

  lemma SameRestBack(h: Home, h': Home)
    requires Loads(Snapshot(h), h')
    ensures h'.seen == h.seen && h'.outbound == h.outbound
  {
    hide LoadsMailboxes, LoadedDirectory, LoadsTokens, LoadsMembers, LoadedPeers;
  }

  lemma ReloadSound(h: Home, h': Home)
    requires Valid(h) && Loads(Snapshot(h), h')
    ensures Valid(h')
    ensures Snapshot(h') == Snapshot(h)
    ensures forall t :: MemToken(h'.tokens, t) == MemToken(h.tokens, t)
  {
    ReloadMailboxes(h, h');
    ReloadDirectory(h, h');
    forall t ensures MemToken(h'.tokens, t) == MemToken(h.tokens, t) { TokensReload(h, h', t); }
    ReloadTokensOk(h, h');
    ReloadQueuesOk(h, h');
    ReloadSnapshot(h, h');
    hide LoadsMailbox, MailboxesOk, TokensOk, DirectoryOk, PrekeysOk, MembershipsOk, MemToken;
  }

  /** A mailbox comes back whole, but for idempotency tokens whose row is gone. */
  ghost predicate SameMailboxes(a: map<Key, Mailbox>, b: map<Key, Mailbox>) {
    && b.Keys == a.Keys
    && forall id :: id in a ==>
         && b[id].ownerPk == a[id].ownerPk && b[id].nextSeq == a[id].nextSeq && b[id].bytes == a[id].bytes
         && b[id].disabled == a[id].disabled && b[id].rows == a[id].rows
         && forall t :: Get(b[id].idem, t) == if t in a[id].idem && a[id].idem[t] in a[id].rows then Some(a[id].idem[t]) else None
  }

  /** A peer comes back with its bundle, refusal and counters; whether the hello was done is read off the counters. */
  ghost predicate SamePeers(a: map<Key, Peer>, b: map<Key, Peer>) {
    && b.Keys == a.Keys
    && forall p :: p in a ==>
         && b[p].bundle == a[p].bundle && b[p].refused == a[p].refused
         && b[p].lastRx == a[p].lastRx && b[p].nextTx == a[p].nextTx
         && (b[p].helloDone <==> a[p].lastRx > 0 || a[p].nextTx > 1)
         && b[p].windowSec == 0 && b[p].windowOk == 0 && b[p].seen == map[]
  }

  /** Queues come back in order and lists in any order; empty ones are forgotten. */
  ghost predicate SameLists(h: Home, h': Home) {
    && (forall o :: o in h'.prekeys <==> o in h.prekeys && |h.prekeys[o]| > 0)
    && (forall o :: o in h'.prekeys ==> h'.prekeys[o] == h.prekeys[o])
    && (forall o :: o in h'.memberships <==> o in h.memberships && |h.memberships[o]| > 0)
    && (forall o, g :: o in h'.memberships ==> (g in h'.memberships[o] <==> g in h.memberships[o]))
  }

  /** Memory before and after a restart, field by field. */
  ghost predicate SameMemory(h: Home, h': Home) {
    && SameMailboxes(h.mailboxes, h'.mailboxes)
    && h'.directory == h.directory && h'.seen == h.seen && h'.outbound == h.outbound
    && (forall x :: x in h'.tokens <==> x in h.tokens)
    && SamePeers(h.peers, h'.peers)
    && SameLists(h, h')
  }

  lemma SameMailboxesBack(h: Home, h': Home)
    requires Valid(h) && Loads(Snapshot(h), h')
    ensures SameMailboxes(h.mailboxes, h'.mailboxes)
  {
    hide Valid, Loads, Snapshot, MailboxesOk;
    ReloadMailboxes(h, h');
  }

  lemma SameTokensBack(h: Home, h': Home)
    requires Valid(h) && Loads(Snapshot(h), h')
    ensures forall x :: x in h'.tokens <==> x in h.tokens
  {
    hide Snapshot, LoadsMailboxes, LoadedDirectory, LoadsMembers, LoadedPeers, MailboxesOk, DirectoryOk, PrekeysOk, MembershipsOk;
    forall x ensures x in h'.tokens <==> x in h.tokens {
      TokenIsRow(h.tokens, x);
      TokenIsRow(h'.tokens, x);
      TokensReload(h, h', x.token);
      hide MemToken, DistinctTokens;
    }
  }

  lemma TokenIsRow(ts: seq<TokenRow>, x: TokenRow)
    requires DistinctTokens(ts)
    ensures x in ts <==> MemToken(ts, x.token) == Some(x.kind)
  {
    if x in ts {
      var i :| 0 <= i < |ts| && ts[i] == x;
      MemTokenAt(ts, i);
    }
  }

  lemma SamePeersBack(h: Home, h': Home)
    requires Loads(Snapshot(h), h')
    ensures SamePeers(h.peers, h'.peers)
  {
    hide LoadsMailboxes, LoadedDirectory, LoadsTokens, LoadsMembers, IdentityCols, MailKeys, MemToken, Held;
  }

  lemma SameQueuesBack(h: Home, h': Home)
    requires Loads(Snapshot(h), h')
    ensures SameLists(h, h')
  {
    hide LoadsMailboxes, LoadedDirectory, LoadsTokens, LoadedPeers, IdentityCols, MailKeys, MemToken, Held;
    forall o, g | o in h'.memberships ensures g in h'.memberships[o] <==> g in h.memberships[o] {
      assert SetOf(h'.memberships[o]) == SetOf(h.memberships[o]);
      InSetOf(h'.memberships[o], g);
      InSetOf(h.memberships[o], g);
    }
  }

  lemma InSetOf(s: seq<Key>, g: Key)
    ensures g in SetOf(s) <==> g in s
  {
  }

  lemma ReloadMailboxes(h: Home, h': Home)
    requires Valid(h) && Loads(Snapshot(h), h')
    ensures h'.mailboxes.Keys == h.mailboxes.Keys && MailboxesOk(h'.mailboxes)
    ensures forall id :: id in h.mailboxes ==> h'.mailboxes[id] == h.mailboxes[id].(idem := LiveIdem(h.mailboxes[id]))
  {
    hide TokensOk, PrekeysOk, MembershipsOk, LoadsMailbox, MailboxOk;
    forall id ensures id in h'.mailboxes <==> id in h.mailboxes {
      if id in h.mailboxes { NextSeqPositive(h.mailboxes[id]); }
    }
    forall id | id in h.mailboxes
      ensures MailboxOk(h'.mailboxes[id]) && h'.mailboxes[id] == h.mailboxes[id].(idem := LiveIdem(h.mailboxes[id]))
    {
      MailboxReloads(h, id, h'.mailboxes[id]);
    }
  }

  /** What memory becomes by being written out and read back. */
  function Restored(h: Home): Home {
    h.(mailboxes := map id | id in h.mailboxes :: h.mailboxes[id].(idem := LiveIdem(h.mailboxes[id])),
       prekeys := map o | o in h.prekeys && h.prekeys[o] != [] :: h.prekeys[o],
       memberships := map o | o in h.memberships && h.memberships[o] != [] :: h.memberships[o],
       peers := map p | p in h.peers :: RestorePeer(PeerRowOf(h.peers[p])),
       dirty := CLEAN)
  }

  /** Every snapshot can be loaded: a restart is always possible. */
  lemma SnapshotLoads(h: Home)
    requires Valid(h)
    ensures Loads(Snapshot(h), Restored(h))
  {
    hide LoadsMailboxes, LoadsTokens, LoadsMembers, LoadedDirectory, LoadedPeers;
    SnapshotLoadsMail(h);
    SnapshotLoadsDirectory(h);
    SnapshotLoadsTokens(h);
    SnapshotLoadsRest(h);
    hide LiveIdem, RestorePeer, IdentityCols, MailKeys, MemToken, Held, Valid;
  }

  lemma SnapshotLoadsMail(h: Home)
    requires Valid(h)
    ensures LoadsMailboxes(Snapshot(h), Restored(h).mailboxes)
  {
    hide TokensOk, PrekeysOk, MembershipsOk, LoadsMailbox, MailboxOk, LiveIdem;
    var db, mb := Snapshot(h), Restored(h).mailboxes;
    forall id ensures id in mb <==> id in db.identities && db.identities[id].nextSeq > 0 {
      if id in h.mailboxes { NextSeqPositive(h.mailboxes[id]); }
    }
    forall id | id in mb ensures LoadsMailbox(db, id, mb[id]) { MailboxWritten(h, id); }
  }

  lemma MailboxWritten(h: Home, id: Key)
    requires Valid(h) && id in h.mailboxes
    ensures LoadsMailbox(Snapshot(h), id, h.mailboxes[id].(idem := LiveIdem(h.mailboxes[id])))
  {
    hide Snapshot, Bytes;
    var m := h.mailboxes[id];
    assert MailboxOk(m);
    WrittenIdentity(h, id);
    WrittenRows(h, id);
    hide Valid, IdentityCols;
  }

  lemma WrittenIdentity(h: Home, id: Key)
    requires Valid(h) && id in h.mailboxes
    ensures var ids, m := Snapshot(h).identities, h.mailboxes[id];
            && id in ids && ids[id].pk == m.ownerPk && ids[id].nextSeq == m.nextSeq && ids[id].bytes == m.bytes
            && ids[id].disabled == m.disabled
  {
    hide MailboxesOk, TokensOk, PrekeysOk, MembershipsOk, MailKeys, MemToken, Held;
  }

  lemma WrittenRows(h: Home, id: Key)
    requires id in h.mailboxes
    ensures var mail, rows := Snapshot(h).mail, h.mailboxes[id].rows;
            && (forall s :: s in rows <==> (id, s) in mail)
            && (forall s :: s in rows ==> mail[(id, s)] == MailCols(rows[s]))
  {
    hide IdentityCols, MemToken, Held;
    forall s ensures s in h.mailboxes[id].rows <==> (id, s) in Snapshot(h).mail
    {
      MailKeysAre(h.mailboxes, (id, s));
    }
  }

  lemma SnapshotLoadsDirectory(h: Home)
    requires Valid(h)
    ensures LoadedDirectory(Snapshot(h).identities) == h.directory
  {
    hide MailboxesOk, TokensOk, PrekeysOk, MembershipsOk;
    var ids := Snapshot(h).identities;
    assert forall id :: Get(ids, id) == if id in h.mailboxes || id in h.directory
                                        then Some(IdentityCols(h.mailboxes, h.directory, id)) else None;
    hide Snapshot;
    forall id ensures Get(LoadedDirectory(ids), id) == Get(h.directory, id) {
    }
    SameLookups(LoadedDirectory(ids), h.directory);
  }

  lemma SnapshotLoadsTokens(h: Home)
    requires Valid(h)
    ensures LoadsTokens(Snapshot(h).tokens, h.tokens)
  {
    hide MailboxesOk, DirectoryOk, PrekeysOk, MembershipsOk, IdentityCols, MailKeys, KindOf;
    forall i | 0 <= i < |h.tokens|
      ensures h.tokens[i].token in Snapshot(h).tokens && h.tokens[i].kind == KindOf(Snapshot(h).tokens[h.tokens[i].token])
    {
      MemTokenAt(h.tokens, i);
      KindRoundTrip(h.tokens[i].kind);
    }
  }

  lemma SnapshotLoadsRest(h: Home)
    requires Valid(h)
    ensures LoadsMembers(Snapshot(h).memberships, Restored(h).memberships)
    ensures LoadedPeers(Snapshot(h).peers) == Restored(h).peers
  {
    hide MailboxesOk, TokensOk, DirectoryOk, PrekeysOk, IdentityCols, MailKeys, MemToken, Held, LiveIdem, RestorePeer;
  }

  lemma NextSeqPositive(m: Mailbox)
    requires MailboxOk(m)
    ensures m.nextSeq >= 1
  {
  }

  lemma ReloadDirectory(h: Home, h': Home)
    requires Valid(h) && Loads(Snapshot(h), h')
    ensures h'.directory == h.directory
  {
    hide MailboxesOk, TokensOk, PrekeysOk, MembershipsOk, LoadsMailbox;
    forall id ensures Get(h'.directory, id) == Get(h.directory, id) {
    }
    SameLookups(h'.directory, h.directory);
  }

  lemma ReloadTokensOk(h: Home, h': Home)
    requires Valid(h) && Loads(Snapshot(h), h')
    requires h'.mailboxes.Keys == h.mailboxes.Keys
    requires forall id :: id in h.mailboxes ==> h'.mailboxes[id].disabled == h.mailboxes[id].disabled
    requires forall t :: MemToken(h'.tokens, t) == MemToken(h.tokens, t)
    ensures TokensOk(h'.tokens, h'.mailboxes)
  {
    hide MailboxesOk, PrekeysOk, MembershipsOk, LoadsMailbox, DirectoryOk, Snapshot;
    forall i | 0 <= i < |h'.tokens|
      ensures h'.tokens[i].kind.mailbox in h'.mailboxes && !h'.mailboxes[h'.tokens[i].kind.mailbox].disabled
    {
      MemTokenAt(h'.tokens, i);
      assert MemToken(h.tokens, h'.tokens[i].token) == Some(h'.tokens[i].kind);
    }
  }

  lemma ReloadQueuesOk(h: Home, h': Home)
    requires Valid(h) && Loads(Snapshot(h), h')
    requires h'.mailboxes.Keys == h.mailboxes.Keys
    requires forall id :: id in h.mailboxes ==> h'.mailboxes[id].disabled == h.mailboxes[id].disabled
    ensures PrekeysOk(h'.prekeys, h'.mailboxes) && MembershipsOk(h'.memberships, h'.mailboxes)
  {
    hide MailboxesOk, TokensOk, LoadsMailbox, DirectoryOk, IdentityCols, MemToken;
  }

  lemma ReloadSnapshot(h: Home, h': Home)
    requires Loads(Snapshot(h), h')
    requires h'.mailboxes.Keys == h.mailboxes.Keys && h'.directory == h.directory
    requires forall id :: id in h.mailboxes ==>
              h'.mailboxes[id] == h.mailboxes[id].(idem := h'.mailboxes[id].idem)
    requires forall t :: MemToken(h'.tokens, t) == MemToken(h.tokens, t)
    ensures Snapshot(h') == Snapshot(h)
  {
    SameIdentities(h, h');
    SameMail(h, h');
    SameTokens(h, h');
    SameMemberships(h, h');
    SamePeerRows(h, h');
    SamePrekeys(h, h');
    hide LoadsMailbox, MemToken, IdentityCols, MailKeys, Held, DistinctTokens;
  }

  lemma SameTokens(h: Home, h': Home)
    requires forall t :: MemToken(h'.tokens, t) == MemToken(h.tokens, t)
    ensures Snapshot(h').tokens == Snapshot(h).tokens
  {
    hide IdentityCols, MailKeys;
    forall t ensures Get(Snapshot(h').tokens, t) == Get(Snapshot(h).tokens, t) {
      assert MemToken(h'.tokens, t) == MemToken(h.tokens, t);
    }
    SameLookups(Snapshot(h').tokens, Snapshot(h).tokens);
  }

  lemma SameMemberships(h: Home, h': Home)
    requires Loads(Snapshot(h), h')
    ensures Snapshot(h').memberships == Snapshot(h).memberships
  {
    hide LoadsMailbox, IdentityCols, MailKeys, MemToken, Held, DistinctTokens, NoDup, SetOf, PeerRowOf;
    forall o | o in Snapshot(h).memberships ensures Snapshot(h).memberships[o] != {} {
      NonEmptySet(h.memberships[o]);
    }
    ListsBack(Snapshot(h).memberships, h'.memberships);
  }

  lemma NonEmptySet(s: seq<Key>)
    requires s != []
    ensures SetOf(s) != {}
  {
    assert s[0] in SetOf(s);
  }

  lemma ListsBack(rows: map<Key, set<Key>>, lists: map<Key, seq<Key>>)
    requires lists.Keys == rows.Keys
    requires forall o :: o in lists ==> SetOf(lists[o]) == rows[o] && rows[o] != {}
    ensures (map o | o in lists && lists[o] != [] :: SetOf(lists[o])) == rows
  {
    var back := map o | o in lists && lists[o] != [] :: SetOf(lists[o]);
    assert SetOf<Key>([]) == {};
    forall o ensures Get(back, o) == Get(rows, o) {
      assert o in lists ==> SetOf(lists[o]) == rows[o];
    }
    SameLookups(back, rows);
  }

  lemma SamePeerRows(h: Home, h': Home)
    requires h'.peers == (map p | p in Snapshot(h).peers :: RestorePeer(Snapshot(h).peers[p]))
    ensures Snapshot(h').peers == Snapshot(h).peers
  {
    hide IdentityCols, MailKeys, MemToken, Held;
    forall p ensures Get(Snapshot(h').peers, p) == Get(Snapshot(h).peers, p) {
    }
    SameLookups(Snapshot(h').peers, Snapshot(h).peers);
  }

  lemma SamePrekeys(h: Home, h': Home)
    requires h'.prekeys == Snapshot(h).prekeys
    ensures Snapshot(h').prekeys == Snapshot(h).prekeys
  {
    hide IdentityCols, MailKeys, MemToken, Held;
    forall o ensures Get(Snapshot(h').prekeys, o) == Get(Snapshot(h).prekeys, o) {
    }
    SameLookups(Snapshot(h').prekeys, Snapshot(h).prekeys);
  }

  lemma SameIdentities(h: Home, h': Home)
    requires h'.mailboxes.Keys == h.mailboxes.Keys && h'.directory == h.directory
    requires forall id :: id in h.mailboxes ==>
              h'.mailboxes[id] == h.mailboxes[id].(idem := h'.mailboxes[id].idem)
    ensures Snapshot(h').identities == Snapshot(h).identities
  {
    hide MailKeys, MemToken, Held;
    forall id ensures Get(Snapshot(h').identities, id) == Get(Snapshot(h).identities, id) {
      assert id in h.mailboxes ==> h'.mailboxes[id] == h.mailboxes[id].(idem := h'.mailboxes[id].idem);
    }
    SameLookups(Snapshot(h').identities, Snapshot(h).identities);
  }

  lemma SameMail(h: Home, h': Home)
    requires h'.mailboxes.Keys == h.mailboxes.Keys
    requires forall id :: id in h.mailboxes ==>
              h'.mailboxes[id] == h.mailboxes[id].(idem := h'.mailboxes[id].idem)
    ensures Snapshot(h').mail == Snapshot(h).mail
  {
    hide IdentityCols, MemToken, Held;
    forall k: (Key, nat) ensures Get(Snapshot(h').mail, k) == Get(Snapshot(h).mail, k) {
      MailKeysAre(h.mailboxes, k);
      MailKeysAre(h'.mailboxes, k);
    }
    SameLookups(Snapshot(h').mail, Snapshot(h).mail);
  }

  // --------------------------------------------------------------------- runs

  lemma NextKeepsGood(w: World, e: Event, w': World)
    requires Good(w) && Next(w, e, w')
    ensures Good(w')
    ensures e == Persisted ==> w'.db == Snapshot(w'.home) && w'.home.dirty == CLEAN
    ensures e == PersistFailed ==> w' == w
  {
    hide Valid, Lag, Snapshot, Admissible, Step, Flushed, Loads, Absorb, ConstraintsOk;
    var last: Home :| Valid(last) && w.db == Snapshot(last);
    match e
    case Did(op) =>
      StepValid(w.home, op);
      StepLag(w.home, w.db, op);
    case Persisted =>
      FlushIsSnapshot(w.home, w.db);
      SnapshotHasNoLag(w.home);
      SnapshotIgnoresJournal(w.home, CLEAN);
      if w.home.dirty == CLEAN { CleanMeansSynced(w.home, w.db); }
    case PersistFailed => AbsorbIntoClean(w.home.dirty);
    case Restarted =>
      ReloadRestores(last, w'.home);
      SnapshotHasNoLag(w'.home);
      LoadedIsClean(w.db, w'.home);
  }

  lemma LoadedIsClean(db: Tables, h: Home)
    requires Loads(db, h)
    ensures h == h.(dirty := CLEAN)
  {
    hide LoadsMailbox;
  }

  /** From every good world a restart can happen, and leaves a good one. */
  lemma RestartPossible(w: World) returns (w': World)
    requires Good(w)
    ensures Next(w, Restarted, w') && Good(w')
  {
    var last: Home :| Valid(last) && w.db == Snapshot(last);
    SnapshotLoads(last);
    w' := World(Restored(last), w.db);
    hide Loads, Valid, Snapshot, Restored, Lag;
    NextKeepsGood(w, Restarted, w');
  }

  /** An immediate persist would commit and leave the tables equal to a full snapshot. */
  ghost predicate WouldSync(w: World) {
    && ConstraintsOk(w.db, w.home, w.home.dirty)
    && Flushed(w.db, w.home, w.home.dirty) == Snapshot(w.home)
  }

  lemma GoodWouldSync(w: World)
    requires Good(w)
    ensures WouldSync(w)
  {
    hide Valid, Lag, Snapshot, Flushed, ConstraintsOk;
    FlushIsSnapshot(w.home, w.db);
  }

  /**
   Home journal refinement. In every run of mutators, failed and committed persists and restarts that
   starts with memory and database in agreement: memory stays sound; no persist is ever refused by a key,
   unique or foreign-key constraint; each committed persist leaves every table equal to a full snapshot
   of memory; and at any point an immediate persist would do so.
   */
  lemma {:induction false} JournalRefinement(ws: seq<World>, es: seq<Event>)
    requires IsRun(ws, es) && Good(ws[0])
    ensures forall i :: 0 <= i < |ws| ==> Good(ws[i]) && WouldSync(ws[i])
    ensures forall i :: 0 <= i < |es| && es[i] == Persisted ==> ws[i + 1].db == Snapshot(ws[i + 1].home)
  {
    hide Good, WouldSync, Next, Snapshot;
    if |es| == 0 {
      GoodWouldSync(ws[0]);
    } else {
      var n := |es| - 1;
      JournalRefinement(ws[..n + 1], es[..n]);
      assert ws[..n + 1][n] == ws[n];
      NextKeepsGood(ws[n], es[n], ws[n + 1]);
      GoodWouldSync(ws[n + 1]);
      forall i | 0 <= i < n + 1 ensures Good(ws[i]) && WouldSync(ws[i]) {
        assert ws[..n + 1][i] == ws[i];
      }
      forall i | 0 <= i < n && es[i] == Persisted ensures ws[i + 1].db == Snapshot(ws[i + 1].home) {
        assert es[..n][i] == es[i] && ws[..n + 1][i + 1] == ws[i + 1];
      }
    }
  }

  /** Between two persists the database stands still. */
  lemma {:induction false} TablesStand(ws: seq<World>, es: seq<Event>, i: nat, j: nat)
    requires IsRun(ws, es) && i < j < |ws| && forall k :: i < k < j ==> es[k] != Persisted
    ensures ws[j].db == ws[i + 1].db
    decreases j
  {
    if j > i + 1 {
      hide Step, Flushed, ConstraintsOk, Loads, Journalable;
      TablesStand(ws, es, i, j - 1);
      assert Next(ws[j - 1], es[j - 1], ws[j]);
    }
  }

  /**
   A restart, whatever happened since, brings back the memory of the last committed persist: every mailbox, row,
   directory entry, capability, queue, membership, link counter and queued envelope.
   */
  lemma RestartBringsBack(ws: seq<World>, es: seq<Event>, i: nat, j: nat)
    requires IsRun(ws, es) && Good(ws[0]) && i < j < |es| && es[i] == Persisted && es[j] == Restarted
    requires forall k :: i < k < j ==> es[k] != Persisted
    ensures SameMemory(ws[i].home, ws[j + 1].home)
  {
    hide Good, Next, Snapshot, SameMemory;
    JournalRefinement(ws, es);
    TablesStand(ws, es, i, j);
    assert Next(ws[i], es[i], ws[i + 1]) && Next(ws[j], es[j], ws[j + 1]);
    PersistKeepsMemory(ws[i], ws[i + 1]);
    RestartLoads(ws[j], ws[j + 1]);
    assert Good(ws[i + 1]);
    BackFrom(ws[i + 1], ws[j + 1].home);
    SameMemoryOf(ws[i].home, ws[i + 1].home, ws[j + 1].home);
  }

  lemma PersistKeepsMemory(w: World, w': World)
    requires Next(w, Persisted, w')
    ensures w'.home == w.home.(dirty := w'.home.dirty)
  {
    hide Flushed, ConstraintsOk;
  }

  lemma RestartLoads(w: World, w': World)
    requires Next(w, Restarted, w')
    ensures Loads(w.db, w'.home)
  {
    hide Loads;
  }

  lemma BackFrom(w: World, h': Home)
    requires Good(w) && w.db == Snapshot(w.home) && Loads(w.db, h')
    ensures SameMemory(w.home, h')
  {
    hide Valid, Lag, Snapshot, Loads, SameMemory, MemToken;
    ReloadRestores(w.home, h');
  }

  lemma SameMemoryOf(h: Home, h1: Home, h': Home)
    requires h1 == h.(dirty := h1.dirty) && SameMemory(h1, h')
    ensures SameMemory(h, h')
  {
    hide SameMailboxes, SamePeers;
  }

  // --------------------------------------------------- where the code drifts

  /**
   Acknowledging, from any state of memory, journal and database: the next persist agrees with memory exactly when
   the acknowledgement lands, and then nothing that follows is disturbed by it either.
   */
  lemma AckDriftsExactly(h: Home, db: Tables, owner: Key, upTo: U64)
    requires Valid(h) && Lag(h, db)
    ensures var h1 := Ack(h, owner, upTo).0;
            && (Flushed(db, h1, h1.dirty) == Snapshot(h1) <==> AckLands(h, db.mail, owner, upTo))
            && (AckLands(h, db.mail, owner, upTo) ==> Lag(h1, db))
  {
    hide Valid, Lag, Ack, Flushed, Snapshot;
    if AckLands(h, db.mail, owner, upTo) {
      hide AckLands;
      AckLag(h, db, owner, upTo);
      AckValid(h, owner, upTo);
      FlushIsSnapshot(Ack(h, owner, upTo).0, db);
    } else {
      var s :| (owner, s) in db.mail && !DeletedAnyway(h.dirty, (owner, s)) && s <= upTo;
      AckDrifts(h, db, owner, upTo, s);
    }
  }

  /** A row in the table up to a cursor whose merged mark does not fit stays there for good, gone from memory. */
  lemma AckDrifts(h: Home, db: Tables, owner: Key, upTo: U64, s: nat)
    requires owner in h.mailboxes && !(forall x :: x in h.mailboxes[owner].rows ==> x > upTo)
    requires MaxMark(Get(h.dirty.mailboxAcked, owner), upTo) >= I64_RANGE
    requires (owner, s) in db.mail && !DeletedAnyway(h.dirty, (owner, s)) && s <= upTo
    ensures var h1 := Ack(h, owner, upTo).0;
            (owner, s) in Flushed(db, h1, h1.dirty).mail && (owner, s) !in Snapshot(h1).mail
            && Flushed(db, h1, h1.dirty) != Snapshot(h1)
  {
    var h1 := Ack(h, owner, upTo).0;
    MailKeysAre(h1.mailboxes, (owner, s));
    assert !Gone(h1.dirty, (owner, s));
    assert (owner, s) in AfterDeletes(db.mail, h1.dirty);
    hide IdentityCols, Bytes;
  }

  /**
   The merged mark at work: with rows up to `m` acknowledged and still in the table, a second acknowledgement of
   2^63 or more, of rows that were never persisted, overwrites the pending mark and keeps the first rows forever.
   */
  lemma WideMarkHidesPendingOne(h: Home, db: Tables, owner: Key, m: U64, upTo: U64, s: nat)
    requires Valid(h) && Lag(h, db) && owner in h.mailboxes && !(forall x :: x in h.mailboxes[owner].rows ==> x > upTo)
    requires Get(h.dirty.mailboxAcked, owner) == Some(m) && s <= m < I64_RANGE <= upTo
    requires (owner, s) in db.mail && !DeletedAnyway(h.dirty, (owner, s)) && (owner, s) !in h.dirty.mailboxNew
    ensures (owner, s) !in Flushed(db, h, h.dirty).mail
    ensures var h1 := Ack(h, owner, upTo).0; (owner, s) in Flushed(db, h1, h1.dirty).mail
  {
    hide Valid, Lag, Ack, Snapshot, FlushIdentities, FlushTokens, FlushPrekeys, FlushMemberships, FlushPeers, FlushSeen;
    AckDrifts(h, db, owner, upTo, s);
    assert Gone(h.dirty, (owner, s)) && (owner, s) !in LiveNew(h.mailboxes, h.dirty.mailboxNew);
  }

  /**
   A token that is already held, from any state of memory, journal and database: memory answers with the newest
   row, the table keeps the oldest. What is stored matches what lookups use exactly when the token was not held, or
   held with the very same fields. Every registration and minting pushes its token this way.
   */
  lemma DuplicateTokenDrifts(h: Home, db: Tables, token: Key, kind: TokenKind)
    requires Valid(h) && Lag(h, db)
    ensures var h1 := PushToken(h, token, kind);
            && LastIndex(h1.tokens, token) == |h.tokens| && h1.tokens[|h.tokens|].kind == kind
            && (Get(FlushTokens(db, h1, h1.dirty), token) == Some(TokenRowOf(kind))
                <==> (MemToken(h.tokens, token) == None || MemToken(h.tokens, token) == Some(kind)))
  {
    hide Valid, MemToken, IdentityLag, MailLag, PrekeyLag, MembershipLag, PeerLag, SeenLag;
    var h1 := PushToken(h, token, kind);
    assert TokenLags(MemToken(h.tokens, token), token in h.dirty.tokens, Get(TokensAfterDeletes(db.tokens, h.dirty), token));
    assert TokensAfterDeletes(db.tokens, h1.dirty) == TokensAfterDeletes(db.tokens, h.dirty);
    FirstOfPush(h.tokens, TokenRow(token, kind), token);
    KindRoundTrip(kind);
    if MemToken(h.tokens, token).Some? { KindRoundTrip(MemToken(h.tokens, token).value); }
  }

  lemma FirstOfPush(ts: seq<TokenRow>, row: TokenRow, t: Key)
    requires row.token == t
    ensures MemToken(ts + [row], t) == if MemToken(ts, t).Some? then MemToken(ts, t) else Some(row.kind)
  {
    var i, j := FirstIndex(ts, t), FirstIndex(ts + [row], t);
    assert (ts + [row])[|ts|] == row;
    if i >= 0 { assert (ts + [row])[i] == ts[i]; }
    if 0 <= j < |ts| { assert (ts + [row])[j] == ts[j]; }
  }

  /** Noting a membership leaves the journal committable exactly when the identity is registered here. */
  lemma UnknownMemberBlocksPersist(h: Home, db: Tables, id: Key, group: Key)
    requires Valid(h) && Lag(h, db) && (id in h.memberships ==> group !in h.memberships[id])
    ensures var h1 := NoteMembership(h, id, group);
            ConstraintsOk(db, h1, h1.dirty) <==> id in h.mailboxes
  {
    hide Valid, Lag, ConstraintsOk, NoteMembership;
    NoteMembershipLag(h, db, id, group);
    if id in h.mailboxes {
      MemberStaysValid(h, id, group);
      FlushIsSnapshot(NoteMembership(h, id, group), db);
    } else {
      NotedMember(h, db, id, group);
      UnknownMemberFails(NoteMembership(h, id, group), db, id);
    }
  }

  lemma MemberStaysValid(h: Home, id: Key, group: Key)
    requires Valid(h) && id in h.mailboxes
    ensures Valid(NoteMembership(h, id, group))
  {
    NoteMembershipValid(h, id, group);
  }

  lemma NotedMember(h: Home, db: Tables, id: Key, group: Key)
    requires Valid(h) && Lag(h, db) && id !in h.mailboxes && (id in h.memberships ==> group !in h.memberships[id])
    ensures var h1 := NoteMembership(h, id, group);
            && id !in h1.mailboxes && id !in h1.directory
            && id in h1.dirty.memberships && Members(h1.memberships, id).Some?
            && IdentityLag(h1.mailboxes, h1.directory, h1.dirty.identities, db.identities)
  {
    hide MailboxesOk, TokensOk, PrekeysOk, MailLag, TokenLag, PeerLag, SeenLag, PrekeyLag, MembershipLag, IdentityLag;
  }

  lemma UnknownMemberFails(h: Home, db: Tables, id: Key)
    requires IdentityLag(h.mailboxes, h.directory, h.dirty.identities, db.identities)
    requires id !in h.mailboxes && id !in h.directory
    requires id in h.dirty.memberships && Members(h.memberships, id).Some?
    ensures !ConstraintsOk(db, h, h.dirty)
  {
    FlushIdentitiesSnapshot(h, db);
    hide IdentityLag, MemToken, LiveNew, MailInsertOk, SeenInsertOk;
    assert id !in FlushIdentities(db, h, h.dirty);
  }
}
